/** Callback payloads of the inline keyboards have the form `prefix:value`; each
    setter reads `data.split(':')[1]` (src/bot.js:123, 147, 165). */
module Callback {
  import opened Wrappers

  /** Pieces of `s` between colons: JavaScript's `s.split(':')`. There is one
      more piece than there are colons, no piece contains a colon, and
      rejoining the pieces with colons gives `s` back. */
  function Split(s: string): (parts: seq<string>)
    ensures |parts| == Colons(s) + 1
    ensures forall i :: 0 <= i < |parts| ==> ':' !in parts[i]
    ensures Join(parts) == s
    decreases |s|
  {
    if s == [] then [""]
    else
      var rest := Split(s[1..]);
      if s[0] == ':' then
        assert s == [':'] + s[1..];
        [""] + rest
      else
        assert s == [s[0]] + s[1..];
        JoinConsChar(s[0], rest);
        [[s[0]] + rest[0]] + rest[1..]
  }

  /** Number of colons in `s`. */
  function Colons(s: string): nat
  {
    if s == [] then 0 else (if s[0] == ':' then 1 else 0) + Colons(s[1..])
  }

  /** Pieces rejoined with a colon between each two. */
  function Join(parts: seq<string>): string
    requires |parts| >= 1
    decreases |parts|
  {
    if |parts| == 1 then parts[0] else parts[0] + ":" + Join(parts[1..])
  }

  lemma {:induction false} JoinConsChar(c: char, parts: seq<string>)
    requires |parts| >= 1
    ensures Join([[c] + parts[0]] + parts[1..]) == [c] + Join(parts)
  {
    var q := [[c] + parts[0]] + parts[1..];
    if |parts| == 1 {
      assert q == [[c] + parts[0]];
    } else {
      var tail := Join(parts[1..]);
      assert q[1..] == parts[1..];
      assert Join(q) == ([c] + parts[0]) + ":" + tail;
      assert ([c] + parts[0]) + ":" + tail == [c] + (parts[0] + ":" + tail);
    }
  }

  /** A piece without a colon splits to itself. */
  lemma {:induction false} SplitPlain(p: string)
    requires ':' !in p
    ensures Split(p) == [p]
  {
  }

  /** A colon-free piece followed by a colon splits off as the first part. */
  lemma {:induction false} SplitAfterPiece(p: string, s: string)
    requires ':' !in p
    ensures Split(p + ":" + s) == [p] + Split(s)
    decreases |p|
  {
    if p == [] {
      assert p + ":" + s == [':'] + s;
      assert (p + ":" + s)[1..] == s;
    } else {
      assert (p + ":" + s)[1..] == p[1..] + ":" + s;
      SplitAfterPiece(p[1..], s);
      assert [p[0]] + p[1..] == p;
    }
  }

  /** Round trip the other way: colon-free pieces, joined and split again,
      come back unchanged. */
  lemma {:induction false} SplitJoin(parts: seq<string>)
    requires |parts| >= 1
    requires forall i :: 0 <= i < |parts| ==> ':' !in parts[i]
    ensures Split(Join(parts)) == parts
    decreases |parts|
  {
    if |parts| == 1 {
      SplitPlain(parts[0]);
    } else {
      assert forall i :: 0 <= i < |parts| - 1 ==> parts[1..][i] == parts[i + 1];
      SplitJoin(parts[1..]);
      SplitAfterPiece(parts[0], Join(parts[1..]));
      assert parts == [parts[0]] + parts[1..];
    }
  }

  /** The second colon-separated field of a callback payload, as
      `data.split(':')[1]` reads it: absent (JavaScript's `undefined`) when the
      payload has no colon. */
  function Value(data: string): (v: Option<string>)
    ensures v.Some? ==> ':' !in v.value
  {
    var parts := Split(data);
    if |parts| >= 2 then Some(parts[1]) else None
  }

  /** The value is absent exactly when the payload has no colon. */
  lemma ValueAbsentIffNoColon(data: string)
    ensures Value(data).None? <==> ':' !in data
  {
    var parts := Split(data);
    if ':' !in data {
      SplitPlain(data);
    } else if |parts| >= 2 {
      assert data == parts[0] + ":" + Join(parts[1..]);
      assert data[|parts[0]|] == ':';
    }
  }

  /** The value is the text between the first and the second colon, or between
      the first colon and the end when there is no second one. */
  lemma ValueBetweenColons(prefix: string, value: string, rest: string)
    requires ':' !in prefix && ':' !in value
    requires rest == [] || rest[0] == ':'
    ensures Value(prefix + ":" + value + rest) == Some(value)
  {
    assert prefix + ":" + value + rest == prefix + ":" + (value + rest);
    SplitAfterPiece(prefix, value + rest);
    if rest == [] {
      assert value + rest == value;
      SplitPlain(value);
    } else {
      assert value + rest == value + ":" + rest[1..];
      SplitAfterPiece(value, rest[1..]);
    }
  }
}
