/** Conversation history of one session and the size bound the text handler
    enforces on it (src/bot.js:207-230). */
module History {

  datatype Role = System | User | Assistant

  /** One role-tagged message of a conversation. */
  datatype Turn = Turn(role: Role, content: string)

  /** Cumulative content length of a history: the `reduce` of the trim loop's
      condition (src/bot.js:224). Content length is the length of the content
      as a sequence of characters. */
  function TotalLength(h: seq<Turn>): (total: nat)
    ensures forall i :: 0 <= i < |h| ==> |h[i].content| <= total
  {
    if h == [] then 0
    else
      assert forall i :: 0 < i < |h| ==> h[i] == h[1..][i - 1];
      |h[0].content| + TotalLength(h[1..])
  }

  lemma {:induction false} TotalLengthAppend(a: seq<Turn>, b: seq<Turn>)
    ensures TotalLength(a + b) == TotalLength(a) + TotalLength(b)
  {
    if a == [] {
      assert a + b == b;
    } else {
      assert (a + b)[1..] == a[1..] + b;
      TotalLengthAppend(a[1..], b);
    }
  }

  /** Dropping turns from the front never makes the total larger. */
  lemma TotalLengthOfLaterSuffix(h: seq<Turn>, i: nat, j: nat)
    requires i <= j <= |h|
    ensures TotalLength(h[j..]) <= TotalLength(h[i..])
  {
    assert h[i..] == h[i..j] + h[j..];
    TotalLengthAppend(h[i..j], h[j..]);
  }

  /** The loop condition of src/bot.js:224, negated and written in integers:
      the history fits in three quarters of a window of `context` tokens,
      exactly the source's comparison with `context * 0.75`. */
  predicate WithinBound(h: seq<Turn>, context: nat)
    ensures WithinBound(h, context) <==> (TotalLength(h) as real) <= (context as real) * 0.75
  {
    4 * TotalLength(h) <= 3 * context
  }

  /** The history the trim loop leaves: drop the oldest turn while the bound
      fails (src/bot.js:224-225). The result is a suffix of the input, so only
      the front is removed and the surviving turns keep their order, and it
      satisfies the bound. */
  function Trimmed(h: seq<Turn>, context: nat): (r: seq<Turn>)
    ensures |r| <= |h| && r == h[|h| - |r|..]
    ensures WithinBound(r, context)
    decreases |h|
  {
    if WithinBound(h, context) then h
    else
      var r := Trimmed(h[1..], context);
      assert h[1..][|h| - 1 - |r|..] == h[|h| - |r|..];
      r
  }

  /** Minimality: every suffix longer than the result breaks the bound, so the
      loop stops at the first history that fits. */
  lemma {:induction false} TrimmedIsLongest(h: seq<Turn>, context: nat, k: nat)
    requires k < |h| - |Trimmed(h, context)|
    ensures !WithinBound(h[k..], context)
  {
    if k > 0 {
      TrimmedIsLongest(h[1..], context, k - 1);
      assert h[1..][k - 1..] == h[k..];
    }
  }

  /** Uniqueness: the suffix that fits and whose every longer suffix does not is
      the trimmed history. With Trimmed's contract and TrimmedIsLongest this
      characterises Trimmed completely. */
  lemma {:induction false} TrimmedUnique(h: seq<Turn>, context: nat, k: nat)
    requires k <= |h|
    requires WithinBound(h[k..], context)
    requires forall j :: 0 <= j < k ==> !WithinBound(h[j..], context)
    ensures Trimmed(h, context) == h[k..]
  {
    var m := |h| - |Trimmed(h, context)|;
    if m > k {
      TrimmedIsLongest(h, context, k);
    }
  }

  /** Appending turns cannot make a suffix that broke the bound fit. */
  lemma {:induction false} LongerSuffixStillBreaks(a: seq<Turn>, b: seq<Turn>, context: nat, j: nat)
    requires j < |a| - |Trimmed(a, context)|
    ensures !WithinBound((a + b)[j..], context)
  {
    TrimmedIsLongest(a, context, j);
    SliceOfAppend(a, b, j);
    TotalLengthAppend(a[j..], b);
  }

  /** Every suffix of `a + b` longer than the result of trimming `a`,
      appending `b` and trimming again breaks the bound. */
  lemma {:induction false} LongerThanRetrimmedBreaks(a: seq<Turn>, b: seq<Turn>, context: nat, j: nat)
    requires j < |a| - |Trimmed(a, context)| + (|Trimmed(a, context) + b| - |Trimmed(Trimmed(a, context) + b, context)|)
    ensures !WithinBound((a + b)[j..], context)
  {
    var t := Trimmed(a, context);
    var d := |a| - |t|;
    if j < d {
      LongerSuffixStillBreaks(a, b, context, j);
    } else {
      TrimmedIsLongest(t + b, context, j - d);
      SliceOfAppend(a, b, d);
      SliceOfSlice(a + b, d, j - d);
    }
  }

  /** Trimming between appends changes nothing: trimming `a`, appending `b`
      and trimming again equals appending `b` to `a` and trimming once. */
  lemma {:induction false} TrimmedAfterTrimmed(a: seq<Turn>, b: seq<Turn>, context: nat)
    ensures Trimmed(Trimmed(a, context) + b, context) == Trimmed(a + b, context)
  {
    var t := Trimmed(a, context);
    var r := Trimmed(t + b, context);
    var k := |a| - |t| + (|t + b| - |r|);
    assert (a + b)[k..] == r by {
      SliceOfAppend(a, b, |a| - |t|);
      SliceOfSlice(a + b, |a| - |t|, |t + b| - |r|);
    }
    assert forall j :: 0 <= j < k ==> !WithinBound((a + b)[j..], context) by {
      forall j | 0 <= j < k
        ensures !WithinBound((a + b)[j..], context)
      {
        LongerThanRetrimmedBreaks(a, b, context, j);
      }
    }
    TrimmedUnique(a + b, context, k);
  }

  /** Idempotence: a history that already fits is left as it is, and only such
      a history is; trimming twice is trimming once. */
  lemma TrimmedFixesBoundedHistory(h: seq<Turn>, context: nat)
    ensures WithinBound(h, context) <==> Trimmed(h, context) == h
    ensures Trimmed(Trimmed(h, context), context) == Trimmed(h, context)
  {
  }

  /** No "keep the last turn" exception: a newest turn that alone breaks the
      bound is removed too, and the history ends up empty. */
  lemma NewestOversizedEmptiesHistory(h: seq<Turn>, t: Turn, context: nat)
    requires 4 * |t.content| > 3 * context
    ensures Trimmed(h + [t], context) == []
  {
    var s := h + [t];
    forall j | 0 <= j < |s|
      ensures !WithinBound(s[j..], context)
    {
      assert s[j..][|s| - 1 - j] == t;
    }
    assert s[|s|..] == [];
    TrimmedUnique(s, context, |s|);
  }

  /** The shape a history has under normal operation: user and assistant turns
      alternate and, unless empty, it ends with the assistant's reply. */
  predicate Conversational(h: seq<Turn>)
  {
    (forall i :: 0 <= i < |h| ==> h[i].role != System) &&
    (forall i :: 0 <= i < |h| - 1 ==> h[i].role != h[i + 1].role) &&
    (h != [] ==> h[|h| - 1].role == Assistant)
  }

  /** Dropping turns from the front keeps that shape. */
  lemma SuffixKeepsConversational(h: seq<Turn>, d: nat)
    requires Conversational(h) && d <= |h|
    ensures Conversational(h[d..])
  {
    var r := h[d..];
    forall i | 0 <= i < |r|
      ensures r[i].role != System
    {
      assert r[i] == h[d + i];
    }
    forall i | 0 <= i < |r| - 1
      ensures r[i].role != r[i + 1].role
    {
      assert r[i] == h[d + i] && r[i + 1] == h[d + i + 1];
    }
    if r != [] {
      assert r[|r| - 1] == h[|h| - 1];
    }
  }

  /** Trimming keeps that shape, since it only takes a suffix. */
  lemma TrimmedKeepsConversational(h: seq<Turn>, context: nat)
    requires Conversational(h)
    ensures Conversational(Trimmed(h, context))
  {
    SuffixKeepsConversational(h, |h| - |Trimmed(h, context)|);
  }

  /** Appending one user turn and then one assistant turn keeps that shape. */
  lemma ExchangeKeepsConversational(h: seq<Turn>, text: string, reply: string)
    requires Conversational(h)
    ensures Conversational(h + [Turn(User, text), Turn(Assistant, reply)])
  {
  }

  /** All turns of `h` have content of length `len`. */
  predicate Uniform(h: seq<Turn>, len: nat)
  {
    forall i :: 0 <= i < |h| ==> |h[i].content| == len
  }

  lemma {:induction false} UniformTotalLength(h: seq<Turn>, len: nat)
    requires Uniform(h, len)
    ensures TotalLength(h) == |h| * len
  {
    if h != [] {
      assert Uniform(h[1..], len);
      UniformTotalLength(h[1..], len);
    }
  }

  /** A uniform history fits exactly when it has at most `q` turns, where `q`
      is the number of `len`-character turns that fit in the bound. */
  lemma UniformWithinBound(h: seq<Turn>, len: nat, context: nat, q: nat)
    requires Uniform(h, len)
    requires q * (4 * len) <= 3 * context < (q + 1) * (4 * len)
    ensures WithinBound(h, context) <==> |h| <= q
  {
    UniformTotalLength(h, len);
    assert 4 * (|h| * len) == |h| * (4 * len);
    QuotientBound(|h|, 4 * len, 3 * context, q);
  }

  /** When exactly the suffixes of at most `q` turns fit, trimming keeps the
      newest `q` turns, or all of them if there are fewer. */
  lemma TrimmedKeepsCount(h: seq<Turn>, context: nat, q: nat)
    requires forall j :: 0 <= j <= |h| ==> (WithinBound(h[j..], context) <==> |h| - j <= q)
    ensures Trimmed(h, context) == h[|h| - (if |h| <= q then |h| else q)..]
  {
    TrimmedUnique(h, context, |h| - (if |h| <= q then |h| else q));
  }

  /** With turns of equal length `len`, of which `q` fit in the bound, trimming
      keeps the newest `q` turns, or all of them if there are fewer. */
  lemma UniformTrimKeeps(h: seq<Turn>, len: nat, context: nat, q: nat)
    requires Uniform(h, len)
    requires q * (4 * len) <= 3 * context < (q + 1) * (4 * len)
    ensures Trimmed(h, context) == h[|h| - (if |h| <= q then |h| else q)..]
  {
    forall j | 0 <= j <= |h|
      ensures WithinBound(h[j..], context) <==> |h| - j <= q
    {
      assert Uniform(h[j..], len);
      UniformWithinBound(h[j..], len, context, q);
    }
    TrimmedKeepsCount(h, context, q);
  }

  /** One text message as the handler records it: the user's text and the
      reply pushed after it (src/bot.js:209, 220). */
  datatype Exchange = Exchange(text: string, reply: string)

  /** The two turns an exchange pushes: a user turn then an assistant turn,
      in the alternating shape, carrying both texts' lengths. */
  function ExchangeTurns(e: Exchange): (ts: seq<Turn>)
    ensures Conversational(ts)
    ensures TotalLength(ts) == |e.text| + |e.reply|
  {
    var ts := [Turn(User, e.text), Turn(Assistant, e.reply)];
    assert ts == [Turn(User, e.text)] + [Turn(Assistant, e.reply)];
    TotalLengthAppend([Turn(User, e.text)], [Turn(Assistant, e.reply)]);
    assert [Turn(User, e.text)][1..] == [];
    assert [Turn(Assistant, e.reply)][1..] == [];
    ts
  }

  /** All turns of a run of exchanges, oldest first. */
  function Flatten(es: seq<Exchange>): (h: seq<Turn>)
    ensures |h| == 2 * |es|
  {
    if es == [] then [] else ExchangeTurns(es[0]) + Flatten(es[1..])
  }

  /** The history after the text handler has run once per exchange under a
      window of `context` tokens: push both turns, then trim, every time
      (src/bot.js:207-226). Once a message was handled it fits the bound. */
  function AfterExchanges(h: seq<Turn>, es: seq<Exchange>, context: nat): (r: seq<Turn>)
    ensures es != [] ==> WithinBound(r, context)
    ensures |r| <= |h| + 2 * |es|
    decreases |es|
  {
    if es == [] then h
    else AfterExchanges(Trimmed(h + ExchangeTurns(es[0]), context), es[1..], context)
  }

  /** Trimming after every message ends where one trim of the whole run would:
      the per-message loop evicts exactly the oldest turns of all the turns
      ever pushed. */
  lemma {:induction false} AfterExchangesIsOneTrim(h: seq<Turn>, es: seq<Exchange>, context: nat)
    requires es != [] || WithinBound(h, context)
    ensures AfterExchanges(h, es, context) == Trimmed(h + Flatten(es), context)
    decreases |es|
  {
    if es == [] {
      assert h + Flatten(es) == h;
    } else {
      var t := Trimmed(h + ExchangeTurns(es[0]), context);
      AfterExchangesIsOneTrim(t, es[1..], context);
      TrimmedAfterTrimmed(h + ExchangeTurns(es[0]), Flatten(es[1..]), context);
      AppendAssoc(h, ExchangeTurns(es[0]), Flatten(es[1..]));
    }
  }

  /** One run of the text handler under a registered window (the pushes at
      src/bot.js:209 and 220, then the trim at 223-226) is one step of
      `AfterExchanges`. */
  lemma HandlerStepIsOneExchange(h: seq<Turn>, text: string, reply: string, context: nat)
    ensures Trimmed(h + [Turn(User, text)] + [Turn(Assistant, reply)], context)
            == AfterExchanges(h, [Exchange(text, reply)], context)
  {
    assert h + [Turn(User, text)] + [Turn(Assistant, reply)] == h + ExchangeTurns(Exchange(text, reply));
    assert [Exchange(text, reply)][1..] == [];
  }

  /** Every exchange has a text and a reply of `len` characters. */
  predicate UniformExchanges(es: seq<Exchange>, len: nat)
  {
    forall i :: 0 <= i < |es| ==> |es[i].text| == len && |es[i].reply| == len
  }

  lemma {:induction false} FlattenUniform(es: seq<Exchange>, len: nat)
    requires UniformExchanges(es, len)
    ensures Uniform(Flatten(es), len)
  {
    if es != [] {
      assert UniformExchanges(es[1..], len);
      FlattenUniform(es[1..], len);
      var h := Flatten(es);
      forall i | 0 <= i < |h|
        ensures |h[i].content| == len
      {
        if i >= 2 {
          assert h[i] == Flatten(es[1..])[i - 2];
        }
      }
    }
  }

  /** Sixty messages of 200 characters, each answered in 200 characters, on a
      fresh session under the default 8192-token window: after the sixtieth
      message the newest thirty turns survive, 6000 characters, and the
      ninety oldest have been evicted, oldest first. */
  lemma SixtyExchangesKeepNewestThirty(es: seq<Exchange>)
    requires |es| == 60 && UniformExchanges(es, 200)
    ensures AfterExchanges([], es, 8192) == Flatten(es)[90..]
    ensures TotalLength(AfterExchanges([], es, 8192)) == 6000
  {
    AfterExchangesIsOneTrim([], es, 8192);
    assert [] + Flatten(es) == Flatten(es);
    FlattenUniform(es, 200);
    UniformTrimKeeps(Flatten(es), 200, 8192, 30);
    assert Uniform(Flatten(es)[90..], 200);
    UniformTotalLength(Flatten(es)[90..], 200);
  }

  lemma AppendAssoc(a: seq<Turn>, b: seq<Turn>, c: seq<Turn>)
    ensures (a + b) + c == a + (b + c)
  {
  }

  lemma SliceOfAppend(a: seq<Turn>, b: seq<Turn>, j: nat)
    requires j <= |a|
    ensures (a + b)[j..] == a[j..] + b
  {
  }

  lemma SliceOfSlice(s: seq<Turn>, d: nat, i: nat)
    requires d + i <= |s|
    ensures s[d..][i..] == s[d + i..]
  {
  }

  /** `x * d <= a` exactly when `x <= q`, for the `q` with
      `q * d <= a < (q + 1) * d`. */
  lemma QuotientBound(x: nat, d: nat, a: nat, q: nat)
    requires q * d <= a < (q + 1) * d
    ensures x * d <= a <==> x <= q
  {
    if x <= q {
      MulMonotone(x, q, d);
    } else {
      MulMonotone(q + 1, x, d);
    }
  }

  lemma MulMonotone(x: nat, y: nat, c: nat)
    requires x <= y
    ensures x * c <= y * c
  {
  }
}
