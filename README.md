# Session bookkeeping of the telegram-groq chat bot

The bot relays a user's Telegram messages to a Groq-hosted language model and
keeps one small session record per conversation: the conversation `history`
(a sequence of `{role, content}` turns), the selected `model` key, the reply
`language` and the `personality`. This project models that record and every
piece of logic the bot runs on it, all in `src/bot.js`:

- the model registry, a fixed table from key to provider identifier, display
  name and context-window size (`registry.dfy`);
- the history and its size bound: the total content length, the trim policy
  as a specification function `Trimmed`, and the properties of that policy:
  suffix, bound, minimality, uniqueness, idempotence, eviction of an
  oversized newest turn, and the alternating user/assistant shape
  (`history.dfy`);
- the `data.split(':')[1]` extraction of callback payloads, with JavaScript's
  `split` modelled piece by piece and its round trip with joining proved
  (`callback.dfy`);
- the request sent to the completion service (one system turn in front of the
  unchanged history) and the reply the bot uses, which is the fixed fallback
  text on any failure (`gateway.dfy`);
- the session itself as a class whose fields the handlers assign in place:
  the initial record, reset, the three callback setters, the trim loop and the
  text-message handler (`session.dfy`).

The completion service is a parameter of the text handler: a total function
from the request to `Option<string>`, where `None` stands for any failure of
the call. The trim bound `total > context * 0.75` is written in integers as
`4 * total > 3 * context`; the contract of `History.WithinBound` proves the two
comparisons agree for every window size. Content length is the length of the
content as a sequence of characters.

The model follows the code in three places a reader might expect otherwise:

- Trimming has no "keep the last turn" exception: when the newest turn alone
  breaks the bound, the history ends up empty (`NewestOversizedEmptiesHistory`).
- Selecting a model does not reject unknown keys: the key is stored (line 124)
  before anything looks it up. Because the registry is a JavaScript object
  literal, `models[key]` has three outcomes, and the model keeps all three
  (`Registry.Lookup`):
  - a registered key finds its entry, and everything works as intended;
  - a key naming a property inherited from `Object.prototype` (`constructor`,
    `toString`, `__proto__`, ...) finds an object that has no `id`, no model
    `name` and no `context`.
    The confirmation at line 126 is still sent. The request at line 42 goes
    out with an undefined model identifier. At line 223 the window is
    undefined, so the bound `undefined * 0.75` is NaN and the loop condition
    at line 224 is false: nothing is trimmed, and the reply is sent;
  - any other key finds `undefined`. Line 126 throws after the key was
    stored. On the next text message, line 42 throws inside the `try`, so the
    service is not asked and the reply is the fallback text. Line 223 then
    throws after both turns were pushed, so the history is not trimmed and no
    reply is sent (`Session.HandleText`).
- Language and personality are stored exactly as the payload carries them,
  the empty text included (`lang:` yields `""`).

## Model

| member | source | states |
|---|---|---|
| Registry.DefaultModelRegistered | src/bot.js:15-27 | the default model key `llama3-70b` is in the registry, with an 8192-token window |
| Registry.ContextsAreWholeQuarters | src/bot.js:15-21 | every registered window is positive and divisible by four |
| Registry.Lookup | src/bot.js:15-21 | `models[key]` finds the table entry exactly for the five registered keys, an inherited object exactly for the names `Object.prototype` provides, and `undefined` for every other key |
| Registry.KeysHaveNoColon | src/bot.js:15-21 | no registry key contains a colon, so it survives the `prefix:key` payload format |
| History.TotalLengthAppend | src/bot.js:224 | the summed content length of a concatenation is the sum of the two totals |
| History.TotalLengthOfLaterSuffix | src/bot.js:224 | dropping turns from the front never increases the total length |
| History.TotalLength | src/bot.js:224 | the summed content length (the `reduce`) is at least the length of every single turn |
| History.WithinBound | src/bot.js:224 | the negated loop condition: the integer bound `4 * total <= 3 * context` holds exactly when `total <= context * 0.75` |
| History.Trimmed | src/bot.js:223-226 | the trimmed history is a suffix of the input (only the oldest turns go, order kept) and satisfies the bound |
| History.TrimmedIsLongest | src/bot.js:224-225 | every suffix longer than the trimmed history breaks the bound: the loop stops at the first history that fits |
| History.TrimmedUnique | src/bot.js:224-225 | any suffix that fits while all longer suffixes do not is the trimmed history |
| History.LongerSuffixStillBreaks | src/bot.js:224-225 | appending turns cannot make a suffix that broke the bound fit |
| History.LongerThanRetrimmedBreaks | src/bot.js:224-225 | every suffix of `a + b` longer than the result of trimming `a`, appending `b` and trimming again breaks the bound |
| History.TrimmedAfterTrimmed | src/bot.js:209-226 | trimming, appending and trimming again equals appending and trimming once |
| History.TrimmedFixesBoundedHistory | src/bot.js:224 | trimming leaves a history unchanged exactly when it already fits, and trimming twice equals trimming once |
| History.NewestOversizedEmptiesHistory | src/bot.js:224-225 | a newest turn that alone exceeds the bound is removed as well, leaving an empty history |
| History.SuffixKeepsConversational | src/bot.js:225 | removing turns from the front keeps the alternating user/assistant shape ending in a reply |
| History.TrimmedKeepsConversational | src/bot.js:223-226 | trimming keeps the alternating user/assistant shape |
| History.ExchangeKeepsConversational | src/bot.js:209-220 | pushing a user turn then an assistant turn keeps the alternating shape |
| History.UniformTotalLength | src/bot.js:224 | turns of equal length `len` total `len` times their number |
| History.UniformWithinBound | src/bot.js:224 | a history of equal-length turns fits exactly when it has at most the number of such turns the bound holds |
| History.TrimmedKeepsCount | src/bot.js:224-225 | when exactly the suffixes of at most `q` turns fit, trimming keeps the newest `q` turns (or all, if fewer) |
| History.UniformTrimKeeps | src/bot.js:224-225 | with equal-length turns, trimming keeps precisely the newest turns that fit and evicts the oldest first |
| History.ExchangeTurns | src/bot.js:209-220 | one text message pushes a user turn then an assistant turn, in the alternating shape, whose total length is the text's plus the reply's |
| History.AfterExchanges | src/bot.js:207-226 | the history after one handler run per message, trimming every time: it fits the bound once a message was handled, and it never has more than two new turns per message |
| History.HandlerStepIsOneExchange | src/bot.js:209-226 | the two pushes followed by a trim are exactly one step of `AfterExchanges` |
| History.Flatten | src/bot.js:209-220 | the turns of a run of text messages are two per message |
| History.AfterExchangesIsOneTrim | src/bot.js:207-226 | running the text handler once per message, trimming every time, ends in the history one trim of the starting history and all pushed turns would leave, from any starting history (one over the bound included, after a window change, untrimmed messages or a load) once at least one message was handled |
| History.FlattenUniform | src/bot.js:209-220 | messages and replies of one length give turns of that length |
| History.SixtyExchangesKeepNewestThirty | src/bot.js:207-226 | sixty text messages of 200 characters with 200-character replies, on a fresh session under an 8192-token window and trimmed after each message, leave the newest 30 turns, 6000 characters, the 90 oldest evicted first |
| History.QuotientBound | src/bot.js:224 | arithmetic step: `x * d <= a` exactly when `x` is at most the quotient `q` |
| Callback.Split | src/bot.js:123 | `split(':')` yields exactly one more piece than there are colons, no piece contains a colon, and joining the pieces with colons gives the input back |
| Callback.SplitAfterPiece | src/bot.js:123 | a colon-free piece before a colon splits off as the first piece |
| Callback.SplitJoin | src/bot.js:123 | colon-free pieces joined with colons split back into the same pieces |
| Callback.Value | src/bot.js:123 | `split(':')[1]` never contains a colon |
| Callback.ValueAbsentIffNoColon | src/bot.js:123 | `split(':')[1]` is undefined exactly when the payload has no colon |
| Callback.ValueBetweenColons | src/bot.js:123 | `split(':')[1]` is the text between the first and the second colon, or up to the end when there is no second one |
| Gateway.SystemPrompt | src/bot.js:37 | the system directive carries the language right after its introduction and the personality just before its final full stop |
| Gateway.Messages | src/bot.js:38 | the messages sent are one system turn carrying the directive followed by the history unchanged |
| Gateway.ProviderId | src/bot.js:42 | `models[model].id` is the entry's identifier for a registered key and undefined for an inherited name; a missing key throws before this is read (see `Gateway.BuildRequest`) |
| Gateway.BuildRequest | src/bot.js:38-42 | no request is made exactly when the key is unknown to the registry (line 42 throws); otherwise it names `models[model].id`, undefined for an inherited name, and carries the history behind a system turn |
| Gateway.Respond | src/bot.js:35-53 | for a key unknown to the registry the reply is the fallback text (`Gateway.Fallback`, line 51) and the service is not asked; otherwise it is the service's answer to the request built from the session, or the fallback text when the service fails |
| Gateway.RespondPassesServiceReply | src/bot.js:48-51 | any reply other than the fallback text is exactly the service's answer to the request built from the session |
| Bot.ModelButtonSelectsKey | src/bot.js:116-124 | the payload the model keyboard attaches to a registered key hands that same key to the model setter |
| Bot.PrefixedPayloadHasValue | src/bot.js:122-123 | a payload routed by a `prefix:` pattern always has a second field |
| Bot.RegisteredBoundInWholeCharacters | src/bot.js:223-224 | for a registered window the bound is a whole number of characters: the history fits exactly when it totals at most three times a quarter of the window |
| Bot.Session.constructor | src/bot.js:24-31 | a fresh session has empty history, model `llama3-70b` (registered, 8192 tokens), language `english` and personality `default` |
| Bot.Session.Reset | src/bot.js:102-104 | the history becomes empty; model, language and personality are untouched |
| Bot.Session.SelectModel | src/bot.js:122-127 | the model becomes the payload's second field, unvalidated; `confirmed` says whether line 126 sends its confirmation (registered or inherited name) rather than throwing; nothing else changes |
| Bot.Session.SelectLanguage | src/bot.js:146-151 | the language becomes the payload's second field; nothing else changes |
| Bot.Session.SelectPersonality | src/bot.js:164-169 | the personality becomes the payload's second field; nothing else changes |
| Bot.Session.Trim | src/bot.js:223-226 | with a registered model, the history becomes the trimmed history for that model's window; the settings are untouched |
| Bot.Session.TrimTo | src/bot.js:224-226 | the shift loop leaves exactly the trimmed history, which fits the bound |
| Bot.Session.HandleText | src/bot.js:207-230 | the history is extended by the user turn and then the reply (the fallback text on failure); with a registered model it is then trimmed to fit and the reply is sent; with an inherited name it stays untrimmed and the reply is sent; with an unknown key it stays untrimmed and nothing is sent; with a registered model the new history is one step of `History.AfterExchanges`; the alternating shape is preserved and the settings are untouched |

## Left out

- The Groq SDK call (src/bot.js:40-48) and its parameters (temperature, maximum tokens, top-p): a network call with floating-point settings; the service is a function parameter returning an optional text. The `console.error` logging of a failed call (src/bot.js:50) is console output and is not modelled.
- The Telegram wiring: `/start`, `/help`, the `/model`, `/language` and `/personality` keyboards, `/currentmodel`, the settings menu, `answerCallbackQuery` and `ctx.reply` (src/bot.js:56-93, 107-120, 129-144, 153-162, 197-204). These are user-interface output; only the reply value of the text handler is modelled (`sent`).
- `/save` and loading a conversation from an uploaded document (src/bot.js:171-195): file-system writes, an HTTP fetch and JSON encoding whose behaviour lives outside the repository. The load handler assigns the history only after a successful parse (line 189), so a failed load leaves the session unchanged; this is not modelled.
- A reply that is not a string (for example a null completion content), for which `msg.content.length` at line 224 would throw: turn contents are always strings here.
- Client and bot construction from environment variables (src/bot.js:6-12), the session middleware that creates one record per chat (line 32), `bot.catch` and `bot.start` (src/bot.js:232-238).
- Concurrency: two overlapping messages on one session can interleave around the awaited service call; nothing in the code coordinates them, and each handler is modelled as running to completion.
- The text of the model confirmation at line 126 (the entry's display name, or the inherited property's own `name`) is user-interface output and is not modelled; only whether it is sent is.
- `Registry.Lookup`: the inherited names are the standard properties of `Object.prototype`; properties a runtime or a library might add to it are not modelled.
- JavaScript's `.length` counts UTF-16 code units; the model counts characters of the content sequence.
