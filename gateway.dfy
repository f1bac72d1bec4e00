/** What `getGroqResponse` (src/bot.js:35-53) sends and what it resolves to.
    The completion service itself is a parameter: a function from the request
    to the reply text, `None` when the call fails in any way. */
module Gateway {
  import opened Wrappers
  import opened Registry
  import opened History

  /** The reply used whenever the completion call fails (src/bot.js:51). */
  const Fallback: string := "Sorry, I encountered an error. Please try again later."

  const PromptIntro: string := "You are an AI assistant. Respond in "
  const PromptMiddle: string := ". Personality: "

  /** The system directive built from the session's language and personality
      (src/bot.js:37). Both tags appear verbatim at fixed places, the language
      right after the introduction and the personality just before the final
      full stop. */
  function SystemPrompt(language: string, personality: string): (p: string)
    ensures |p| == |PromptIntro| + |language| + |PromptMiddle| + |personality| + 1
    ensures p[..|PromptIntro|] == PromptIntro
    ensures p[|PromptIntro|..|PromptIntro| + |language|] == language
    ensures p[|p| - 1 - |personality|..|p| - 1] == personality
    ensures p[|p| - 1] == '.'
  {
    PromptIntro + language + PromptMiddle + personality + "."
  }

  /** The messages sent to the completion service: one system turn, followed
      by the history unchanged (src/bot.js:38). */
  function Messages(history: seq<Turn>, language: string, personality: string): (m: seq<Turn>)
    ensures |m| == |history| + 1
    ensures m[0].role == System && m[0].content == SystemPrompt(language, personality)
    ensures m[1..] == history
  {
    [Turn(System, SystemPrompt(language, personality))] + history
  }

  /** A completion request: provider model identifier (`None` when the lookup
      found no `id`, JavaScript's `undefined`) and messages. */
  datatype Request = Request(modelId: Option<string>, messages: seq<Turn>)

  /** The identifier `models[model].id` that the request names
      (src/bot.js:42): the entry's for a registered key, undefined for a key
      naming an inherited property. */
  function ProviderId(model: string): (id: Option<string>)
    ensures id.Some? <==> model in Models
    ensures id.Some? ==> id.value == Models[model].id
  {
    match Lookup(model)
    case Own(spec) => Some(spec.id)
    case _ => None
  }

  /** The request for a session's state. None is made for a key the registry
      does not know at all, because `models[model].id` then throws before the
      call (src/bot.js:42); a key naming an inherited property yields an
      undefined identifier, and the request is still sent. */
  function BuildRequest(history: seq<Turn>, model: string, language: string, personality: string): (r: Option<Request>)
    ensures r.None? <==> Lookup(model).Missing?
    ensures r.Some? ==> r.value.modelId == ProviderId(model)
    ensures r.Some? ==> |r.value.messages| == |history| + 1 && r.value.messages[0].role == System && r.value.messages[1..] == history
  {
    if Lookup(model).Missing? then None
    else Some(Request(ProviderId(model), Messages(history, language, personality)))
  }

  /** The text `getGroqResponse` resolves to (src/bot.js:36-52): the fallback
      text, without asking the service, when the key is unknown to the
      registry; otherwise the service's reply to the request, or the fallback
      text when the service fails. It never fails itself. */
  function Respond(history: seq<Turn>, model: string, language: string, personality: string,
                   complete: Request -> Option<string>): (reply: string)
    ensures Lookup(model).Missing? ==> reply == Fallback
    ensures !Lookup(model).Missing? ==>
              var answer := complete(Request(ProviderId(model), Messages(history, language, personality)));
              reply == if answer.Some? then answer.value else Fallback
  {
    match BuildRequest(history, model, language, personality)
    case None => Fallback
    case Some(request) => complete(request).GetOr(Fallback)
  }

  /** A reply other than the fallback text is exactly what the service answered
      to the request built from the session. */
  lemma RespondPassesServiceReply(history: seq<Turn>, model: string, language: string, personality: string,
                                  complete: Request -> Option<string>)
    ensures var reply := Respond(history, model, language, personality, complete);
            reply != Fallback ==>
              !Lookup(model).Missing? &&
              complete(Request(ProviderId(model), Messages(history, language, personality))) == Some(reply)
  {
  }
}
