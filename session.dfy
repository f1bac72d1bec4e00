/** The per-conversation session record and the handlers that update it in
    place (src/bot.js:24-31, 102-104, 122-127, 146-151, 164-169, 207-230). */
module Bot {
  import opened Wrappers
  import opened Registry
  import opened History
  import opened Gateway
  import Callback

  /** Callback payload prefixes of the three selection keyboards; the router
      hands a payload to a setter only when it starts with that setter's prefix
      (src/bot.js:122, 146, 164). */
  const ModelPrefix: string := "select_model:"
  const LanguagePrefix: string := "lang:"
  const PersonalityPrefix: string := "pers:"

  /** The payload the model keyboard attaches to a registered key
      (src/bot.js:117) hands that very key to the model setter. */
  lemma ModelButtonSelectsKey(key: string)
    requires key in Models
    ensures Callback.Value(ModelPrefix + key) == Some(key)
  {
    KeysHaveNoColon();
    assert ModelPrefix + key == "select_model" + ":" + key + [];
    Callback.ValueBetweenColons("select_model", key, []);
  }

  /** A payload starting with one of the prefixes has a value. */
  lemma PrefixedPayloadHasValue(prefix: string, data: string)
    requires |prefix| > 0 && prefix[|prefix| - 1] == ':' && prefix <= data
    ensures Callback.Value(data).Some?
  {
    assert data[|prefix| - 1] == ':';
    Callback.ValueAbsentIffNoColon(data);
  }

  /** For a registered window the bound is a whole number of characters:
      a history fits exactly when its content totals at most three quarters
      of the window. */
  lemma RegisteredBoundInWholeCharacters(h: seq<Turn>, key: string)
    requires key in Models
    ensures WithinBound(h, Models[key].context) <==> TotalLength(h) <= 3 * (Models[key].context / 4)
  {
    ContextsAreWholeQuarters();
    var c := Models[key].context;
    assert c == 4 * (c / 4);
  }

  class Session {
    var history: seq<Turn>
    var model: string
    var language: string
    var personality: string

    /** `createInitialSessionData`: empty history, the default model (which is
        registered), English and the default personality. */
    constructor ()
      ensures history == [] && model == DefaultModel
      ensures language == "english" && personality == "default"
      ensures model in Models && Models[model].context == 8192
    {
      history := [];
      model := DefaultModel;
      language := "english";
      personality := "default";
      DefaultModelRegistered();
    }

    /** `resetConversation`: forget the history, keep the settings. */
    method Reset()
      modifies this`history
      ensures history == []
      ensures model == old(model) && language == old(language) && personality == old(personality)
    {
      history := [];
    }

    /** The `select_model:` handler: store the payload's value as the model
        key, unvalidated. `confirmed` tells whether the confirmation at
        src/bot.js:126 is sent: it is for a registered key and for a key naming
        an inherited property (whose `name` it reads without failing); for any
        other key `models[modelKey]` is undefined and that line throws, but
        only after the key has been stored. */
    method SelectModel(data: string) returns (confirmed: bool)
      requires ModelPrefix <= data
      modifies this`model
      ensures Callback.Value(data) == Some(model)
      ensures confirmed <==> !Lookup(model).Missing?
      ensures history == old(history) && language == old(language) && personality == old(personality)
    {
      PrefixedPayloadHasValue(ModelPrefix, data);
      model := Callback.Value(data).value;
      confirmed := !Lookup(model).Missing?;
    }

    /** The `lang:` handler: store the payload's value as the language. */
    method SelectLanguage(data: string)
      requires LanguagePrefix <= data
      modifies this`language
      ensures Callback.Value(data) == Some(language)
      ensures history == old(history) && model == old(model) && personality == old(personality)
    {
      PrefixedPayloadHasValue(LanguagePrefix, data);
      language := Callback.Value(data).value;
    }

    /** The `pers:` handler: store the payload's value as the personality. */
    method SelectPersonality(data: string)
      requires PersonalityPrefix <= data
      modifies this`personality
      ensures Callback.Value(data) == Some(personality)
      ensures history == old(history) && model == old(model) && language == old(language)
    {
      PrefixedPayloadHasValue(PersonalityPrefix, data);
      personality := Callback.Value(data).value;
    }

    /** The trim step of the text handler (src/bot.js:223-226): look up the
        model's window, then trim to it. */
    method Trim()
      requires model in Models
      modifies this`history
      ensures history == Trimmed(old(history), Models[model].context)
      ensures model == old(model) && language == old(language) && personality == old(personality)
    {
      var maxTokens := Models[model].context;
      TrimTo(maxTokens);
    }

    /** The trim loop (src/bot.js:224-225): shift the oldest turn while the
        total content length exceeds three quarters of `maxTokens`. */
    method TrimTo(maxTokens: nat)
      modifies this`history
      ensures history == Trimmed(old(history), maxTokens)
      ensures WithinBound(history, maxTokens)
    {
      ghost var goal := Trimmed(history, maxTokens);
      while 4 * TotalLength(history) > 3 * maxTokens
        invariant Trimmed(history, maxTokens) == goal
        decreases |history|
      {
        history := history[1..];
      }
    }

    /** The `message:text` handler (src/bot.js:207-230): push the user turn,
        ask the service with the extended history, push the reply (the fallback
        text on failure), then trim to the model's window and send the reply.
        `sent` is the reply sent back to the user. The window lookup at
        src/bot.js:223 differs with the kind of key: for a key naming an
        inherited property `context` is undefined, the bound `undefined * 0.75`
        is NaN, the loop condition is false and nothing is trimmed, but the
        reply is sent; for a key the registry does not know at all the lookup
        throws after both pushes, so nothing is trimmed and nothing is sent. */
    method HandleText(text: string, complete: Request -> Option<string>) returns (sent: Option<string>)
      modifies this`history
      ensures var asked := old(history) + [Turn(User, text)];
              var reply := Respond(asked, model, language, personality, complete);
              var pushed := asked + [Turn(Assistant, reply)];
              if model in Models then history == Trimmed(pushed, Models[model].context) && sent == Some(reply)
              else if Lookup(model).Inherited? then history == pushed && sent == Some(reply)
              else history == pushed && sent == None
      ensures model in Models ==> WithinBound(history, Models[model].context)
      ensures model in Models ==>
                history == AfterExchanges(old(history), [Exchange(text, Respond(old(history) + [Turn(User, text)], model, language, personality, complete))], Models[model].context)
      ensures Conversational(old(history)) ==> Conversational(history)
      ensures model == old(model) && language == old(language) && personality == old(personality)
    {
      history := history + [Turn(User, text)];
      var response := Respond(history, model, language, personality, complete);
      history := history + [Turn(Assistant, response)];
      if Conversational(old(history)) {
        ExchangeKeepsConversational(old(history), text, response);
      }
      assert history == old(history) + [Turn(User, text), Turn(Assistant, response)];
      match Lookup(model)
      case Own(_) =>
        ghost var pushed := history;
        Trim();
        HandlerStepIsOneExchange(old(history), text, response, Models[model].context);
        if Conversational(pushed) {
          TrimmedKeepsConversational(pushed, Models[model].context);
        }
        sent := Some(response);
      case Inherited =>
        sent := Some(response);
      case Missing =>
        sent := None;
    }
  }
}
