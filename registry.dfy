/** The fixed table of completion models the bot can use (src/bot.js:15-21). */
module Registry {

  /** One entry of the table: the provider-side identifier, the display name and
      the size of the context window in tokens. */
  datatype ModelSpec = ModelSpec(id: string, name: string, context: nat)

  /** The registry, keyed by the short model key that sessions store. */
  const Models: map<string, ModelSpec> := map[
    "llama3-8b" := ModelSpec("llama3-8b-8192", "LLaMA3 8b", 8192),
    "llama3-70b" := ModelSpec("llama3-70b-8192", "LLaMA3 70b", 8192),
    "mixtral" := ModelSpec("mixtral-8x7b-32768", "Mixtral 8x7b", 32768),
    "gemma-7b" := ModelSpec("gemma-7b-it", "Gemma 7b", 8192),
    "gemma2-9b" := ModelSpec("gemma2-9b-it", "Gemma2 9b", 8192)
  ]

  /** The registry is a JavaScript object literal, so a lookup also finds the
      properties every object inherits from `Object.prototype` (ECMA-262,
      "Properties of the Object Prototype Object", section 20.1.3 of the 2023
      edition, and its Annex B.2.2 additions). None of them has an `id`, a
      `name` of a model or a `context`. */
  const InheritedNames: set<string> := {
    "constructor", "hasOwnProperty", "isPrototypeOf", "propertyIsEnumerable",
    "toLocaleString", "toString", "valueOf", "__proto__",
    "__defineGetter__", "__defineSetter__", "__lookupGetter__", "__lookupSetter__"
  }

  /** What `models[key]` yields: an entry of the table, an inherited property
      (an object with none of the entry fields), or `undefined`. */
  datatype Entry = Own(spec: ModelSpec) | Inherited | Missing

  /** The lookup `models[key]` (src/bot.js:42, 126, 223). */
  function Lookup(key: string): (e: Entry)
    ensures e.Own? <==> key in Models
    ensures e.Own? ==> e.spec == Models[key]
    ensures e.Inherited? <==> key in InheritedNames
    ensures e.Missing? <==> key !in Models && key !in InheritedNames
  {
    if key in Models then Own(Models[key])
    else if key in InheritedNames then Inherited
    else Missing
  }

  /** The model key a fresh session starts with. */
  const DefaultModel: string := "llama3-70b"

  /** The default key names a registered model, whose window is 8192 tokens. */
  lemma DefaultModelRegistered()
    ensures DefaultModel in Models
    ensures Models[DefaultModel].context == 8192
  {
  }

  /** Every registered window is positive and a multiple of four, so three
      quarters of it is a whole number. */
  lemma ContextsAreWholeQuarters()
    ensures forall key :: key in Models ==> Models[key].context > 0 && Models[key].context % 4 == 0
  {
  }

  /** No registered key contains a colon, so a `select_model:<key>` callback
      carries the key intact. */
  lemma KeysHaveNoColon()
    ensures forall key :: key in Models ==> ':' !in key
  {
  }
}
