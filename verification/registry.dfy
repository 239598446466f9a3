/** The language registry, as already parsed from its structured-data file. */
module LanguageRegistry {
  import opened Wrappers

  /** One entry of the registry's `languages` mapping: the spaCy model to install and,
      optionally, the context words the phone-number recognizer uses for the language. */
  datatype LangEntry = LangEntry(model: string, phoneContext: Option<seq<string>>)

  /** The registry: the spaCy release shared by all models, and the supported languages
      keyed by language code. */
  datatype Registry = Registry(spacyVersion: string, languages: map<string, LangEntry>)

  /** Every requested code is a key of the registry, so every lookup of it succeeds. */
  predicate AllKnown(langs: seq<string>, reg: Registry)
  {
    forall i :: 0 <= i < |langs| ==> langs[i] in reg.languages
  }
}
