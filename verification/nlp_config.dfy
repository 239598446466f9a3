/** The NLP engine configuration: one spaCy model per requested language, wrapped in a
    fixed named-entity configuration. */
module Nlp {
  import opened LanguageRegistry

  /** One `models` item: which spaCy model serves which language. */
  datatype ModelEntry = ModelEntry(langCode: string, modelName: string)

  /** A decimal constant kept as its written digits, `mantissa` times ten to the power
      `exponent`, so that no binary floating-point value is involved. */
  datatype Decimal = Decimal(mantissa: int, exponent: int)

  /** The `ner_model_configuration` block. The label mapping is kept as an ordered list
      of pairs because the order of the keys is part of the emitted document. */
  datatype NerModelConfiguration = NerModelConfiguration(
    modelToPresidioEntityMapping: seq<(string, string)>,
    lowConfidenceScoreMultiplier: Decimal,
    lowScoreEntityNames: seq<string>,
    labelsToIgnore: seq<string>)

  datatype NlpConfig = NlpConfig(
    nlpEngineName: string,
    models: seq<ModelEntry>,
    nerModelConfiguration: NerModelConfiguration)

  const EngineName: string := "spacy"

  /** Model labels of several tag sets (the common PER/LOC/GPE/ORG set, the Polish NKJP
      set, the Korean, Swedish and Norwegian sets) mapped onto three entity kinds. */
  const EntityMapping: seq<(string, string)> := [
    ("PER", "PERSON"),
    ("PERSON", "PERSON"),
    ("LOC", "LOCATION"),
    ("GPE", "LOCATION"),
    ("ORG", "ORGANIZATION"),
    ("persName", "PERSON"),
    ("placeName", "LOCATION"),
    ("geogName", "LOCATION"),
    ("orgName", "ORGANIZATION"),
    ("PS", "PERSON"),
    ("LC", "LOCATION"),
    ("OG", "ORGANIZATION"),
    ("PRS", "PERSON"),
    ("GPE_LOC", "LOCATION")
  ]

  const LabelsToIgnore: seq<string> := [
    "O", "CARDINAL", "EVENT", "LANGUAGE", "LAW", "MONEY", "ORDINAL", "PERCENT",
    "PRODUCT", "QUANTITY", "WORK_OF_ART"
  ]

  /** The fixed named-entity block: the mapping above, a multiplier of 0.4 applied to
      `ORG` scores, and the labels to ignore. */
  const NerConfiguration: NerModelConfiguration :=
    NerModelConfiguration(EntityMapping, Decimal(4, -1), ["ORG"], LabelsToIgnore)

  /** The mapping is a well-formed dictionary onto the three entity kinds: no label is
      listed twice, and every target is PERSON, LOCATION or ORGANIZATION. */
  lemma EntityMappingWellFormed()
    ensures forall i, j :: 0 <= i < j < |EntityMapping| ==> EntityMapping[i].0 != EntityMapping[j].0
    ensures forall i :: 0 <= i < |EntityMapping| ==>
              EntityMapping[i].1 in {"PERSON", "LOCATION", "ORGANIZATION"}
  {
  }

  /** One model entry per requested language, in request order. */
  function Models(langs: seq<string>, reg: Registry): (r: seq<ModelEntry>)
    requires AllKnown(langs, reg)
    ensures |r| == |langs|
    ensures forall i :: 0 <= i < |r| ==>
              r[i].langCode == langs[i] && r[i].modelName == reg.languages[langs[i]].model
  {
    if |langs| == 0 then []
    else [ModelEntry(langs[0], reg.languages[langs[0]].model)] + Models(langs[1..], reg)
  }

  /** The NLP configuration for validated languages: the spaCy engine, entry `i` naming
      language `i` and its registry model, and the fixed named-entity block. */
  function GenerateNlpConfig(langs: seq<string>, reg: Registry): (c: NlpConfig)
    requires AllKnown(langs, reg)
    ensures c.nlpEngineName == "spacy"
    ensures |c.models| == |langs|
    ensures forall i :: 0 <= i < |langs| ==>
              c.models[i] == ModelEntry(langs[i], reg.languages[langs[i]].model)
    ensures c.nerModelConfiguration.lowScoreEntityNames == ["ORG"]
    ensures c.nerModelConfiguration.lowConfidenceScoreMultiplier == Decimal(4, -1)
  {
    NlpConfig(EngineName, Models(langs, reg), NerConfiguration)
  }
}
