/** The recognizer configuration: six predefined recognizers, each with its list of
    supported languages; the phone recognizer also carries per-language context words. */
module Recognizers {
  import opened Wrappers
  import opened LanguageRegistry

  /** One item of a recognizer's `supported_languages`. `context` is `None` when the
      key is omitted from the emitted document. */
  datatype LanguageEntry = LanguageEntry(language: string, context: Option<seq<string>>)

  datatype Recognizer = Recognizer(name: string, supportedLanguages: seq<LanguageEntry>, kind: string)

  datatype RecognizersConfig = RecognizersConfig(
    supportedLanguages: seq<string>,
    globalRegexFlags: int,
    recognizers: seq<Recognizer>)

  /** re.IGNORECASE (2) | re.MULTILINE (8) | re.DOTALL (16). */
  const GlobalRegexFlags: int := 26

  const Predefined: string := "predefined"

  /** The six recognizers in the order they are emitted; the phone recognizer is third. */
  const RecognizerNames: seq<string> := [
    "SpacyRecognizer", "EmailRecognizer", "PhoneRecognizer",
    "CreditCardRecognizer", "IbanRecognizer", "IpRecognizer"
  ]

  const PhoneIndex: nat := 2

  /** `{language: l}` for each requested language, in order. */
  function PlainEntries(langs: seq<string>): (r: seq<LanguageEntry>)
    ensures |r| == |langs|
    ensures forall i :: 0 <= i < |r| ==> r[i].language == langs[i] && r[i].context.None?
  {
    if |langs| == 0 then [] else [LanguageEntry(langs[0], None)] + PlainEntries(langs[1..])
  }

  /** The phone recognizer's entries: entry `i` names language `i` and has a `context`
      exactly when the registry gives that language phone context words, equal to them. */
  function PhoneEntries(langs: seq<string>, reg: Registry): (r: seq<LanguageEntry>)
    requires AllKnown(langs, reg)
    ensures |r| == |langs|
    ensures forall i :: 0 <= i < |r| ==>
              r[i].language == langs[i] && r[i].context == reg.languages[langs[i]].phoneContext
  {
    if |langs| == 0 then []
    else
      var entry := LanguageEntry(langs[0], reg.languages[langs[0]].phoneContext);
      [entry] + PhoneEntries(langs[1..], reg)
  }

  /** The recognizer configuration for validated languages: the request itself, flags 26,
      and the six predefined recognizers in fixed order, five of them sharing the plain
      language list and the phone recognizer carrying the context-bearing one. */
  function GenerateRecognizersConfig(langs: seq<string>, reg: Registry): (c: RecognizersConfig)
    requires AllKnown(langs, reg)
    ensures c.supportedLanguages == langs && c.globalRegexFlags == 26
    ensures |c.recognizers| == |RecognizerNames| == 6
    ensures forall k :: 0 <= k < |c.recognizers| ==>
              c.recognizers[k].name == RecognizerNames[k] && c.recognizers[k].kind == "predefined"
    ensures forall k :: 0 <= k < |c.recognizers| && k != PhoneIndex ==>
              c.recognizers[k].supportedLanguages == PlainEntries(langs)
    ensures c.recognizers[PhoneIndex].supportedLanguages == PhoneEntries(langs, reg)
  {
    var plain := PlainEntries(langs);
    var phone := PhoneEntries(langs, reg);
    RecognizersConfig(langs, GlobalRegexFlags, [
      Recognizer("SpacyRecognizer", plain, Predefined),
      Recognizer("EmailRecognizer", plain, Predefined),
      Recognizer("PhoneRecognizer", phone, Predefined),
      Recognizer("CreditCardRecognizer", plain, Predefined),
      Recognizer("IbanRecognizer", plain, Predefined),
      Recognizer("IpRecognizer", plain, Predefined)
    ])
  }

  /** Context omission: in the phone recognizer's list, a language's entry has a
      `context` key if and only if its registry entry has phone context words, and then
      holds exactly those words; every other recognizer's entries never have one. */
  lemma PhoneContextPresentIff(langs: seq<string>, reg: Registry, i: nat)
    requires AllKnown(langs, reg) && i < |langs|
    ensures var c := GenerateRecognizersConfig(langs, reg);
            var entry := c.recognizers[PhoneIndex].supportedLanguages[i];
            var words := reg.languages[langs[i]].phoneContext;
            && entry.language == langs[i]
            && (entry.context.Some? <==> words.Some?)
            && (words.Some? ==> entry.context.value == words.value)
            && (forall k :: 0 <= k < 6 && k != PhoneIndex ==>
                  c.recognizers[k].supportedLanguages[i] == LanguageEntry(langs[i], None))
  {
  }
}
