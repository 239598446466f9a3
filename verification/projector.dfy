/** The generator end to end, without its file I/O: parse the `--languages` argument,
    validate it against the registry, then project the validated list into the four
    artifacts. In the model either all four artifacts are produced or none is; the
    program shares that outcome only for registries that carry every field it reads. */
module ConfigProjector {
  import opened Wrappers
  import opened Text
  import opened LanguageRegistry
  import LanguageList
  import Validation
  import opened Nlp
  import opened Analyzer
  import opened Recognizers
  import opened InstallScript
  import opened GeneratorErrors

  /** The four generated documents: `nlp-config.yaml`, `analyzer-config.yaml`,
      `recognizers-config.yaml` and the text of `install-models.sh`. */
  datatype Artifacts = Artifacts(
    nlp: NlpConfig,
    analyzer: AnalyzerConfig,
    recognizers: RecognizersConfig,
    installScript: string)

  /** The four artifacts of one validated request: the analyzer and the recognizers
      support exactly the requested languages, and there is one NLP model per language. */
  function Generate(langs: seq<string>, reg: Registry): (r: Artifacts)
    requires AllKnown(langs, reg)
    ensures r.analyzer.supportedLanguages == langs
    ensures r.recognizers.supportedLanguages == langs
    ensures |r.nlp.models| == |langs|
  {
    Artifacts(
      GenerateNlpConfig(langs, reg),
      GenerateAnalyzerConfig(langs),
      GenerateRecognizersConfig(langs, reg),
      GenerateInstallScript(langs, reg))
  }

  /** One run of the generator on the `--languages` argument and a loaded registry. It
      produces artifacts exactly when the argument names at least one code and every
      named code is in the registry, and then it projects exactly those codes, unchanged. */
  function Run(arg: string, reg: Registry): (r: Result<Artifacts, Error>)
    ensures r.Success? <==> LanguageList.Codes(arg) != [] && AllKnown(LanguageList.Codes(arg), reg)
    ensures r.Success? ==> r.value == Generate(LanguageList.Codes(arg), reg)
  {
    match LanguageList.Parse(arg)
    case Failure(e) => Failure(e)
    case Success(requested) =>
      match Validation.Validate(requested, reg)
      case Failure(e) => Failure(e)
      case Success(langs) => Success(Generate(langs, reg))
  }

  /** Why a run fails: a blank argument is reported as such even when the registry is
      empty; otherwise the error lists precisely the absent codes, in the order they were
      requested, with the registry's codes. */
  lemma RunOutcome(arg: string, reg: Registry)
    ensures var requested := LanguageList.Codes(arg);
            && (requested == [] ==> Run(arg, reg) == Failure(NoLanguages))
            && (requested != [] && !AllKnown(requested, reg) ==>
                  Run(arg, reg) == Failure(UnknownLanguages(Validation.Unknown(requested, reg), reg.languages.Keys)))
  {
  }

  /** Order preservation: every artifact lists the validated codes in the order given,
      duplicates included: the analyzer's and the recognizers' language lists, the NLP
      models, each recognizer's entries, and the install blocks of the script. */
  lemma GeneratePreservesOrder(langs: seq<string>, reg: Registry)
    requires AllKnown(langs, reg)
    ensures var a := Generate(langs, reg);
            && a.analyzer == AnalyzerConfig(langs, 0)
            && (forall i :: 0 <= i < |langs| ==> a.nlp.models[i].langCode == langs[i])
            && (forall k, i :: 0 <= k < 6 && 0 <= i < |langs| ==>
                  a.recognizers.recognizers[k].supportedLanguages[i].language == langs[i])
            && a.installScript == Join(ScriptLines(langs, reg), '\n')
            && (forall i :: 0 <= i < |langs| ==>
                  ScriptLines(langs, reg)[3 + 3 * i] == EchoLine(reg.languages[langs[i]].model, langs[i]))
  {
    var a := Generate(langs, reg);
    forall k, i | 0 <= k < 6 && 0 <= i < |langs|
      ensures a.recognizers.recognizers[k].supportedLanguages[i].language == langs[i]
    {
      if k == PhoneIndex {
        assert a.recognizers.recognizers[k].supportedLanguages == PhoneEntries(langs, reg);
      } else {
        assert a.recognizers.recognizers[k].supportedLanguages == PlainEntries(langs);
      }
    }
    ScriptLayout(langs, reg);
  }

  /** Round trip from the command line: joining registered, trimmed, comma-free codes with
      commas and running the generator on that argument projects exactly those codes. */
  lemma RunOnJoinedCodes(codes: seq<string>, reg: Registry)
    requires |codes| >= 1 && AllKnown(codes, reg)
    requires forall i :: 0 <= i < |codes| ==> codes[i] != "" && IsTrimmed(codes[i]) && ',' !in codes[i]
    ensures Run(Join(codes, ','), reg) == Success(Generate(codes, reg))
  {
    LanguageList.ParseJoin(codes);
  }
}
