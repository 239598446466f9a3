/** The analyzer configuration: the requested languages and a zero score threshold. */
module Analyzer {

  datatype AnalyzerConfig = AnalyzerConfig(supportedLanguages: seq<string>, defaultScoreThreshold: int)

  /** The analyzer supports exactly the requested languages, in request order, and keeps
      every result whatever its score. */
  function GenerateAnalyzerConfig(langs: seq<string>): (c: AnalyzerConfig)
    ensures c.supportedLanguages == langs
    ensures c.defaultScoreThreshold == 0
  {
    AnalyzerConfig(langs, 0)
  }
}
