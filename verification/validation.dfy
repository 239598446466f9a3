/** Validation of the requested codes against the registry: all-or-nothing. */
module Validation {
  import opened Wrappers
  import opened Seqs
  import opened LanguageRegistry
  import opened GeneratorErrors

  function IsKnown(reg: Registry): string -> bool
  {
    l => l in reg.languages
  }

  function IsUnknown(reg: Registry): string -> bool
  {
    l => l !in reg.languages
  }

  /** The requested codes the registry has, in request order, duplicates kept. */
  function Known(langs: seq<string>, reg: Registry): seq<string>
  {
    Filter(IsKnown(reg), langs)
  }

  /** The requested codes the registry lacks, in request order, duplicates kept. */
  function Unknown(langs: seq<string>, reg: Registry): seq<string>
  {
    Filter(IsUnknown(reg), langs)
  }

  /** The request is accepted exactly when every code is known, and then it comes back
      unchanged; otherwise the error names the absent codes, in request order with
      duplicates kept, and only those. */
  function Validate(langs: seq<string>, reg: Registry): (r: Result<seq<string>, Error>)
    ensures r.Success? <==> AllKnown(langs, reg)
    ensures r.Success? ==> r.value == langs
    ensures r.Failure? ==> r.error.UnknownLanguages?
    ensures r.Failure? ==> r.error.unknown == Unknown(langs, reg)
    ensures r.Failure? ==> r.error.unknown != [] && r.error.available == reg.languages.Keys
    ensures r.Failure? ==> forall i :: 0 <= i < |r.error.unknown| ==> r.error.unknown[i] !in reg.languages
    ensures r.Failure? ==> forall i :: 0 <= i < |langs| && langs[i] !in reg.languages ==>
              langs[i] in r.error.unknown
  {
    var invalid := Unknown(langs, reg);
    if invalid != [] then
      assert IsUnknown(reg)(invalid[0]) && invalid[0] in langs;
      Failure(UnknownLanguages(invalid, reg.languages.Keys))
    else
      FilterKeepsAll(IsKnown(reg), langs);
      Success(Known(langs, reg))
  }

  /** The unknown codes of a concatenated request are those of each part, in order. */
  lemma UnknownAppend(a: seq<string>, b: seq<string>, reg: Registry)
    ensures Unknown(a + b, reg) == Unknown(a, reg) + Unknown(b, reg)
  {
    FilterAppend(IsUnknown(reg), a, b);
  }

  /** Each absent code is reported as many times as it was requested; present codes
      are never reported. */
  lemma UnknownMultiplicity(langs: seq<string>, reg: Registry, x: string)
    ensures multiset(Unknown(langs, reg))[x] == if x in reg.languages then 0 else multiset(langs)[x]
  {
    FilterMultiplicity(IsUnknown(reg), langs, x);
  }

  /** The request splits into its known and unknown codes with nothing lost or added. */
  lemma KnownUnknownPartition(langs: seq<string>, reg: Registry)
    ensures |Known(langs, reg)| + |Unknown(langs, reg)| == |langs|
    ensures multiset(Known(langs, reg)) + multiset(Unknown(langs, reg)) == multiset(langs)
  {
    FilterPartition(IsKnown(reg), IsUnknown(reg), langs);
  }

  /** Appending one code extends exactly one of the two lists by that code. */
  lemma PartitionStep(done: seq<string>, lang: string, reg: Registry)
    ensures lang in reg.languages ==>
              Known(done + [lang], reg) == Known(done, reg) + [lang]
              && Unknown(done + [lang], reg) == Unknown(done, reg)
    ensures lang !in reg.languages ==>
              Known(done + [lang], reg) == Known(done, reg)
              && Unknown(done + [lang], reg) == Unknown(done, reg) + [lang]
  {
    FilterAppend(IsKnown(reg), done, [lang]);
    FilterAppend(IsUnknown(reg), done, [lang]);
    assert [lang][1..] == [];
  }

  /** The loop of the generator: walk the request once, appending each code to the
      valid or the invalid list, then fail if anything was invalid. */
  method ValidateLanguages(langs: seq<string>, reg: Registry) returns (r: Result<seq<string>, Error>)
    ensures r == Validate(langs, reg)
  {
    var valid: seq<string> := [];
    var invalid: seq<string> := [];
    var i := 0;
    while i < |langs|
      invariant 0 <= i <= |langs|
      invariant valid == Known(langs[..i], reg)
      invariant invalid == Unknown(langs[..i], reg)
    {
      var lang := langs[i];
      assert langs[..i + 1] == langs[..i] + [lang];
      PartitionStep(langs[..i], lang, reg);
      if lang in reg.languages {
        valid := valid + [lang];
      } else {
        invalid := invalid + [lang];
      }
      i := i + 1;
    }
    assert langs[..i] == langs;
    if invalid != [] {
      return Failure(UnknownLanguages(invalid, reg.languages.Keys));
    }
    return Success(valid);
  }
}
