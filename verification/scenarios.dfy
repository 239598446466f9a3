/** The generator's documented example: a registry with English and German, the German
    entry carrying phone context words. */
module Scenarios {
  import opened Wrappers
  import opened Text
  import opened LanguageRegistry
  import LanguageList
  import opened Recognizers
  import opened ConfigProjector
  import opened GeneratorErrors

  const ExampleRegistry: Registry := Registry("3.7.0", map[
    "en" := LangEntry("en_core_web_lg", None),
    "de" := LangEntry("de_core_news_lg", Some(["telefon", "tel"]))
  ])

  /** A code that is already a valid piece parses to itself. */
  lemma CodesOfCode(a: string)
    requires a != "" && IsTrimmed(a) && ',' !in a
    ensures LanguageList.Codes(a) == [a]
  {
    LanguageList.CodesOfPiece(a);
    assert !AllSpace(a) by {
      assert !IsSpace(a[0]);
    }
    TrimTrimmed(a);
  }

  lemma CodesOfTwo(a: string, b: string)
    requires a != "" && IsTrimmed(a) && ',' !in a
    requires b != "" && IsTrimmed(b) && ',' !in b
    ensures LanguageList.Codes(a + [','] + b) == [a, b]
  {
    LanguageList.CodesAppend(a, b);
    CodesOfCode(a);
    CodesOfCode(b);
  }

  lemma ParseOfTwo(a: string, b: string)
    requires a != "" && IsTrimmed(a) && ',' !in a
    requires b != "" && IsTrimmed(b) && ',' !in b
    ensures LanguageList.Parse(a + [','] + b) == Success([a, b])
  {
    CodesOfTwo(a, b);
  }

  lemma ValidateEnDe()
    ensures Validation.Validate(["en", "de"], ExampleRegistry) == Success(["en", "de"])
  {
    assert AllKnown(["en", "de"], ExampleRegistry);
  }

  lemma ValidateEnXx()
    ensures Validation.Validate(["en", "xx"], ExampleRegistry)
              == Failure(UnknownLanguages(["xx"], {"en", "de"}))
  {
    UnknownOfEnXx();
    assert ExampleRegistry.languages.Keys == {"en", "de"};
  }

  lemma UnknownOfEnXx()
    ensures Validation.Unknown(["en", "xx"], ExampleRegistry) == ["xx"]
  {
    var reg := ExampleRegistry;
    assert "en" in reg.languages;
    assert "xx" !in reg.languages;
    var s: seq<string> := ["en", "xx"];
    assert s[1..] == ["xx"];
    assert s[1..][1..] == [];
  }

  lemma PhoneEntriesEnDe()
    ensures PhoneEntries(["en", "de"], ExampleRegistry)
              == [LanguageEntry("en", None), LanguageEntry("de", Some(["telefon", "tel"]))]
  {
    var phone := PhoneEntries(["en", "de"], ExampleRegistry);
    assert phone[0] == LanguageEntry("en", None);
    assert phone[1] == LanguageEntry("de", Some(["telefon", "tel"]));
  }

  lemma RunEnDe()
    ensures Run("en,de", ExampleRegistry) == Success(Generate(["en", "de"], ExampleRegistry))
  {
    assert "en,de" == "en" + [','] + "de";
    ParseOfTwo("en", "de");
    ValidateEnDe();
  }

  /** `--languages=en,de` succeeds: the analyzer lists en then de with threshold 0, and
      the phone recognizer gives de its context words and en no context key. */
  lemma ExampleEnDe()
    ensures Run("en,de", ExampleRegistry).Success?
    ensures var a := Run("en,de", ExampleRegistry).value;
            && a.analyzer.supportedLanguages == ["en", "de"]
            && a.analyzer.defaultScoreThreshold == 0
            && a.recognizers.recognizers[PhoneIndex].supportedLanguages
                 == [LanguageEntry("en", None), LanguageEntry("de", Some(["telefon", "tel"]))]
  {
    RunEnDe();
    PhoneEntriesEnDe();
  }

  /** `--languages=en,xx` fails naming `xx` as the only unknown code, with the
      registry's codes reported as available. */
  lemma ExampleEnXx()
    ensures Run("en,xx", ExampleRegistry) == Failure(UnknownLanguages(["xx"], {"en", "de"}))
  {
    assert "en,xx" == "en" + [','] + "xx";
    ParseOfTwo("en", "xx");
    ValidateEnXx();
  }
}
