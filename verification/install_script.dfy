/** The model installation script: a POSIX shell script with one three-line block per
    requested language. */
module InstallScript {
  import opened Text
  import opened LanguageRegistry

  const Header: seq<string> := ["#!/bin/sh", "set -e", ""]

  const Footer: string := "echo \"All models installed successfully\""

  const ModelsRepository: string := "https://github.com/explosion/spacy-models"

  /** The wheel of `model` at spaCy release `version`, as published in the spacy-models
      releases: `<repository>/releases/download/<model>-<version>/<model>-<version>-py3-none-any.whl`. */
  function ModelUrl(model: string, version: string): string
  {
    ModelsRepository + "/releases/download/" + model + "-" + version + "/"
      + model + "-" + version + "-py3-none-any.whl"
  }

  function EchoLine(model: string, lang: string): string
  {
    "echo \"Installing " + model + " for " + lang + "...\""
  }

  function InstallLine(url: string): string
  {
    "poetry run pip install --no-cache-dir " + url
  }

  /** The three lines for one language: a progress echo, the install command, a blank. */
  function Block(lang: string, reg: Registry): seq<string>
    requires lang in reg.languages
  {
    var model := reg.languages[lang].model;
    [EchoLine(model, lang), InstallLine(ModelUrl(model, reg.spacyVersion)), ""]
  }

  /** The language blocks in request order: block `i` occupies lines `3i` to `3i + 2`. */
  function Blocks(langs: seq<string>, reg: Registry): (r: seq<string>)
    requires AllKnown(langs, reg)
    ensures |r| == 3 * |langs|
    ensures forall i :: 0 <= i < |langs| ==> r[3 * i..3 * i + 3] == Block(langs[i], reg)
  {
    if |langs| == 0 then []
    else
      var rest := Blocks(langs[1..], reg);
      var r := Block(langs[0], reg) + rest;
      assert forall i :: 1 <= i < |langs| ==> r[3 * i..3 * i + 3] == rest[3 * (i - 1)..3 * (i - 1) + 3];
      r
  }

  /** The lines of the script, before they are joined with line feeds. */
  function ScriptLines(langs: seq<string>, reg: Registry): seq<string>
    requires AllKnown(langs, reg)
  {
    Header + Blocks(langs, reg) + [Footer]
  }

  /** The text of `install-models.sh`: its lines joined with line feeds. Reading it back
      line by line recovers exactly those lines, provided the registry values and codes
      are single-line. */
  function GenerateInstallScript(langs: seq<string>, reg: Registry): (r: string)
    requires AllKnown(langs, reg)
    ensures NoLineFeeds(langs, reg) ==> SplitOn(r, '\n') == ScriptLines(langs, reg)
  {
    var lines := ScriptLines(langs, reg);
    if NoLineFeeds(langs, reg) then
      ScriptLinesNoLineFeeds(langs, reg);
      SplitJoin(lines, '\n');
      Join(lines, '\n')
    else
      Join(lines, '\n')
  }

  /** Block `i` of the request occupies lines 3 + 3i to 3 + 3i + 2 of the script. */
  lemma BlockInScript(langs: seq<string>, reg: Registry, i: nat)
    requires AllKnown(langs, reg) && i < |langs|
    ensures ScriptLines(langs, reg)[3 + 3 * i] == EchoLine(reg.languages[langs[i]].model, langs[i])
    ensures ScriptLines(langs, reg)[3 + 3 * i + 1]
              == InstallLine(ModelUrl(reg.languages[langs[i]].model, reg.spacyVersion))
    ensures ScriptLines(langs, reg)[3 + 3 * i + 2] == ""
  {
    var lines, blocks := ScriptLines(langs, reg), Blocks(langs, reg);
    assert lines[3 + 3 * i..3 + 3 * i + 3] == blocks[3 * i..3 * i + 3];
  }

  /** For n languages the script has 3 + 3n + 1 lines: the shebang, `set -e` and a blank;
      for each language in order, an echo naming its model and code, a pip install of
      the model's wheel for the registry's spaCy release, and a blank; then the final
      completion echo. */
  lemma ScriptLayout(langs: seq<string>, reg: Registry)
    requires AllKnown(langs, reg)
    ensures |ScriptLines(langs, reg)| == 3 + 3 * |langs| + 1
    ensures ScriptLines(langs, reg)[..3] == ["#!/bin/sh", "set -e", ""]
    ensures ScriptLines(langs, reg)[3 + 3 * |langs|] == "echo \"All models installed successfully\""
    ensures forall i :: 0 <= i < |langs| ==>
              ScriptLines(langs, reg)[3 + 3 * i]
                == "echo \"Installing " + reg.languages[langs[i]].model + " for " + langs[i] + "...\""
    ensures forall i :: 0 <= i < |langs| ==>
              ScriptLines(langs, reg)[3 + 3 * i + 1]
                == "poetry run pip install --no-cache-dir "
                   + ("https://github.com/explosion/spacy-models" + "/releases/download/"
                      + reg.languages[langs[i]].model + "-" + reg.spacyVersion + "/"
                      + reg.languages[langs[i]].model + "-" + reg.spacyVersion + "-py3-none-any.whl")
    ensures forall i :: 0 <= i < |langs| ==> ScriptLines(langs, reg)[3 + 3 * i + 2] == ""
  {
    var lines := ScriptLines(langs, reg);
    forall i | 0 <= i < |langs|
      ensures lines[3 + 3 * i] == EchoLine(reg.languages[langs[i]].model, langs[i])
      ensures lines[3 + 3 * i + 1] == InstallLine(ModelUrl(reg.languages[langs[i]].model, reg.spacyVersion))
      ensures lines[3 + 3 * i + 2] == ""
    {
      BlockInScript(langs, reg, i);
    }
    assert lines[..3] == Header;
    assert lines[3 + 3 * |langs|] == Footer;
  }

  /** No line of the script contains a line feed when no model, code or version does. */
  predicate NoLineFeeds(langs: seq<string>, reg: Registry)
    requires AllKnown(langs, reg)
  {
    && '\n' !in reg.spacyVersion
    && forall i :: 0 <= i < |langs| ==> '\n' !in langs[i] && '\n' !in reg.languages[langs[i]].model
  }

  lemma EchoLineNoLineFeeds(model: string, lang: string)
    requires '\n' !in model && '\n' !in lang
    ensures '\n' !in EchoLine(model, lang)
  {
    assert '\n' !in "echo \"Installing ";
    assert '\n' !in " for ";
    assert '\n' !in "...\"";
  }

  lemma ModelUrlNoLineFeeds(model: string, version: string)
    requires '\n' !in model && '\n' !in version
    ensures '\n' !in ModelUrl(model, version)
  {
    assert '\n' !in ModelsRepository;
  }

  lemma BlockNoLineFeeds(lang: string, reg: Registry)
    requires lang in reg.languages
    requires '\n' !in lang && '\n' !in reg.languages[lang].model && '\n' !in reg.spacyVersion
    ensures forall k :: 0 <= k < 3 ==> '\n' !in Block(lang, reg)[k]
  {
    var model, version := reg.languages[lang].model, reg.spacyVersion;
    EchoLineNoLineFeeds(model, lang);
    ModelUrlNoLineFeeds(model, version);
    assert '\n' !in "poetry run pip install --no-cache-dir ";
  }

  lemma BlocksNoLineFeeds(langs: seq<string>, reg: Registry)
    requires AllKnown(langs, reg)
    requires NoLineFeeds(langs, reg)
    ensures forall j :: 0 <= j < |Blocks(langs, reg)| ==> '\n' !in Blocks(langs, reg)[j]
  {
    var blocks := Blocks(langs, reg);
    forall j | 0 <= j < |blocks|
      ensures '\n' !in blocks[j]
    {
      var i := j / 3;
      BlockNoLineFeeds(langs[i], reg);
      assert blocks[j] == blocks[3 * i..3 * i + 3][j - 3 * i];
    }
  }

  lemma ScriptLinesNoLineFeeds(langs: seq<string>, reg: Registry)
    requires AllKnown(langs, reg)
    requires NoLineFeeds(langs, reg)
    ensures forall j :: 0 <= j < |ScriptLines(langs, reg)| ==> '\n' !in ScriptLines(langs, reg)[j]
  {
    var lines := ScriptLines(langs, reg);
    var blocks := Blocks(langs, reg);
    BlocksNoLineFeeds(langs, reg);
    forall j | 0 <= j < |lines|
      ensures '\n' !in lines[j]
    {
      if 3 <= j < 3 + |blocks| {
        assert lines[j] == blocks[j - 3];
      }
    }
  }
}
