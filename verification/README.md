# Presidio config generator — verified functional model

This project models the pure core of `docker/presidio/generate-configs.py`, the build-time
generator that turns a comma-separated list of language codes and a language registry into
the configuration of a Presidio text-analysis deployment:

- **Language-list parsing**: the `--languages` argument is split on commas, each piece is
  stripped of surrounding whitespace, empty pieces are dropped, and an empty result stops
  the run (`LanguageList`, built on the `split`/`join`/`strip` model in `Text`).
- **Validation**: the requested codes are partitioned into those the registry knows and
  those it does not; the run continues only when none are unknown, with the request
  unchanged (order and duplicates kept) (`Validation`).
- **Projections**: the NLP engine configuration (`Nlp`), the analyzer configuration
  (`Analyzer`), the six-recognizer configuration with optional phone context words
  (`Recognizers`), and the line-oriented model installation script (`InstallScript`).
- **The run**: parse, validate, project; in the model either all four artifacts or an
  error (`ConfigProjector`), and the documented en/de example (`Scenarios`). The program
  has that all-or-nothing outcome only for registries that carry every field it reads
  (see "Left out").

The registry is an already-parsed value: `Registry(spacyVersion, languages)` with
`languages: map<string, LangEntry>` and `LangEntry(model, phoneContext: Option<seq<string>>)`.
Failures that end the generator with exit status 1 are `Result` errors of one type,
`GeneratorErrors.Error`: `NoLanguages`, and `UnknownLanguages(unknown, available)` carrying the offending codes in request order and
the registry's codes. An optional output key is an `Option` whose `None` means the key is
omitted, never emitted empty. Every operation is a pure function, so running it twice on
the same inputs gives identical artifacts.

The projections require every code to be in the registry (`AllKnown`): the generator
looks codes up with `registry["languages"][lang]`, which raises for an absent key, and it
only calls the projections after validation; `Run` discharges the requirement from
`Validate`.

`Text.IsSpace` reproduces the character set of Python's `str.isspace` (ASCII tab, line
feed, vertical tab, form feed, carriage return, 0x1C-0x1F, space, and the Unicode
separators U+0085, U+00A0, U+1680, U+2000-U+200A, U+2028, U+2029, U+202F, U+205F, U+3000).

## Model

| member | source | states |
|---|---|---|
| Seqs.Filter | docker/presidio/generate-configs.py:34-38 | the filtered list is no longer than the input, holds only input elements that pass the test, and holds every input element that passes it |
| Seqs.FilterAppend | docker/presidio/generate-configs.py:34-38 | filtering a concatenation is the concatenation of the filtered parts, so kept elements keep their relative order |
| Seqs.FilterKeepsAll | docker/presidio/generate-configs.py:34-45 | when every element passes, the filtered list is the input itself |
| Seqs.FilterKeepsNone | docker/presidio/generate-configs.py:197-198 | when no element passes, the filtered list is empty |
| Seqs.FilterMultiplicity | docker/presidio/generate-configs.py:34-38 | a kept value occurs in the result as often as in the input, a dropped value not at all |
| Seqs.FilterPartition | docker/presidio/generate-configs.py:34-38 | a list split by a test and by its negation: lengths add up and the two multisets together are the input's |
| Text.SkipSpaces | docker/presidio/generate-configs.py:197 | the forward scan stops at the first character that is not whitespace (or the end), having passed only whitespace |
| Text.SkipSpacesBack | docker/presidio/generate-configs.py:197 | the backward scan stops just after the last character that is not whitespace (or at its lower bound), having passed only whitespace |
| Text.Trim | docker/presidio/generate-configs.py:197 | `strip()` returns a piece no longer than its input whose first and last characters are not whitespace |
| Text.TrimCutsSpace | docker/presidio/generate-configs.py:197 | the input is the stripped piece with whitespace-only text before and after it: `strip()` removes nothing else |
| Text.TrimIdempotent | docker/presidio/generate-configs.py:197 | stripping a stripped piece changes nothing |
| Text.TrimEmptyIffAllSpace | docker/presidio/generate-configs.py:197 | a piece strips to the empty string exactly when it is whitespace only, which is when the comprehension drops it |
| Text.SplitOn | docker/presidio/generate-configs.py:197 | `split(",")` yields one more piece than there are commas, no piece contains a comma, and joining the pieces with commas rebuilds the input |
| Text.SplitJoin | docker/presidio/generate-configs.py:170 | splitting a `join` of separator-free pieces on the separator gives the pieces back |
| Text.SplitNoSeparator | docker/presidio/generate-configs.py:197 | a string without commas splits into itself alone |
| Text.SplitAppend | docker/presidio/generate-configs.py:197 | splitting `a,b` yields the pieces of `a` followed by the pieces of `b` |
| Text.Join | docker/presidio/generate-configs.py:170 | `sep.join` of separator-free pieces holds exactly one separator fewer than there are pieces; with `Text.SplitJoin` it is the inverse of splitting |
| LanguageList.Codes | docker/presidio/generate-configs.py:197 | every parsed code is non-empty, stripped and comma-free, and the list is empty exactly when every comma-separated piece is whitespace only |
| LanguageList.Parse | docker/presidio/generate-configs.py:197-200 | the "no languages" error happens exactly for an argument whose pieces are all blank; otherwise the result is the argument's codes, in order, at least one, each non-empty, stripped and comma-free |
| LanguageList.CodesAppend | docker/presidio/generate-configs.py:197 | the codes of `a,b` are the codes of `a` followed by those of `b`: the pieces' relative order is preserved |
| LanguageList.CodesOfPiece | docker/presidio/generate-configs.py:197 | a comma-free piece contributes its stripped self, or nothing when it is blank |
| LanguageList.ParseJoin | docker/presidio/generate-configs.py:197-200 | joining a non-empty list of stripped, non-empty, comma-free codes with commas and parsing it returns exactly that list |
| Validation.Validate | docker/presidio/generate-configs.py:28-45 | success exactly when every code is a registry key, and then the request comes back unchanged; on failure the error is the list of absent codes in request order with duplicates kept, non-empty, containing only and all absent codes, with the registry's keys as the available set |
| Validation.UnknownAppend | docker/presidio/generate-configs.py:34-43 | the unknown codes of a concatenated request are those of each part in order: they are reported in request order |
| Validation.UnknownMultiplicity | docker/presidio/generate-configs.py:34-43 | an absent code is reported as many times as it was requested, a registered code never |
| Validation.KnownUnknownPartition | docker/presidio/generate-configs.py:30-38 | the valid and invalid lists together are a permutation of the request: nothing lost, nothing added |
| Validation.ValidateLanguages | docker/presidio/generate-configs.py:28-45 | the single-pass loop that appends each code to the valid or the invalid list computes exactly the all-or-nothing validation |
| Nlp.EntityMappingWellFormed | docker/presidio/generate-configs.py:59-79 | the fixed label mapping lists no label twice and maps every label to PERSON, LOCATION or ORGANIZATION |
| Nlp.Models | docker/presidio/generate-configs.py:50-53 | one model entry per requested language; entry i names language i and its registry model |
| Nlp.GenerateNlpConfig | docker/presidio/generate-configs.py:48-96 | engine "spacy"; models one per language in request order with the registry's model name; low-score entities `["ORG"]` with multiplier 0.4 |
| Analyzer.GenerateAnalyzerConfig | docker/presidio/generate-configs.py:99-101 | the analyzer supports exactly the requested languages in request order, with default score threshold 0 |
| Recognizers.PlainEntries | docker/presidio/generate-configs.py:107 | one entry per language in request order, naming the language and carrying no context key |
| Recognizers.PhoneEntries | docker/presidio/generate-configs.py:110-116 | one entry per language in request order; entry i names language i and its context is exactly the registry's optional phone context |
| Recognizers.GenerateRecognizersConfig | docker/presidio/generate-configs.py:104-153 | supported languages are the request, flags are 26, and there are exactly six predefined recognizers named Spacy, Email, Phone, CreditCard, Iban, Ip in that order; the phone one carries the phone entries, the other five the same plain entries |
| Recognizers.PhoneContextPresentIff | docker/presidio/generate-configs.py:110-116 | a phone entry has a context key if and only if the registry entry has phone context, and then it equals it exactly; no other recognizer's entry has one |
| InstallScript.Blocks | docker/presidio/generate-configs.py:161-167 | three lines per language in request order: block i is lines 3i to 3i+2 and is language i's block |
| InstallScript.ScriptLayout | docker/presidio/generate-configs.py:156-170 | for n languages there are 3 + 3n + 1 lines: shebang, `set -e`, blank; per language an echo naming model and code, a `poetry run pip install --no-cache-dir` of `.../download/{model}-{version}/{model}-{version}-py3-none-any.whl`, a blank; then the completion echo |
| InstallScript.GenerateInstallScript | docker/presidio/generate-configs.py:156-170 | the script text is its lines joined with line feeds: when no code, model or version contains a line feed, splitting it on line feeds gives back exactly the lines `InstallScript.ScriptLayout` describes |
| ConfigProjector.Generate | docker/presidio/generate-configs.py:218-232 | the analyzer and recognizer configurations support exactly the validated languages, and the NLP configuration has one model per language |
| ConfigProjector.Run | docker/presidio/generate-configs.py:197-232 | a run yields artifacts exactly when the argument names at least one code and every named code is registered, and then they are the projections of exactly the parsed codes |
| ConfigProjector.RunOutcome | docker/presidio/generate-configs.py:197-211 | a blank argument gives the "no languages" error, even with an empty registry; otherwise an unregistered code gives the error listing the absent codes in request order with the registry's codes |
| ConfigProjector.GeneratePreservesOrder | docker/presidio/generate-configs.py:218-232 | the analyzer config is the request with threshold 0; every recognizer's entries, the NLP models and the install script's echo lines follow the request order |
| ConfigProjector.RunOnJoinedCodes | docker/presidio/generate-configs.py:197-211 | running on registered codes joined by commas produces exactly the artifacts projected from those codes |
| Scenarios.ExampleEnDe | docker/presidio/generate-configs.py:99-116 | with English and German registered, `en,de` succeeds: analyzer languages `[en, de]`, threshold 0, and the phone entries give `de` its context words and `en` no context key |
| Scenarios.ExampleEnXx | docker/presidio/generate-configs.py:28-45 | with English and German registered, `en,xx` fails naming `xx` as the only unknown code and `{en, de}` as available |

## Left out

- Loading the registry (`load_registry`, `yaml.safe_load`, lines 22-25) and the check that the registry file exists (lines 203-206): file I/O and a foreign parser; the registry is an input value, so the missing-registry exit (lines 203-206) and parse errors are not modelled.
- Writing the documents (`write_yaml`, `yaml.dump`, lines 173-176) and the script (lines 232-236, including `chmod 0o755`), creating the output directory, and every progress or error message: I/O. In particular, how the serializer renders the one list object that five recognizers share is not modelled.
- Argument handling by `argparse`, the `--registry` and `--output` defaults: the model starts from the `--languages` string.
- The sorted "Available:" diagnostic (line 42) is printed text; the error carries the available codes as a set.
- LangEntry: the registry's `phone_context` key present with a null value (emitted as a null `context`) cannot be told apart from an absent key; the model treats it as absent.
- LangEntry: a registry entry without `model` makes the generator raise; the model makes the field mandatory.
- Registry: a registry without `spacy_version` makes the program write `nlp-config.yaml`, `analyzer-config.yaml` and `recognizers-config.yaml` (lines 218-228) and only then raise in `generate_install_script` (line 158), leaving partial output; the model makes the field mandatory, so its all-or-nothing outcome holds only for registries that have it.
- Registry: keys that the YAML loader turns into non-strings (booleans, numbers) are out of scope; codes are strings on both sides.
- Nlp.GenerateNlpConfig: the multiplier 0.4 is carried as the exact decimal `Decimal(4, -1)`, not as a binary floating-point value.
- Text.IsSpace: fixed to the whitespace set of the current Unicode database used by Python's `str.isspace`; changes in later Unicode versions are not followed.
