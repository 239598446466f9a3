/** Parsing of the `--languages` argument: a comma-separated list of language codes. */
module LanguageList {
  import opened Wrappers
  import opened Seqs
  import opened Text
  import opened GeneratorErrors

  predicate NonEmpty(s: string)
  {
    s != ""
  }

  /** Each piece stripped, in order. */
  function TrimAll(pieces: seq<string>): (r: seq<string>)
    ensures |r| == |pieces|
  {
    if |pieces| == 0 then [] else [Trim(pieces[0])] + TrimAll(pieces[1..])
  }

  lemma {:induction false} TrimAllPointwise(pieces: seq<string>)
    ensures forall i :: 0 <= i < |pieces| ==> TrimAll(pieces)[i] == Trim(pieces[i])
  {
    if |pieces| > 0 {
      TrimAllPointwise(pieces[1..]);
    }
  }

  /** The codes named by `arg`: its comma-separated pieces, trimmed, with those that are
      empty after trimming dropped. Each code is non-empty, trimmed and comma-free. */
  function Codes(arg: string): (r: seq<string>)
    ensures forall i :: 0 <= i < |r| ==> r[i] != "" && IsTrimmed(r[i]) && ',' !in r[i]
    ensures r == [] <==> Blank(arg)
  {
    var pieces := SplitOn(arg, ',');
    KeptPieces(pieces);
    Filter(NonEmpty, TrimAll(pieces))
  }

  /** Stripping comma-free pieces and dropping the empty ones leaves non-empty, stripped,
      comma-free codes, and nothing at all exactly when every piece is blank. */
  lemma {:induction false} KeptPieces(pieces: seq<string>)
    requires forall i :: 0 <= i < |pieces| ==> ',' !in pieces[i]
    ensures var r := Filter(NonEmpty, TrimAll(pieces));
            && (forall i :: 0 <= i < |r| ==> r[i] != "" && IsTrimmed(r[i]) && ',' !in r[i])
            && (r == [] <==> forall i :: 0 <= i < |pieces| ==> AllSpace(pieces[i]))
  {
    TrimAllFacts(pieces);
    KeptCodesShape(TrimAll(pieces));
    KeptCodesEmpty(pieces);
  }

  lemma KeptCodesShape(trimmed: seq<string>)
    requires forall i :: 0 <= i < |trimmed| ==> IsTrimmed(trimmed[i]) && ',' !in trimmed[i]
    ensures var r := Filter(NonEmpty, trimmed);
            forall i :: 0 <= i < |r| ==> r[i] != "" && IsTrimmed(r[i]) && ',' !in r[i]
  {
    var r := Filter(NonEmpty, trimmed);
    forall i | 0 <= i < |r|
      ensures r[i] != "" && IsTrimmed(r[i]) && ',' !in r[i]
    {
      assert NonEmpty(r[i]);
      var j :| 0 <= j < |trimmed| && trimmed[j] == r[i];
    }
  }

  lemma KeptCodesEmpty(pieces: seq<string>)
    requires forall i :: 0 <= i < |pieces| ==> (TrimAll(pieces)[i] == "" <==> AllSpace(pieces[i]))
    ensures Filter(NonEmpty, TrimAll(pieces)) == [] <==> forall i :: 0 <= i < |pieces| ==> AllSpace(pieces[i])
  {
    var trimmed := TrimAll(pieces);
    TrimAllPointwise(pieces);
    if forall i :: 0 <= i < |pieces| ==> AllSpace(pieces[i]) {
      FilterKeepsNone(NonEmpty, trimmed);
    } else {
      var i :| 0 <= i < |pieces| && !AllSpace(pieces[i]);
      assert NonEmpty(trimmed[i]);
      assert trimmed[i] in Filter(NonEmpty, trimmed);
    }
  }

  /** Every comma-separated piece of `arg` is whitespace only (the empty string included). */
  predicate Blank(arg: string)
  {
    var pieces := SplitOn(arg, ',');
    forall i :: 0 <= i < |pieces| ==> AllSpace(pieces[i])
  }

  /** Trimming comma-free pieces gives trimmed comma-free codes, empty exactly for the
      pieces that are all whitespace. */
  lemma TrimAllFacts(pieces: seq<string>)
    requires forall i :: 0 <= i < |pieces| ==> ',' !in pieces[i]
    ensures forall i :: 0 <= i < |pieces| ==>
              && ',' !in TrimAll(pieces)[i]
              && IsTrimmed(TrimAll(pieces)[i])
              && (TrimAll(pieces)[i] == "" <==> AllSpace(pieces[i]))
  {
    TrimAllPointwise(pieces);
    forall i | 0 <= i < |pieces|
      ensures ',' !in TrimAll(pieces)[i]
      ensures TrimAll(pieces)[i] == "" <==> AllSpace(pieces[i])
    {
      TrimKeepsOut(pieces[i], ',');
      TrimEmptyIffAllSpace(pieces[i]);
    }
  }

  /** The parsed `--languages` list; a list with no usable code is an error. */
  function Parse(arg: string): (r: Result<seq<string>, Error>)
    ensures r.Failure? <==> Blank(arg)
    ensures r.Failure? ==> r.error == NoLanguages
    ensures r.Success? ==> r.value == Codes(arg)
    ensures r.Success? ==> |r.value| >= 1
    ensures r.Success? ==> forall i :: 0 <= i < |r.value| ==>
              r.value[i] != "" && IsTrimmed(r.value[i]) && ',' !in r.value[i]
  {
    var codes := Codes(arg);
    if codes == [] then Failure(NoLanguages) else Success(codes)
  }

  /** Order preservation: the codes of `a,b` are the codes of `a` followed by those of `b`. */
  lemma CodesAppend(a: string, b: string)
    ensures Codes(a + [','] + b) == Codes(a) + Codes(b)
  {
    var pa, pb := SplitOn(a, ','), SplitOn(b, ',');
    calc {
      Codes(a + [','] + b);
      Filter(NonEmpty, TrimAll(SplitOn(a + [','] + b, ',')));
      { SplitAppend(a, b, ','); }
      Filter(NonEmpty, TrimAll(pa + pb));
      { TrimAllAppend(pa, pb); }
      Filter(NonEmpty, TrimAll(pa) + TrimAll(pb));
      { FilterAppend(NonEmpty, TrimAll(pa), TrimAll(pb)); }
      Codes(a) + Codes(b);
    }
  }

  lemma {:induction false} TrimAllAppend(x: seq<string>, y: seq<string>)
    ensures TrimAll(x + y) == TrimAll(x) + TrimAll(y)
  {
    if |x| == 0 {
      assert x + y == y;
    } else {
      assert (x + y)[1..] == x[1..] + y;
      TrimAllAppend(x[1..], y);
    }
  }

  /** A comma-free piece yields its trimmed self, or nothing when it is all whitespace. */
  lemma CodesOfPiece(s: string)
    requires ',' !in s
    ensures Codes(s) == if AllSpace(s) then [] else [Trim(s)]
  {
    SplitNoSeparator(s, ',');
    TrimEmptyIffAllSpace(s);
  }

  /** Stripping pieces that are already stripped changes none of them. */
  lemma {:induction false} TrimAllTrimmed(pieces: seq<string>)
    requires forall i :: 0 <= i < |pieces| ==> IsTrimmed(pieces[i])
    ensures TrimAll(pieces) == pieces
  {
    if |pieces| > 0 {
      TrimTrimmed(pieces[0]);
      TrimAllTrimmed(pieces[1..]);
    }
  }

  /** Round trip: joining valid codes with commas and parsing the result gives them back. */
  lemma ParseJoin(codes: seq<string>)
    requires |codes| >= 1
    requires forall i :: 0 <= i < |codes| ==> codes[i] != "" && IsTrimmed(codes[i]) && ',' !in codes[i]
    ensures Parse(Join(codes, ',')) == Success(codes)
  {
    SplitJoin(codes, ',');
    TrimAllTrimmed(codes);
    FilterKeepsAll(NonEmpty, codes);
  }
}
