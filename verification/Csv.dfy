/** The comma-separated lists of util.go: splitCSV as a normaliser, and the
    join-then-split path that a configuration file's DNS list takes. */
module Csv {
  import opened Text

  // A list entry that survives normalisation unchanged.
  predicate Clean(p: string) { p != "" && Trimmed(p) && ',' !in p }

  predicate AllClean(l: seq<string>) { forall p :: p in l ==> Clean(p) }

  function KeepOne(part: string): seq<string> {
    var p := TrimSpace(part);
    if p == "" then [] else [p]
  }

  // The non-blank parts, trimmed, in order.
  function Keep(parts: seq<string>): seq<string> {
    if parts == [] then [] else KeepOne(parts[0]) + Keep(parts[1..])
  }

  function Normal(s: string): seq<string> { Keep(Split(s, ',')) }

  lemma KeepCons(a: seq<string>, b: seq<string>)
    requires a != []
    ensures Keep(a + b) == KeepOne(a[0]) + Keep(a[1..] + b)
  {
    assert (a + b)[1..] == a[1..] + b;
  }

  lemma {:induction false} KeepConcat(a: seq<string>, b: seq<string>)
    ensures Keep(a + b) == Keep(a) + Keep(b)
  {
    if a == [] {
      assert a + b == b;
    } else {
      KeepConcat(a[1..], b);
      KeepCons(a, b);
      Associative(KeepOne(a[0]), Keep(a[1..]), Keep(b));
    }
  }

  lemma Associative(x: seq<string>, y: seq<string>, z: seq<string>)
    ensures x + (y + z) == x + y + z
  {
  }

  method SplitCsv(s: string) returns (out: seq<string>)
    ensures out == Normal(s)
  {
    hide TrimSpace, Trimmed, Split;
    if TrimSpace(s) == "" {
      BlankCsv(s);
      return [];
    }
    var parts := Split(s, ',');
    out := [];
    for i := 0 to |parts|
      invariant out == Keep(parts[..i])
    {
      var p := TrimSpace(parts[i]);
      assert parts[..i + 1] == parts[..i] + [parts[i]];
      KeepConcat(parts[..i], [parts[i]]);
      assert Keep([parts[i]]) == KeepOne(parts[i]) + Keep([parts[i]][1..]);
      if p != "" {
        out := out + [p];
      }
    }
    assert parts[..|parts|] == parts;
  }

  lemma {:induction false} KeepIsClean(parts: seq<string>)
    requires forall p :: p in parts ==> ',' !in p
    ensures AllClean(Keep(parts))
  {
    if parts != [] {
      TrimSpaceTrims(parts[0]);
      KeepIsClean(parts[1..]);
    }
  }

  lemma {:induction false} KeepFixesClean(l: seq<string>)
    requires AllClean(l)
    ensures Keep(l) == l
  {
    if l != [] {
      assert Clean(l[0]);
      TrimSpaceTrims(l[0]);
      KeepFixesClean(l[1..]);
      assert [l[0]] + l[1..] == l;
    }
  }

  lemma BlankCsv(s: string)
    requires TrimSpace(s) == ""
    ensures Normal(s) == []
  {
    TrimSpaceTrims(s);
    SplitAtom(s, ',');
    assert Keep([s][1..]) == [];
  }

  // Whatever the input, the entries come out trimmed, non-empty and comma-free.
  lemma OutputIsClean(s: string)
    ensures AllClean(Normal(s))
  {
    SplitPiecesFree(s, ',');
    KeepIsClean(Split(s, ','));
  }

  // Normalising each entry of a list separately, in list order.
  function Each(l: seq<string>): seq<string> {
    if l == [] then [] else Normal(l[0]) + Each(l[1..])
  }

  // Joining any list and splitting it again normalises it entry by entry: an entry
  // with commas becomes several, a blank one disappears, and order is kept.
  lemma {:induction false} JoinThenSplit(l: seq<string>)
    ensures Normal(Join(l, ',')) == Each(l)
  {
    if l == [] {
      BlankCsv("");
    } else if |l| == 1 {
      assert Each(l[1..]) == [];
    } else {
      JoinThenSplit(l[1..]);
      SplitConcat(l[0], Join(l[1..], ','), ',');
      KeepConcat(Split(l[0], ','), Split(Join(l[1..], ','), ','));
    }
  }

  // A list survives the join-then-split path exactly when every entry is clean.
  lemma SurvivesIffClean(l: seq<string>)
    ensures Normal(Join(l, ',')) == l <==> AllClean(l)
  {
    OutputIsClean(Join(l, ','));
    if AllClean(l) {
      if l == [] {
        BlankCsv("");
      } else {
        SplitJoin(l, ',');
        KeepFixesClean(l);
      }
    }
  }

  lemma NormalFormIsStable(s: string)
    ensures Normal(Join(Normal(s), ',')) == Normal(s)
  {
    OutputIsClean(s);
    SurvivesIffClean(Normal(s));
  }

  // White space around an entry does no harm: it is kept, without the space.
  lemma PaddedIsKept(a: string, p: string, b: string)
    requires Blank(a) && Blank(b) && Clean(p) && ',' !in a && ',' !in b
    ensures Normal(a + p + b) == [p]
  {
    var s := a + p + b;
    SplitAtom(s, ',');
    TrimPadding(a, p, b);
    assert Keep([s][1..]) == [];
  }

  function Padded(l: seq<string>, a: string, b: string): seq<string> {
    if l == [] then [] else [a + l[0] + b] + Padded(l[1..], a, b)
  }

  // So a list of clean entries that is written with space around its commas reads as it is
  // meant.
  lemma {:induction false} PaddedListReads(l: seq<string>, a: string, b: string)
    requires AllClean(l) && Blank(a) && Blank(b) && ',' !in a && ',' !in b
    ensures Normal(Join(Padded(l, a, b), ',')) == l
  {
    JoinThenSplit(Padded(l, a, b));
    EachPadded(l, a, b);
  }

  lemma {:induction false} EachPadded(l: seq<string>, a: string, b: string)
    requires AllClean(l) && Blank(a) && Blank(b) && ',' !in a && ',' !in b
    ensures Each(Padded(l, a, b)) == l
  {
    if l != [] {
      hide Normal;
      assert Clean(l[0]);
      PaddedIsKept(a, l[0], b);
      EachPadded(l[1..], a, b);
      assert Padded(l, a, b)[1..] == Padded(l[1..], a, b);
      assert [l[0]] + l[1..] == l;
    }
  }
}
