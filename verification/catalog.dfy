/**
 The codon-change catalog `synonymous_1nt_pairs` and its structural invariants.

 The repository writes the list out twice, element for element the same,
 once in PRF_Ratios_syn/codon_changes_dict.py and again in
 PRF_Ratios_syn/codon_analyses.py; it is defined once here, as the families
 of `CatalogFamilies` laid end to end. The lemmas show that it has 134
 distinct entries, that entries come in adjacent pairs of a change and its
 reverse, and that it holds exactly the ordered pairs of sense codons that
 differ at one nucleotide and encode the same amino acid under the genetic
 code kept beside it.
 */
module CodonCatalog {
  import opened Basics
  import opened Codons
  import opened CatalogFamilies

  /** The changes of families k, k + 1, ... laid end to end. */
  function FlattenFrom(fs: seq<Family>, k: nat): seq<Change>
    decreases |fs| - k
  {
    if k >= |fs| then [] else fs[k].changes + FlattenFrom(fs, k + 1)
  }

  /** The catalog as codon pairs, in the source's order. */
  const SynonymousOneNtChanges: seq<Change> := FlattenFrom(Families, 0)

  /** The labels of a sequence of changes, element by element. */
  function Labels(xs: seq<Change>): (r: seq<string>)
    ensures |r| == |xs|
    ensures forall i | 0 <= i < |xs| :: r[i] == ChangeString(xs[i].0, xs[i].1)
  {
    seq(|xs|, i requires 0 <= i < |xs| => ChangeString(xs[i].0, xs[i].1))
  }

  /** `synonymous_1nt_pairs`: the catalog labels, in the source's order. */
  const SynonymousOneNtPairs: seq<string> := Labels(SynonymousOneNtChanges)

  /** The amino acids of families k, k + 1, ... */
  function AminoAcidsFrom(fs: seq<Family>, k: nat): set<char> {
    set j | k <= j < |fs| :: fs[j].aa
  }

  /** The catalog has 134 entries. */
  lemma CatalogSize()
    ensures |SynonymousOneNtChanges| == 134
    ensures |SynonymousOneNtPairs| == 134
  {
    // Evaluated family by family, from the last one back to the first.
    assert |FlattenFrom(Families, 18)| == 0;
    assert |FlattenFrom(Families, 17)| == 12;
    assert |FlattenFrom(Families, 16)| == 30;
    assert |FlattenFrom(Families, 15)| == 32;
    assert |FlattenFrom(Families, 14)| == 34;
    assert |FlattenFrom(Families, 13)| == 36;
    assert |FlattenFrom(Families, 12)| == 38;
    assert |FlattenFrom(Families, 11)| == 40;
    assert |FlattenFrom(Families, 10)| == 42;
    assert |FlattenFrom(Families, 9)| == 44;
    assert |FlattenFrom(Families, 8)| == 46;
    assert |FlattenFrom(Families, 7)| == 58;
    assert |FlattenFrom(Families, 6)| == 70;
    assert |FlattenFrom(Families, 5)| == 82;
    assert |FlattenFrom(Families, 4)| == 96;
    assert |FlattenFrom(Families, 3)| == 108;
    assert |FlattenFrom(Families, 2)| == 114;
    assert |FlattenFrom(Families, 1)| == 132;
    assert |FlattenFrom(Families, 0)| == 134;
  }

  /** Laying families end to end keeps each entry's facts and amino acid. */
  lemma {:induction false} FlattenEntries(fs: seq<Family>, k: nat)
    requires forall j | k <= j < |fs| :: FamilyEntries(fs[j])
    ensures forall i | 0 <= i < |FlattenFrom(fs, k)| ::
      && IsSynonymousOneNt(FlattenFrom(fs, k)[i].0, FlattenFrom(fs, k)[i].1)
      && AminoAcid(FlattenFrom(fs, k)[i].0) in AminoAcidsFrom(fs, k)
    decreases |fs| - k
  {
    if k < |fs| {
      FlattenEntries(fs, k + 1);
      var head, tail, xs := fs[k].changes, FlattenFrom(fs, k + 1), FlattenFrom(fs, k);
      assert FamilyEntries(fs[k]);
      forall i | 0 <= i < |xs|
        ensures IsSynonymousOneNt(xs[i].0, xs[i].1) && AminoAcid(xs[i].0) in AminoAcidsFrom(fs, k)
      {
        if i < |head| {
          assert xs[i] == head[i];
        } else {
          assert xs[i] == tail[i - |head|];
        }
      }
    }
  }

  /** Families with distinct amino acids and no repeats give a list with no repeats. */
  lemma {:induction false} FlattenDistinct(fs: seq<Family>, k: nat)
    requires forall j | k <= j < |fs| :: FamilyEntries(fs[j]) && Distinct(fs[j].changes)
    requires forall j, j' | k <= j < j' < |fs| :: fs[j].aa != fs[j'].aa
    ensures Distinct(FlattenFrom(fs, k))
    decreases |fs| - k
  {
    if k < |fs| {
      FlattenDistinct(fs, k + 1);
      FlattenEntries(fs, k + 1);
      var head, tail, xs := fs[k].changes, FlattenFrom(fs, k + 1), FlattenFrom(fs, k);
      assert FamilyEntries(fs[k]) && Distinct(head);
      assert fs[k].aa !in AminoAcidsFrom(fs, k + 1);
      forall i, j | 0 <= i < j < |xs| ensures xs[i] != xs[j] {
        if j < |head| {
          assert xs[i] == head[i] && xs[j] == head[j];
        } else if |head| <= i {
          assert xs[i] == tail[i - |head|] && xs[j] == tail[j - |head|];
        } else {
          assert xs[i] == head[i] && xs[j] == tail[j - |head|];
          assert AminoAcid(xs[i].0) == fs[k].aa;
          assert AminoAcid(xs[j].0) in AminoAcidsFrom(fs, k + 1);
        }
      }
    }
  }

  lemma PairedConcat(a: seq<Change>, b: seq<Change>)
    requires PairedReversals(a) && PairedReversals(b)
    ensures PairedReversals(a + b)
  {
    var xs := a + b;
    var m := |a| / 2;
    forall k | 0 <= k < |xs| / 2 ensures xs[2 * k + 1] == (xs[2 * k].1, xs[2 * k].0) {
      if k < m {
        assert xs[2 * k] == a[2 * k] && xs[2 * k + 1] == a[2 * k + 1];
      } else {
        var k' := k - m;
        assert 2 * k - |a| == 2 * k' && 2 * k + 1 - |a| == 2 * k' + 1;
        assert xs[2 * k] == b[2 * k'] && xs[2 * k + 1] == b[2 * k' + 1];
      }
    }
  }

  lemma {:induction false} FlattenPaired(fs: seq<Family>, k: nat)
    requires forall j | k <= j < |fs| :: PairedReversals(fs[j].changes)
    ensures PairedReversals(FlattenFrom(fs, k))
    decreases |fs| - k
  {
    if k < |fs| {
      FlattenPaired(fs, k + 1);
      PairedConcat(fs[k].changes, FlattenFrom(fs, k + 1));
    }
  }

  lemma {:induction false} FlattenContains(fs: seq<Family>, k: nat, j: nat, x: Change)
    requires k <= j < |fs| && x in fs[j].changes
    ensures x in FlattenFrom(fs, k)
    decreases |fs| - k
  {
    if k < j {
      FlattenContains(fs, k + 1, j, x);
    }
  }

  /** The index of the family of amino acid `aa`, for every amino acid with two or more codons. */
  lemma FamilyOf(aa: char) returns (j: nat)
    requires |CodonsOf(aa)| >= 2 && aa != '*'
    ensures j < |Families| && Families[j].aa == aa
  {
    match aa
    case 'F' => j := 0;
    case 'L' => j := 1;
    case 'I' => j := 2;
    case 'V' => j := 3;
    case 'S' => j := 4;
    case 'P' => j := 5;
    case 'T' => j := 6;
    case 'A' => j := 7;
    case 'Y' => j := 8;
    case 'H' => j := 9;
    case 'Q' => j := 10;
    case 'N' => j := 11;
    case 'K' => j := 12;
    case 'D' => j := 13;
    case 'E' => j := 14;
    case 'C' => j := 15;
    case 'R' => j := 16;
    case 'G' => j := 17;
  }

  /** Every entry is a synonymous change of one nucleotide between two sense codons. */
  lemma CatalogEntriesSynonymous()
    ensures forall i | 0 <= i < |SynonymousOneNtChanges| ::
      IsSynonymousOneNt(SynonymousOneNtChanges[i].0, SynonymousOneNtChanges[i].1)
  {
    AllFamiliesOk();
    FlattenEntries(Families, 0);
  }

  /** Every synonymous change of one nucleotide between two sense codons is in the catalog. */
  lemma CatalogComplete(a: Codon, b: Codon)
    requires IsSynonymousOneNt(a, b)
    ensures (a, b) in SynonymousOneNtChanges
    ensures ChangeString(a, b) in SynonymousOneNtPairs
  {
    var aa := AminoAcid(a);
    CodonInOwnFamily(a);
    CodonInOwnFamily(b);
    var cs := CodonsOf(aa);
    var i :| 0 <= i < |cs| && cs[i] == a;
    var i' :| 0 <= i' < |cs| && cs[i'] == b;
    assert i != i';
    var j := FamilyOf(aa);
    AllFamiliesOk();
    assert FamilyComplete(Families[j]);
    FlattenContains(Families, 0, j, (a, b));
    var k :| 0 <= k < |SynonymousOneNtChanges| && SynonymousOneNtChanges[k] == (a, b);
    assert SynonymousOneNtPairs[k] == ChangeString(a, b);
  }

  /** A label is in the catalog exactly when it names a synonymous one-nucleotide change. */
  lemma CatalogMembership(a: Codon, b: Codon)
    ensures ChangeString(a, b) in SynonymousOneNtPairs <==> IsSynonymousOneNt(a, b)
    ensures (a, b) in SynonymousOneNtChanges <==> IsSynonymousOneNt(a, b)
  {
    CatalogEntriesSynonymous();
    if IsSynonymousOneNt(a, b) {
      CatalogComplete(a, b);
    }
    if ChangeString(a, b) in SynonymousOneNtPairs {
      var i :| 0 <= i < |SynonymousOneNtPairs| && SynonymousOneNtPairs[i] == ChangeString(a, b);
      ChangeStringInjective(a, b, SynonymousOneNtChanges[i].0, SynonymousOneNtChanges[i].1);
    }
  }

  /** Every entry has the form "XXX->YYY" over A, C, G, T, and reads back as its codon pair. */
  lemma CatalogLabelsWellFormed()
    ensures forall i | 0 <= i < |SynonymousOneNtPairs| ::
      ParseChange(SynonymousOneNtPairs[i]) == Some(SynonymousOneNtChanges[i])
  {
    forall i | 0 <= i < |SynonymousOneNtPairs|
      ensures ParseChange(SynonymousOneNtPairs[i]) == Some(SynonymousOneNtChanges[i])
    {
      ParseChangeString(SynonymousOneNtChanges[i].0, SynonymousOneNtChanges[i].1);
    }
  }

  /** No entry occurs twice. */
  lemma CatalogDistinct()
    ensures Distinct(SynonymousOneNtChanges)
    ensures Distinct(SynonymousOneNtPairs)
  {
    AllFamiliesOk();
    FlattenDistinct(Families, 0);
    var xs := SynonymousOneNtChanges;
    forall i, j | 0 <= i < j < |SynonymousOneNtPairs|
      ensures SynonymousOneNtPairs[i] != SynonymousOneNtPairs[j]
    {
      if SynonymousOneNtPairs[i] == SynonymousOneNtPairs[j] {
        ChangeStringInjective(xs[i].0, xs[i].1, xs[j].0, xs[j].1);
      }
    }
  }

  /** Entries 2k and 2k + 1 are a change and its reverse. */
  lemma CatalogPairedReversals()
    ensures PairedReversals(SynonymousOneNtChanges)
    ensures forall k | 0 <= k < |SynonymousOneNtPairs| / 2 ::
      var (a, b) := SynonymousOneNtChanges[2 * k];
      SynonymousOneNtPairs[2 * k] == ChangeString(a, b) && SynonymousOneNtPairs[2 * k + 1] == ChangeString(b, a)
  {
    AllFamiliesOk();
    FlattenPaired(Families, 0);
  }

  /** Reversal closure: whenever "A->B" is listed, so is "B->A". */
  lemma CatalogReversalClosed(a: Codon, b: Codon)
    requires ChangeString(a, b) in SynonymousOneNtPairs
    ensures ChangeString(b, a) in SynonymousOneNtPairs
  {
    CatalogMembership(a, b);
    CatalogMembership(b, a);
  }
}
