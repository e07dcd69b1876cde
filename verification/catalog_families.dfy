/**
 The families of the codon-change catalog and the facts checked about each.

 Each family lists, in the order of `synonymous_1nt_pairs`, the changes whose
 first codon encodes one amino acid; an entry "XXX->YYY" of the source list is
 the pair (XXX, YYY) here. The lemmas at the end are checked by evaluation,
 one family and one fact at a time.
 */
module CatalogFamilies {
  import opened Codons

  /** A change from the first codon to the second. */
  type Change = (Codon, Codon)

  /** The changes whose first codon encodes amino acid `aa`, in catalog order. */
  datatype Family = Family(aa: char, changes: seq<Change>)

  // Names for the codons the catalog mentions.
  const TTT: Codon := Codon(T, T, T)
  const TTC: Codon := Codon(T, T, C)
  const TTA: Codon := Codon(T, T, A)
  const TTG: Codon := Codon(T, T, G)
  const TCT: Codon := Codon(T, C, T)
  const TCC: Codon := Codon(T, C, C)
  const TCA: Codon := Codon(T, C, A)
  const TCG: Codon := Codon(T, C, G)
  const TAT: Codon := Codon(T, A, T)
  const TAC: Codon := Codon(T, A, C)
  const TGT: Codon := Codon(T, G, T)
  const TGC: Codon := Codon(T, G, C)
  const CTT: Codon := Codon(C, T, T)
  const CTC: Codon := Codon(C, T, C)
  const CTA: Codon := Codon(C, T, A)
  const CTG: Codon := Codon(C, T, G)
  const CCT: Codon := Codon(C, C, T)
  const CCC: Codon := Codon(C, C, C)
  const CCA: Codon := Codon(C, C, A)
  const CCG: Codon := Codon(C, C, G)
  const CAT: Codon := Codon(C, A, T)
  const CAC: Codon := Codon(C, A, C)
  const CAA: Codon := Codon(C, A, A)
  const CAG: Codon := Codon(C, A, G)
  const CGT: Codon := Codon(C, G, T)
  const CGC: Codon := Codon(C, G, C)
  const CGA: Codon := Codon(C, G, A)
  const CGG: Codon := Codon(C, G, G)
  const ATT: Codon := Codon(A, T, T)
  const ATC: Codon := Codon(A, T, C)
  const ATA: Codon := Codon(A, T, A)
  const ACT: Codon := Codon(A, C, T)
  const ACC: Codon := Codon(A, C, C)
  const ACA: Codon := Codon(A, C, A)
  const ACG: Codon := Codon(A, C, G)
  const AAT: Codon := Codon(A, A, T)
  const AAC: Codon := Codon(A, A, C)
  const AAA: Codon := Codon(A, A, A)
  const AAG: Codon := Codon(A, A, G)
  const AGT: Codon := Codon(A, G, T)
  const AGC: Codon := Codon(A, G, C)
  const AGA: Codon := Codon(A, G, A)
  const AGG: Codon := Codon(A, G, G)
  const GTT: Codon := Codon(G, T, T)
  const GTC: Codon := Codon(G, T, C)
  const GTA: Codon := Codon(G, T, A)
  const GTG: Codon := Codon(G, T, G)
  const GCT: Codon := Codon(G, C, T)
  const GCC: Codon := Codon(G, C, C)
  const GCA: Codon := Codon(G, C, A)
  const GCG: Codon := Codon(G, C, G)
  const GAT: Codon := Codon(G, A, T)
  const GAC: Codon := Codon(G, A, C)
  const GAA: Codon := Codon(G, A, A)
  const GAG: Codon := Codon(G, A, G)
  const GGT: Codon := Codon(G, G, T)
  const GGC: Codon := Codon(G, G, C)
  const GGA: Codon := Codon(G, G, A)
  const GGG: Codon := Codon(G, G, G)

  const PheChanges: seq<Change> := [
    (TTT, TTC), (TTC, TTT)
  ]

  const LeuChanges: seq<Change> := [
    (CTT, CTC), (CTC, CTT), (CTT, CTA), (CTA, CTT),
    (CTT, CTG), (CTG, CTT), (CTA, CTC), (CTC, CTA),
    (CTA, CTG), (CTG, CTA), (CTC, CTG), (CTG, CTC),
    (CTG, TTG), (TTG, CTG), (CTA, TTA), (TTA, CTA),
    (TTA, TTG), (TTG, TTA)
  ]

  const IleChanges: seq<Change> := [
    (ATT, ATC), (ATC, ATT), (ATT, ATA), (ATA, ATT),
    (ATA, ATC), (ATC, ATA)
  ]

  const ValChanges: seq<Change> := [
    (GTT, GTC), (GTC, GTT), (GTT, GTA), (GTA, GTT),
    (GTT, GTG), (GTG, GTT), (GTC, GTA), (GTA, GTC),
    (GTC, GTG), (GTG, GTC), (GTA, GTG), (GTG, GTA)
  ]

  const SerChanges: seq<Change> := [
    (TCT, TCC), (TCC, TCT), (TCT, TCA), (TCA, TCT),
    (TCT, TCG), (TCG, TCT), (TCC, TCA), (TCA, TCC),
    (TCC, TCG), (TCG, TCC), (TCA, TCG), (TCG, TCA),
    (AGT, AGC), (AGC, AGT)
  ]

  const ProChanges: seq<Change> := [
    (CCT, CCC), (CCC, CCT), (CCT, CCA), (CCA, CCT),
    (CCT, CCG), (CCG, CCT), (CCC, CCA), (CCA, CCC),
    (CCC, CCG), (CCG, CCC), (CCA, CCG), (CCG, CCA)
  ]

  const ThrChanges: seq<Change> := [
    (ACT, ACC), (ACC, ACT), (ACT, ACA), (ACA, ACT),
    (ACT, ACG), (ACG, ACT), (ACC, ACA), (ACA, ACC),
    (ACC, ACG), (ACG, ACC), (ACA, ACG), (ACG, ACA)
  ]

  const AlaChanges: seq<Change> := [
    (GCT, GCC), (GCC, GCT), (GCT, GCA), (GCA, GCT),
    (GCT, GCG), (GCG, GCT), (GCC, GCA), (GCA, GCC),
    (GCC, GCG), (GCG, GCC), (GCA, GCG), (GCG, GCA)
  ]

  const TyrChanges: seq<Change> := [
    (TAT, TAC), (TAC, TAT)
  ]

  const HisChanges: seq<Change> := [
    (CAT, CAC), (CAC, CAT)
  ]

  const GlnChanges: seq<Change> := [
    (CAA, CAG), (CAG, CAA)
  ]

  const AsnChanges: seq<Change> := [
    (AAT, AAC), (AAC, AAT)
  ]

  const LysChanges: seq<Change> := [
    (AAA, AAG), (AAG, AAA)
  ]

  const AspChanges: seq<Change> := [
    (GAT, GAC), (GAC, GAT)
  ]

  const GluChanges: seq<Change> := [
    (GAA, GAG), (GAG, GAA)
  ]

  const CysChanges: seq<Change> := [
    (TGT, TGC), (TGC, TGT)
  ]

  const ArgChanges: seq<Change> := [
    (CGT, CGC), (CGC, CGT), (CGT, CGA), (CGA, CGT),
    (CGT, CGG), (CGG, CGT), (CGC, CGA), (CGA, CGC),
    (CGC, CGG), (CGG, CGC), (CGA, CGG), (CGG, CGA),
    (CGA, AGA), (AGA, CGA), (AGA, AGG), (AGG, AGA),
    (CGG, AGG), (AGG, CGG)
  ]

  const GlyChanges: seq<Change> := [
    (GGT, GGC), (GGC, GGT), (GGT, GGA), (GGA, GGT),
    (GGT, GGG), (GGG, GGT), (GGC, GGA), (GGA, GGC),
    (GGC, GGG), (GGG, GGC), (GGA, GGG), (GGG, GGA)
  ]

  const Families: seq<Family> := [
    Family('F', PheChanges),
    Family('L', LeuChanges),
    Family('I', IleChanges),
    Family('V', ValChanges),
    Family('S', SerChanges),
    Family('P', ProChanges),
    Family('T', ThrChanges),
    Family('A', AlaChanges),
    Family('Y', TyrChanges),
    Family('H', HisChanges),
    Family('Q', GlnChanges),
    Family('N', AsnChanges),
    Family('K', LysChanges),
    Family('D', AspChanges),
    Family('E', GluChanges),
    Family('C', CysChanges),
    Family('R', ArgChanges),
    Family('G', GlyChanges)
  ]

  predicate Distinct<X(==)>(xs: seq<X>) {
    forall i, j | 0 <= i < j < |xs| :: xs[i] != xs[j]
  }

  /** No two entries with indices in [lo, hi) are equal. */
  predicate DistinctIn<X(==)>(xs: seq<X>, lo: nat, hi: nat)
    requires lo <= hi <= |xs|
  {
    forall i, j | lo <= i < j < hi :: xs[i] != xs[j]
  }

  /** No entry before `mid` equals one from `mid` on. */
  predicate Apart<X(==)>(xs: seq<X>, mid: nat)
    requires mid <= |xs|
  {
    forall i, j | 0 <= i < mid <= j < |xs| :: xs[i] != xs[j]
  }

  /** A list is duplicate-free when both halves are and they share nothing; this splits the check of a long fixed list. */
  lemma DistinctSplit<X>(xs: seq<X>, mid: nat)
    requires mid <= |xs|
    requires DistinctIn(xs, 0, mid) && DistinctIn(xs, mid, |xs|) && Apart(xs, mid)
    ensures Distinct(xs)
  {
    forall i, j | 0 <= i < j < |xs| ensures xs[i] != xs[j] {
      if j < mid {
        assert DistinctIn(xs, 0, mid);
      } else if mid <= i {
        assert DistinctIn(xs, mid, |xs|);
      }
    }
  }

  /** Entries come in adjacent pairs, the second the reverse of the first. */
  predicate PairedReversals(xs: seq<Change>) {
    && |xs| % 2 == 0
    && forall k | 0 <= k < |xs| / 2 :: xs[2 * k + 1] == (xs[2 * k].1, xs[2 * k].0)
  }

  /** Every entry is a synonymous one-nucleotide change away from a codon of `f.aa`. */
  predicate FamilyEntries(f: Family) {
    forall i | 0 <= i < |f.changes| ::
      IsSynonymousOneNt(f.changes[i].0, f.changes[i].1) && AminoAcid(f.changes[i].0) == f.aa
  }

  /** Every one-nucleotide change between two codons of `f.aa` is listed in `f`. */
  predicate FamilyComplete(f: Family) {
    var cs := CodonsOf(f.aa);
    forall i, j | 0 <= i < |cs| && 0 <= j < |cs| && Differences(cs[i], cs[j]) == 1 ::
      (cs[i], cs[j]) in f.changes
  }

  predicate FamilyOk(f: Family) {
    && FamilyEntries(f)
    && PairedReversals(f.changes)
    && Distinct(f.changes)
    && FamilyComplete(f)
  }

  // The four facts of each family are separate lemmas so that each is its
  // own small proof obligation over one fixed list: stated together in one
  // lemma, or quantified over `Families`, they exceed the solver's budget.
  // `AllFamiliesOk` collects them.

  lemma PheEntries() ensures FamilyEntries(Family('F', PheChanges)) {}
  lemma PhePaired() ensures PairedReversals(PheChanges) {}
  lemma PheDistinct() ensures Distinct(PheChanges) {}
  lemma PheComplete() ensures FamilyComplete(Family('F', PheChanges)) {}

  lemma LeuEntries() ensures FamilyEntries(Family('L', LeuChanges)) {}
  lemma LeuPaired() ensures PairedReversals(LeuChanges) {}
  lemma LeuDistinct() ensures Distinct(LeuChanges) {
    LeuLow(); LeuHigh(); LeuApart();
    DistinctSplit(LeuChanges, |LeuChanges| / 2);
  }
  lemma LeuLow() ensures |LeuChanges| >= 2 && DistinctIn(LeuChanges, 0, |LeuChanges| / 2) {}
  lemma LeuHigh() ensures |LeuChanges| >= 2 && DistinctIn(LeuChanges, |LeuChanges| / 2, |LeuChanges|) {}
  lemma LeuApart() ensures |LeuChanges| >= 2 && Apart(LeuChanges, |LeuChanges| / 2) {}
  lemma LeuComplete() ensures FamilyComplete(Family('L', LeuChanges)) {}

  lemma IleEntries() ensures FamilyEntries(Family('I', IleChanges)) {}
  lemma IlePaired() ensures PairedReversals(IleChanges) {}
  lemma IleDistinct() ensures Distinct(IleChanges) {}
  lemma IleComplete() ensures FamilyComplete(Family('I', IleChanges)) {}

  lemma ValEntries() ensures FamilyEntries(Family('V', ValChanges)) {}
  lemma ValPaired() ensures PairedReversals(ValChanges) {}
  lemma ValDistinct() ensures Distinct(ValChanges) {}
  lemma ValComplete() ensures FamilyComplete(Family('V', ValChanges)) {}

  lemma SerEntries() ensures FamilyEntries(Family('S', SerChanges)) {}
  lemma SerPaired() ensures PairedReversals(SerChanges) {}
  lemma SerDistinct() ensures Distinct(SerChanges) {
    SerLow(); SerHigh(); SerApart();
    DistinctSplit(SerChanges, |SerChanges| / 2);
  }
  lemma SerLow() ensures |SerChanges| >= 2 && DistinctIn(SerChanges, 0, |SerChanges| / 2) {}
  lemma SerHigh() ensures |SerChanges| >= 2 && DistinctIn(SerChanges, |SerChanges| / 2, |SerChanges|) {}
  lemma SerApart() ensures |SerChanges| >= 2 && Apart(SerChanges, |SerChanges| / 2) {}
  lemma SerComplete() ensures FamilyComplete(Family('S', SerChanges)) {}

  lemma ProEntries() ensures FamilyEntries(Family('P', ProChanges)) {}
  lemma ProPaired() ensures PairedReversals(ProChanges) {}
  lemma ProDistinct() ensures Distinct(ProChanges) {}
  lemma ProComplete() ensures FamilyComplete(Family('P', ProChanges)) {}

  lemma ThrEntries() ensures FamilyEntries(Family('T', ThrChanges)) {}
  lemma ThrPaired() ensures PairedReversals(ThrChanges) {}
  lemma ThrDistinct() ensures Distinct(ThrChanges) {}
  lemma ThrComplete() ensures FamilyComplete(Family('T', ThrChanges)) {}

  lemma AlaEntries() ensures FamilyEntries(Family('A', AlaChanges)) {}
  lemma AlaPaired() ensures PairedReversals(AlaChanges) {}
  lemma AlaDistinct() ensures Distinct(AlaChanges) {}
  lemma AlaComplete() ensures FamilyComplete(Family('A', AlaChanges)) {}

  lemma TyrEntries() ensures FamilyEntries(Family('Y', TyrChanges)) {}
  lemma TyrPaired() ensures PairedReversals(TyrChanges) {}
  lemma TyrDistinct() ensures Distinct(TyrChanges) {}
  lemma TyrComplete() ensures FamilyComplete(Family('Y', TyrChanges)) {}

  lemma HisEntries() ensures FamilyEntries(Family('H', HisChanges)) {}
  lemma HisPaired() ensures PairedReversals(HisChanges) {}
  lemma HisDistinct() ensures Distinct(HisChanges) {}
  lemma HisComplete() ensures FamilyComplete(Family('H', HisChanges)) {}

  lemma GlnEntries() ensures FamilyEntries(Family('Q', GlnChanges)) {}
  lemma GlnPaired() ensures PairedReversals(GlnChanges) {}
  lemma GlnDistinct() ensures Distinct(GlnChanges) {}
  lemma GlnComplete() ensures FamilyComplete(Family('Q', GlnChanges)) {}

  lemma AsnEntries() ensures FamilyEntries(Family('N', AsnChanges)) {}
  lemma AsnPaired() ensures PairedReversals(AsnChanges) {}
  lemma AsnDistinct() ensures Distinct(AsnChanges) {}
  lemma AsnComplete() ensures FamilyComplete(Family('N', AsnChanges)) {}

  lemma LysEntries() ensures FamilyEntries(Family('K', LysChanges)) {}
  lemma LysPaired() ensures PairedReversals(LysChanges) {}
  lemma LysDistinct() ensures Distinct(LysChanges) {}
  lemma LysComplete() ensures FamilyComplete(Family('K', LysChanges)) {}

  lemma AspEntries() ensures FamilyEntries(Family('D', AspChanges)) {}
  lemma AspPaired() ensures PairedReversals(AspChanges) {}
  lemma AspDistinct() ensures Distinct(AspChanges) {}
  lemma AspComplete() ensures FamilyComplete(Family('D', AspChanges)) {}

  lemma GluEntries() ensures FamilyEntries(Family('E', GluChanges)) {}
  lemma GluPaired() ensures PairedReversals(GluChanges) {}
  lemma GluDistinct() ensures Distinct(GluChanges) {}
  lemma GluComplete() ensures FamilyComplete(Family('E', GluChanges)) {}

  lemma CysEntries() ensures FamilyEntries(Family('C', CysChanges)) {}
  lemma CysPaired() ensures PairedReversals(CysChanges) {}
  lemma CysDistinct() ensures Distinct(CysChanges) {}
  lemma CysComplete() ensures FamilyComplete(Family('C', CysChanges)) {}

  lemma ArgEntries() ensures FamilyEntries(Family('R', ArgChanges)) {}
  lemma ArgPaired() ensures PairedReversals(ArgChanges) {}
  lemma ArgDistinct() ensures Distinct(ArgChanges) {
    ArgLow(); ArgHigh(); ArgApart();
    DistinctSplit(ArgChanges, |ArgChanges| / 2);
  }
  lemma ArgLow() ensures |ArgChanges| >= 2 && DistinctIn(ArgChanges, 0, |ArgChanges| / 2) {}
  lemma ArgHigh() ensures |ArgChanges| >= 2 && DistinctIn(ArgChanges, |ArgChanges| / 2, |ArgChanges|) {}
  lemma ArgApart() ensures |ArgChanges| >= 2 && Apart(ArgChanges, |ArgChanges| / 2) {}
  lemma ArgComplete() ensures FamilyComplete(Family('R', ArgChanges)) {}

  lemma GlyEntries() ensures FamilyEntries(Family('G', GlyChanges)) {}
  lemma GlyPaired() ensures PairedReversals(GlyChanges) {}
  lemma GlyDistinct() ensures Distinct(GlyChanges) {}
  lemma GlyComplete() ensures FamilyComplete(Family('G', GlyChanges)) {}

  /** The facts above, for every family, and the families name distinct amino acids. */
  lemma AllFamiliesOk()
    ensures forall i | 0 <= i < |Families| :: FamilyOk(Families[i])
    ensures forall i, j | 0 <= i < j < |Families| :: Families[i].aa != Families[j].aa
  {
    PheEntries(); PhePaired(); PheDistinct(); PheComplete();
    LeuEntries(); LeuPaired(); LeuDistinct(); LeuComplete();
    IleEntries(); IlePaired(); IleDistinct(); IleComplete();
    ValEntries(); ValPaired(); ValDistinct(); ValComplete();
    SerEntries(); SerPaired(); SerDistinct(); SerComplete();
    ProEntries(); ProPaired(); ProDistinct(); ProComplete();
    ThrEntries(); ThrPaired(); ThrDistinct(); ThrComplete();
    AlaEntries(); AlaPaired(); AlaDistinct(); AlaComplete();
    TyrEntries(); TyrPaired(); TyrDistinct(); TyrComplete();
    HisEntries(); HisPaired(); HisDistinct(); HisComplete();
    GlnEntries(); GlnPaired(); GlnDistinct(); GlnComplete();
    AsnEntries(); AsnPaired(); AsnDistinct(); AsnComplete();
    LysEntries(); LysPaired(); LysDistinct(); LysComplete();
    AspEntries(); AspPaired(); AspDistinct(); AspComplete();
    GluEntries(); GluPaired(); GluDistinct(); GluComplete();
    CysEntries(); CysPaired(); CysDistinct(); CysComplete();
    ArgEntries(); ArgPaired(); ArgDistinct(); ArgComplete();
    GlyEntries(); GlyPaired(); GlyDistinct(); GlyComplete();
  }
}
