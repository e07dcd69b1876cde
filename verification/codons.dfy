/**
 Codons, the standard genetic code and the "XXX->YYY" codon-change labels.

 The repository keeps the genetic code only as a commented-out dictionary
 next to the codon-change catalog; the catalog was derived from it by
 keeping the ordered pairs of distinct, non-stop codons that encode the same
 amino acid and differ at exactly one nucleotide. This module states that
 derivation so that the catalog can be checked against it.
 */
module Codons {
  import opened Basics

  datatype Base = A | C | G | T

  datatype Codon = Codon(first: Base, second: Base, third: Base)

  function BaseChar(b: Base): char {
    match b
    case A => 'A'
    case C => 'C'
    case G => 'G'
    case T => 'T'
  }

  /** Reads one upper-case nucleotide letter; anything else is rejected. */
  function ParseBase(ch: char): (r: Option<Base>)
    ensures r.Some? <==> ch in {'A', 'C', 'G', 'T'}
    ensures r.Some? ==> BaseChar(r.value) == ch
  {
    match ch
    case 'A' => Some(A)
    case 'C' => Some(C)
    case 'G' => Some(G)
    case 'T' => Some(T)
    case _ => None
  }

  function CodonString(c: Codon): (s: string)
    ensures |s| == 3
  {
    [BaseChar(c.first), BaseChar(c.second), BaseChar(c.third)]
  }

  /** The label of the change from codon `a` to codon `b`, as the sources build it. */
  function ChangeString(a: Codon, b: Codon): (s: string)
    ensures |s| == 8 && s[3..5] == "->"
  {
    CodonString(a) + "->" + CodonString(b)
  }

  /** Reads a label of the form "XXX->YYY" over the letters A, C, G, T. */
  function ParseChange(s: string): (r: Option<(Codon, Codon)>)
    ensures r.Some? ==> |s| == 8 && s[3..5] == "->"
  {
    if |s| != 8 || s[3] != '-' || s[4] != '>' then None
    else
      match (ParseBase(s[0]), ParseBase(s[1]), ParseBase(s[2]),
             ParseBase(s[5]), ParseBase(s[6]), ParseBase(s[7]))
      case (Some(a1), Some(a2), Some(a3), Some(b1), Some(b2), Some(b3)) =>
        Some((Codon(a1, a2, a3), Codon(b1, b2, b3)))
      case _ => None
  }

  /** Printing a change and reading it back gives the same pair of codons. */
  lemma ParseChangeString(a: Codon, b: Codon)
    ensures ParseChange(ChangeString(a, b)) == Some((a, b))
  {
    var s := ChangeString(a, b);
    assert s[0] == BaseChar(a.first) && s[1] == BaseChar(a.second) && s[2] == BaseChar(a.third);
    assert s[5] == BaseChar(b.first) && s[6] == BaseChar(b.second) && s[7] == BaseChar(b.third);
  }

  /** A label that reads as a pair of codons is exactly that pair's printed form. */
  lemma ChangeStringOfParse(s: string)
    requires ParseChange(s).Some?
    ensures ChangeString(ParseChange(s).value.0, ParseChange(s).value.1) == s
  {
    var (a, b) := ParseChange(s).value;
    assert ChangeString(a, b) == s;
  }

  /** Distinct pairs of codons have distinct labels. */
  lemma ChangeStringInjective(a: Codon, b: Codon, a': Codon, b': Codon)
    requires ChangeString(a, b) == ChangeString(a', b')
    ensures a == a' && b == b'
  {
    ParseChangeString(a, b);
    ParseChangeString(a', b');
  }

  /**
   The standard genetic code, one-letter amino-acid names with '*' for the
   three stop codons, as tabulated in the comment that precedes the catalog.
   */
  function AminoAcid(c: Codon): char {
    match c.first
    case T =>
      (match c.second
       case T => (match c.third case T => 'F' case C => 'F' case A => 'L' case G => 'L')
       case C => 'S'
       case A => (match c.third case T => 'Y' case C => 'Y' case A => '*' case G => '*')
       case G => (match c.third case T => 'C' case C => 'C' case A => '*' case G => 'W'))
    case C =>
      (match c.second
       case T => 'L'
       case C => 'P'
       case A => (match c.third case T => 'H' case C => 'H' case A => 'Q' case G => 'Q')
       case G => 'R')
    case A =>
      (match c.second
       case T => (match c.third case T => 'I' case C => 'I' case A => 'I' case G => 'M')
       case C => 'T'
       case A => (match c.third case T => 'N' case C => 'N' case A => 'K' case G => 'K')
       case G => (match c.third case T => 'S' case C => 'S' case A => 'R' case G => 'R'))
    case G =>
      (match c.second
       case T => 'V'
       case C => 'A'
       case A => (match c.third case T => 'D' case C => 'D' case A => 'E' case G => 'E')
       case G => 'G')
  }

  predicate IsStop(c: Codon) {
    AminoAcid(c) == '*'
  }

  /** The number of positions at which two codons carry different nucleotides. */
  function Differences(a: Codon, b: Codon): (n: nat)
    ensures n <= 3
    ensures n == 0 <==> a == b
  {
    (if a.first != b.first then 1 else 0)
    + (if a.second != b.second then 1 else 0)
    + (if a.third != b.third then 1 else 0)
  }

  /** A synonymous change of a single nucleotide between two sense codons. */
  predicate IsSynonymousOneNt(a: Codon, b: Codon) {
    && Differences(a, b) == 1
    && AminoAcid(a) == AminoAcid(b)
    && !IsStop(a)
  }

  /**
   The codons of each amino acid, read off the genetic code: the preimage of
   `AminoAcid`, used to enumerate the synonymous changes family by family.
   */
  function CodonsOf(aa: char): (cs: seq<Codon>)
    ensures forall i | 0 <= i < |cs| :: AminoAcid(cs[i]) == aa
  {
    match aa
    case 'F' => [Codon(T, T, T), Codon(T, T, C)]
    case 'L' => [Codon(T, T, A), Codon(T, T, G), Codon(C, T, T), Codon(C, T, C), Codon(C, T, A), Codon(C, T, G)]
    case 'I' => [Codon(A, T, T), Codon(A, T, C), Codon(A, T, A)]
    case 'M' => [Codon(A, T, G)]
    case 'V' => [Codon(G, T, T), Codon(G, T, C), Codon(G, T, A), Codon(G, T, G)]
    case 'S' => [Codon(T, C, T), Codon(T, C, C), Codon(T, C, A), Codon(T, C, G), Codon(A, G, T), Codon(A, G, C)]
    case 'P' => [Codon(C, C, T), Codon(C, C, C), Codon(C, C, A), Codon(C, C, G)]
    case 'T' => [Codon(A, C, T), Codon(A, C, C), Codon(A, C, A), Codon(A, C, G)]
    case 'A' => [Codon(G, C, T), Codon(G, C, C), Codon(G, C, A), Codon(G, C, G)]
    case 'Y' => [Codon(T, A, T), Codon(T, A, C)]
    case 'H' => [Codon(C, A, T), Codon(C, A, C)]
    case 'Q' => [Codon(C, A, A), Codon(C, A, G)]
    case 'N' => [Codon(A, A, T), Codon(A, A, C)]
    case 'K' => [Codon(A, A, A), Codon(A, A, G)]
    case 'D' => [Codon(G, A, T), Codon(G, A, C)]
    case 'E' => [Codon(G, A, A), Codon(G, A, G)]
    case 'C' => [Codon(T, G, T), Codon(T, G, C)]
    case 'W' => [Codon(T, G, G)]
    case 'R' => [Codon(C, G, T), Codon(C, G, C), Codon(C, G, A), Codon(C, G, G), Codon(A, G, A), Codon(A, G, G)]
    case 'G' => [Codon(G, G, T), Codon(G, G, C), Codon(G, G, A), Codon(G, G, G)]
    case '*' => [Codon(T, A, A), Codon(T, A, G), Codon(T, G, A)]
    case _ => []
  }

  /** Every codon is listed among the codons of its own amino acid. */
  lemma CodonInOwnFamily(c: Codon)
    ensures c in CodonsOf(AminoAcid(c))
  {
    match (c.first, c.third)
    case (T, T) =>
    case (T, C) =>
    case (T, A) =>
    case (T, G) =>
    case (C, T) =>
    case (C, C) =>
    case (C, A) =>
    case (C, G) =>
    case (A, T) =>
    case (A, C) =>
    case (A, A) =>
    case (A, G) =>
    case (G, T) =>
    case (G, C) =>
    case (G, A) =>
    case (G, G) =>
  }
}
