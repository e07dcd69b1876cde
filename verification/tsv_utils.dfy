/**
 Field extraction, rooting and key building for one split line of the
 per-chromosome SNP table (scripts/temp_src/process_tsv_utils.py).

 A line is the list of its tab-separated fields. The table's columns that
 matter here are fixed by position; reading a position past the end of the
 line raises `IndexError`, which the model returns as `Err(IndexError)`.
 */
module TsvUtils {
  import opened Basics
  import opened PyStr
  import opened Codons

  // Column positions in the input table.
  const ChromCol := 0
  const PosCol := 1
  const RootCol := 2
  const RefAlleleCol := 3
  const AltAlleleCol := 4
  const RefCountCol := 10
  const AltCountCol := 11
  const TotalCountCol := 12
  const RefContextCol := 13
  const AltContextCol := 14
  const RefCodonCol := 17
  const AltCodonCol := 18
  const EffectCol := 19

  /** The `root` value of a SNP whose ancestral allele is the alternative one. */
  const RootAlt := "root_alt"

  /** Lines starting with '#' are skipped by both line pipelines. */
  predicate IsComment(line: string) {
    StartsWith(line, "#")
  }

  /** A line is a comment exactly when it is not empty and starts with '#'. */
  lemma CommentByFirst(line: string)
    ensures IsComment(line) <==> |line| > 0 && line[0] == '#'
  {
    if |line| > 0 {
      assert line[..1][0] == line[0];
    }
  }

  /** `line.strip().split("\t")`. */
  function Fields(line: string): (fields: seq<string>)
    ensures |fields| >= 1
    ensures forall i | 0 <= i < |fields| :: '\t' !in fields[i]
  {
    Split(Strip(line), '\t')
  }

  /** The number of lines the pipelines do not skip. */
  function NonCommentCount(lines: seq<string>): (n: nat)
    ensures n <= |lines|
  {
    if |lines| == 0 then 0
    else (if IsComment(lines[0]) then 0 else 1) + NonCommentCount(lines[1..])
  }

  /** Every line the pipelines do not skip has an effect column. */
  predicate AllLinesLongEnough(lines: seq<string>) {
    forall i | 0 <= i < |lines| :: !IsComment(lines[i]) ==> |Fields(lines[i])| > EffectCol
  }

  /** A line that is not skipped and has an effect column. */
  predicate LongEnough(line: string) {
    IsComment(line) || |Fields(line)| > EffectCol
  }

  /** All lines are long enough exactly when the first one is and all the others are. */
  lemma AllLinesLongEnoughCons(lines: seq<string>)
    requires |lines| > 0
    ensures AllLinesLongEnough(lines) <==> LongEnough(lines[0]) && AllLinesLongEnough(lines[1..])
  {
    assert forall i | 1 <= i < |lines| :: lines[i] == lines[1..][i - 1];
    if LongEnough(lines[0]) && AllLinesLongEnough(lines[1..]) {
      forall i | 0 <= i < |lines| && !IsComment(lines[i]) ensures |Fields(lines[i])| > EffectCol {
        if i > 0 {
          assert lines[i] == lines[1..][i - 1];
        }
      }
    }
  }

  /** Upper-casing never creates or removes a tab. */
  lemma UpperKeepsTabs(s: string)
    ensures '\t' in Upper(s) <==> '\t' in s
  {
    if '\t' in Upper(s) {
      var i :| 0 <= i < |s| && Upper(s)[i] == '\t';
    }
    if '\t' in s {
      var i :| 0 <= i < |s| && s[i] == '\t';
      assert Upper(s)[i] == '\t';
    }
  }

  /** `process_snp_signature`: chromosome, position, effect and total count, in that order. */
  function ProcessSnpSignature(line: seq<string>): (r: Result<seq<string>>)
    ensures r.Ok? <==> |line| > EffectCol
    ensures r.Ok? ==> |r.value| == 4
    ensures r.Ok? ==> r.value[0] == line[ChromCol] && r.value[1] == line[PosCol]
    ensures r.Ok? ==> r.value[2] == line[EffectCol] && r.value[3] == line[TotalCountCol]
  {
    if |line| <= EffectCol then Err(IndexError)
    else Ok([line[ChromCol], line[PosCol], line[EffectCol], line[TotalCountCol]])
  }

  /** What `process_alleles` returns: the root and the three allele-dependent field pairs. */
  datatype Alleles = Alleles(root: string, snpAlleles: seq<string>, alleleCounts: seq<string>, alleleCodons: seq<string>)

  /** `process_alleles`: the root, the two alleles, their counts and their upper-cased codons. */
  function ProcessAlleles(line: seq<string>): (r: Result<Alleles>)
    ensures r.Ok? <==> |line| > AltCodonCol
    ensures r.Ok? ==> r.value.root == line[RootCol]
    ensures r.Ok? ==> r.value.snpAlleles == [line[RefAlleleCol], line[AltAlleleCol]]
    ensures r.Ok? ==> r.value.alleleCounts == [line[RefCountCol], line[AltCountCol]]
    ensures r.Ok? ==> r.value.alleleCodons == [Upper(line[RefCodonCol]), Upper(line[AltCodonCol])]
  {
    if |line| <= AltCodonCol then Err(IndexError)
    else
      Ok(Alleles(line[RootCol],
                 [line[RefAlleleCol], line[AltAlleleCol]],
                 [line[RefCountCol], line[AltCountCol]],
                 [Upper(line[RefCodonCol]), Upper(line[AltCodonCol])]))
  }

  /** `list.reverse()`. */
  function Reverse<X>(xs: seq<X>): (r: seq<X>)
    ensures |r| == |xs|
    ensures forall i | 0 <= i < |xs| :: r[i] == xs[|xs| - 1 - i]
  {
    seq(|xs|, i requires 0 <= i < |xs| => xs[|xs| - 1 - i])
  }

  /** `root_snp`: reverses each of the three lists in place. */
  function RootSnp(a: Alleles): (r: Alleles)
    ensures r.root == a.root
    ensures |r.snpAlleles| == |a.snpAlleles| && |r.alleleCounts| == |a.alleleCounts|
    ensures |r.alleleCodons| == |a.alleleCodons|
    ensures |a.snpAlleles| == 2 ==> r.snpAlleles == [a.snpAlleles[1], a.snpAlleles[0]]
    ensures |a.alleleCounts| == 2 ==> r.alleleCounts == [a.alleleCounts[1], a.alleleCounts[0]]
    ensures |a.alleleCodons| == 2 ==> r.alleleCodons == [a.alleleCodons[1], a.alleleCodons[0]]
  {
    Alleles(a.root, Reverse(a.snpAlleles), Reverse(a.alleleCounts), Reverse(a.alleleCodons))
  }

  /** Rooting twice restores the original lists. */
  lemma RootSnpInvolution(a: Alleles)
    ensures RootSnp(RootSnp(a)) == a
  {
    assert Reverse(Reverse(a.snpAlleles)) == a.snpAlleles;
    assert Reverse(Reverse(a.alleleCounts)) == a.alleleCounts;
    assert Reverse(Reverse(a.alleleCodons)) == a.alleleCodons;
  }

  /** `make_codon_change_keys`: the codons joined by "->". */
  function MakeCodonChangeKeys(codons: seq<string>): (key: string)
    ensures |codons| == 2 ==> key == codons[0] + "->" + codons[1]
  {
    Join("->", codons)
  }

  /** Keys built from two codon strings are the catalog's labels for that change. */
  lemma CodonChangeKeyIsLabel(a: Codon, b: Codon)
    ensures MakeCodonChangeKeys([CodonString(a), CodonString(b)]) == ChangeString(a, b)
    ensures ParseChange(MakeCodonChangeKeys([CodonString(a), CodonString(b)])) == Some((a, b))
  {
    ParseChangeString(a, b);
  }

  /** `make_mutational_change_keys`: characters 2 to 4 of the two context fields, joined by "->". */
  function MakeMutationalChangeKeys(line: seq<string>): (r: Result<string>)
    ensures r.Ok? <==> |line| > AltContextCol
    ensures r.Ok? ==> r.value == Slice(line[RefContextCol], 2, 5) + "->" + Slice(line[AltContextCol], 2, 5)
  {
    if |line| <= AltContextCol then Err(IndexError)
    else Ok(Join("->", [Slice(line[RefContextCol], 2, 5), Slice(line[AltContextCol], 2, 5)]))
  }

  /** Each side of a mutational key holds at most three characters, and exactly three when its context field has five or more. */
  lemma MutationalKeyShape(line: seq<string>)
    requires |line| > AltContextCol
    ensures var key := MakeMutationalChangeKeys(line).value;
      var left := Slice(line[RefContextCol], 2, 5);
      && |left| <= 3
      && (|line[RefContextCol]| >= 5 ==> |left| == 3 && left == line[RefContextCol][2..5])
      && key[..|left|] == left
      && key[|left|..|left| + 2] == "->"
  {
  }
}
