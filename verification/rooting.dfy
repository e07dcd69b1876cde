/**
 `root_snps` (rooting_snps_utils.py) over the lines of the input table held
 in memory.

 The output file is first written with the header line alone; then every
 line that is not a comment is stripped, split on tabs and turned into an
 11-field row: chrom, pos, root, ref, alt, refcount, altcount, totalcount,
 refcodon, altcodon, effect, with the codons upper-cased and the allele
 fields swapped when the root is "root_alt". A row is written when no effect
 filter is given or when the line's effect equals it. A line with fewer than
 20 fields raises `IndexError`; what was written before it stays in the file.
 */
module RootingSnps {
  import opened Basics
  import opened PyStr
  import opened TsvUtils
  import FunctionalSnps

  // Column positions in a rooted row.
  const RChrom := 0
  const RPos := 1
  const RRoot := 2
  const RRef := 3
  const RAlt := 4
  const RRefCount := 5
  const RAltCount := 6
  const RTotalCount := 7
  const RRefCodon := 8
  const RAltCodon := 9
  const REffect := 10

  /** The column names of the rooted file. */
  const RootingHeaderNames: seq<string> := ["chrom", "pos", "aainfo", "ref", "alt",
    "refcount", "altcount", "totalcount", "refcodon", "altcodon", "effect"]

  /** The header line: the names joined by tabs; splitting it gives the names back. */
  function RootingHeader(): (header: string)
    ensures Split(header, '\t') == RootingHeaderNames
  {
    assert forall i | 0 <= i < |RootingHeaderNames| :: '\t' !in RootingHeaderNames[i];
    SplitJoin(RootingHeaderNames, '\t');
    Join("\t", RootingHeaderNames)
  }

  /**
   The rooted row a long enough line must give, read straight off the input
   columns: coordinates, root, total count and effect copied, the allele
   fields taken from the ancestral side first.
   */
  predicate RootedFrom(line: seq<string>, row: seq<string>)
    requires |line| > EffectCol
  {
    var swap := line[RootCol] == RootAlt;
    && |row| == 11
    && row[RChrom] == line[ChromCol] && row[RPos] == line[PosCol] && row[RRoot] == line[RootCol]
    && row[RTotalCount] == line[TotalCountCol] && row[REffect] == line[EffectCol]
    && row[RRef] == line[if swap then AltAlleleCol else RefAlleleCol]
    && row[RAlt] == line[if swap then RefAlleleCol else AltAlleleCol]
    && row[RRefCount] == line[if swap then AltCountCol else RefCountCol]
    && row[RAltCount] == line[if swap then RefCountCol else AltCountCol]
    && row[RRefCodon] == Upper(line[if swap then AltCodonCol else RefCodonCol])
    && row[RAltCodon] == Upper(line[if swap then RefCodonCol else AltCodonCol])
  }

  /** The loop body for one split line: read the fields, upper-case the codons, swap on "root_alt". */
  function RootedRow(line: seq<string>): (r: Result<seq<string>>)
    ensures r.Ok? <==> |line| > EffectCol
    ensures r.Err? ==> r.error == IndexError
    ensures r.Ok? ==> RootedFrom(line, r.value)
  {
    if |line| <= EffectCol then Err(IndexError)
    else
      var refallele, altallele := line[RefAlleleCol], line[AltAlleleCol];
      var refcount, altcount := line[RefCountCol], line[AltCountCol];
      var refcodon, altcodon := Upper(line[RefCodonCol]), Upper(line[AltCodonCol]);
      var swap := line[RootCol] == RootAlt;
      Ok([line[ChromCol], line[PosCol], line[RootCol],
          if swap then altallele else refallele, if swap then refallele else altallele,
          if swap then altcount else refcount, if swap then refcount else altcount,
          line[TotalCountCol],
          if swap then altcodon else refcodon, if swap then refcodon else altcodon,
          line[EffectCol]])
  }

  /** Whether the effect filter lets a line with this effect through. */
  predicate Passes(filter: Option<string>, effect: string) {
    filter.None? || filter.value == effect
  }

  /** What one input line gives: nothing for a comment or a filtered-out effect, an error for a short line, else its row. */
  function LineOutput(line: string, filter: Option<string>): (out: (seq<seq<string>>, Option<PyError>))
    ensures out.1.Some? <==> !IsComment(line) && |Fields(line)| <= EffectCol
    ensures out.1.Some? ==> out.1.value == IndexError && out.0 == []
    ensures |out.0| == (if IsComment(line) || out.1.Some? || !Passes(filter, Fields(line)[EffectCol]) then 0 else 1)
    ensures |out.0| == 1 ==> RootedFrom(Fields(line), out.0[0]) && Passes(filter, out.0[0][REffect])
    ensures |out.0| == 1 ==> forall i | 0 <= i < 11 :: '\t' !in out.0[0][i]
  {
    if IsComment(line) then ([], None)
    else
      var fields := Fields(line);
      if |fields| > EffectCol then
        UpperKeepsTabs(fields[RefCodonCol]);
        UpperKeepsTabs(fields[AltCodonCol]);
        (if Passes(filter, fields[EffectCol]) then [RootedRow(fields).value] else [], None)
      else
        ([], Some(IndexError))
  }

  /**
   The rows `root_snps` writes after its header, in order, and the error
   that stopped it, if any. The rows before a failing line are kept: they
   are already in the file when the error is raised.
   */
  function RootRows(lines: seq<string>, filter: Option<string>): (out: (seq<seq<string>>, Option<PyError>))
    ensures out.1.Some? ==> out.1.value == IndexError
    decreases |lines|
  {
    if |lines| == 0 then ([], None)
    else
      var head := LineOutput(lines[0], filter);
      if head.1.Some? then head
      else
        var rest := RootRows(lines[1..], filter);
        (head.0 + rest.0, rest.1)
  }

  /**
   The run fails exactly when some line that is not a comment is too
   short; it never writes more rows than there are such lines, every row
   has 11 fields and passes the filter, and without a filter a run that
   does not fail writes one row per line that is not a comment.
   */
  lemma RootRowsShape(lines: seq<string>, filter: Option<string>)
    ensures var out := RootRows(lines, filter);
      && (out.1.Some? <==> !AllLinesLongEnough(lines))
      && |out.0| <= NonCommentCount(lines)
      && (filter.None? && out.1.None? ==> |out.0| == NonCommentCount(lines))
      && forall k | 0 <= k < |out.0| :: |out.0[k]| == 11 && Passes(filter, out.0[k][REffect])
  {
    RootRowsFail(lines, filter);
    RootRowsCount(lines, filter);
    forall k | 0 <= k < |RootRows(lines, filter).0|
      ensures |RootRows(lines, filter).0[k]| == 11 && Passes(filter, RootRows(lines, filter).0[k][REffect])
    {
      RootRowsEach(lines, filter, k);
    }
  }

  /** The run fails exactly when some line that is not a comment is too short. */
  lemma {:induction false} RootRowsFail(lines: seq<string>, filter: Option<string>)
    ensures RootRows(lines, filter).1.Some? <==> !AllLinesLongEnough(lines)
    decreases |lines|
  {
    if |lines| > 0 {
      RootRowsUnfold(lines, filter);
      RootRowsFail(lines[1..], filter);
      AllLinesLongEnoughCons(lines);
    }
  }

  /** At most one row per line that is not a comment, and exactly one each when nothing is filtered out or fails. */
  lemma {:induction false} RootRowsCount(lines: seq<string>, filter: Option<string>)
    ensures var out := RootRows(lines, filter);
      && |out.0| <= NonCommentCount(lines)
      && (filter.None? && out.1.None? ==> |out.0| == NonCommentCount(lines))
    decreases |lines|
  {
    if |lines| > 0 {
      RootRowsUnfold(lines, filter);
      RootRowsCount(lines[1..], filter);
    }
  }

  /** The lines of the output file, without their newlines: the header first, then one line per row. */
  function WrittenLines(lines: seq<string>, filter: Option<string>): (text: seq<string>)
    ensures |text| == |RootRows(lines, filter).0| + 1
  {
    var rows := RootRows(lines, filter).0;
    [RootingHeader()] + seq(|rows|, k requires 0 <= k < |rows| => Join("\t", rows[k]))
  }

  /** One line on its own: nothing for a comment, an error for a short line, else its row when the filter passes it. */
  lemma RootOneLine(line: string, filter: Option<string>)
    ensures IsComment(line) ==> RootRows([line], filter) == ([], None)
    ensures !IsComment(line) && |Fields(line)| <= EffectCol ==> RootRows([line], filter) == ([], Some(IndexError))
    ensures !IsComment(line) && |Fields(line)| > EffectCol ==>
      RootRows([line], filter).1 == None &&
      RootRows([line], filter).0 == (if Passes(filter, Fields(line)[EffectCol]) then [RootedRow(Fields(line)).value] else [])
  {
    assert [line][1..] == [];
    RootRowsUnfold([line], filter);
    assert RootRows([], filter) == ([], None);
    assert LineOutput(line, filter).0 + [] == LineOutput(line, filter).0;
  }

  /** The output of one run of lines followed by another: the first run's failure ends everything. */
  function Then(x: (seq<seq<string>>, Option<PyError>), y: (seq<seq<string>>, Option<PyError>)): (seq<seq<string>>, Option<PyError>) {
    if x.1.Some? then x else (x.0 + y.0, y.1)
  }

  /**
   Lines are handled one after the other: the output for `a + b` is the
   output for `a` when `a` fails, and otherwise the rows of `a` followed by
   the output for `b`.
   */
  lemma {:induction false} RootRowsAppend(a: seq<string>, b: seq<string>, filter: Option<string>)
    ensures RootRows(a + b, filter) == Then(RootRows(a, filter), RootRows(b, filter))
    decreases |a|
  {
    if |a| == 0 {
      assert a + b == b;
      ThenNothing(RootRows(b, filter));
    } else {
      ConsAppend(a, b);
      RootRowsUnfold(a, filter);
      RootRowsUnfold(a + b, filter);
      RootRowsAppend(a[1..], b, filter);
      ThenAssociative(LineOutput(a[0], filter), RootRows(a[1..], filter), RootRows(b, filter));
    }
  }

  /** Nothing written and no failure, followed by an output, is that output. */
  lemma ThenNothing(y: (seq<seq<string>>, Option<PyError>))
    ensures Then(([], None), y) == y
  {
    assert [] + y.0 == y.0;
  }

  /** Running three pieces one after the other does not depend on how they are grouped. */
  lemma ThenAssociative(x: (seq<seq<string>>, Option<PyError>), y: (seq<seq<string>>, Option<PyError>), z: (seq<seq<string>>, Option<PyError>))
    ensures Then(x, Then(y, z)) == Then(Then(x, y), z)
  {
    if x.1.None? && y.1.None? {
      assert x.0 + (y.0 + z.0) == (x.0 + y.0) + z.0;
    }
  }

  /** The first element and the rest of `a + b` when `a` is not empty. */
  lemma ConsAppend(a: seq<string>, b: seq<string>)
    requires |a| > 0
    ensures (a + b)[0] == a[0] && (a + b)[1..] == a[1..] + b
  {
  }

  /** The first line is handled before the rest. */
  lemma RootRowsUnfold(lines: seq<string>, filter: Option<string>)
    requires |lines| > 0
    ensures RootRows(lines, filter) == Then(LineOutput(lines[0], filter), RootRows(lines[1..], filter))
  {
  }

  /** A comment line changes nothing, wherever it stands. */
  lemma CommentLineSkipped(a: seq<string>, line: string, b: seq<string>, filter: Option<string>)
    requires IsComment(line)
    ensures RootRows(a + [line] + b, filter) == RootRows(a + b, filter)
  {
    RootOneLine(line, filter);
    RootRowsAppend(a, [line], filter);
    RootRowsAppend(a + [line], b, filter);
    RootRowsAppend(a, b, filter);
    assert RootRows(a, filter).0 + [] == RootRows(a, filter).0;
  }

  /**
   A short line stops the run: nothing after it is written, whatever it
   holds, and the rows of the lines before it stay.
   */
  lemma ShortLineStops(a: seq<string>, line: string, b: seq<string>, filter: Option<string>)
    requires AllLinesLongEnough(a)
    requires !IsComment(line) && |Fields(line)| <= EffectCol
    ensures RootRows(a + [line] + b, filter) == (RootRows(a, filter).0, Some(IndexError))
  {
    RootOneLine(line, filter);
    RootRowsAppend(a, [line], filter);
    RootRowsAppend(a + [line], b, filter);
    assert RootRows(a, filter).0 + [] == RootRows(a, filter).0;
  }

  /** The file starts with the header line, which splits into the eleven column names. */
  lemma WrittenHeaderFirst(lines: seq<string>, filter: Option<string>)
    ensures Split(WrittenLines(lines, filter)[0], '\t') == RootingHeaderNames
  {
  }

  /** The line after the header's k-th successor splits back into the k-th written row. */
  lemma WrittenLineReadsBack(lines: seq<string>, filter: Option<string>, k: nat)
    requires k < |RootRows(lines, filter).0|
    ensures Split(WrittenLines(lines, filter)[k + 1], '\t') == RootRows(lines, filter).0[k]
  {
    var row := RootRows(lines, filter).0[k];
    RootRowsEach(lines, filter, k);
    assert WrittenLines(lines, filter)[k + 1] == Join("\t", row);
    SplitJoin(row, '\t');
  }

  /** Every written row has 11 fields, passes the filter, and holds no tab in any field. */
  lemma {:induction false} RootRowsEach(lines: seq<string>, filter: Option<string>, k: nat)
    requires k < |RootRows(lines, filter).0|
    ensures var row := RootRows(lines, filter).0[k];
      && |row| == 11 && Passes(filter, row[REffect])
      && forall i | 0 <= i < |row| :: '\t' !in row[i]
    decreases |lines|
  {
    RootRowsUnfold(lines, filter);
    var head := LineOutput(lines[0], filter);
    var rest := RootRows(lines[1..], filter);
    if head.1.None? {
      ThenRow(head, rest, k);
      if k < |head.0| {
        LineRowEach(lines[0], filter, k);
      } else {
        RootRowsEach(lines[1..], filter, k - |head.0|);
      }
    }
  }

  /** The row one line yields, if any, has 11 fields, passes the filter and holds no tab. */
  lemma LineRowEach(line: string, filter: Option<string>, k: nat)
    requires k < |LineOutput(line, filter).0|
    ensures var row := LineOutput(line, filter).0[k];
      && |row| == 11 && Passes(filter, row[REffect])
      && forall i | 0 <= i < |row| :: '\t' !in row[i]
  {
    var row := LineOutput(line, filter).0[0];
    assert RootedFrom(Fields(line), row);
  }

  /** Row k of two pieces run one after the other, when the first does not fail. */
  lemma ThenRow(x: (seq<seq<string>>, Option<PyError>), y: (seq<seq<string>>, Option<PyError>), k: nat)
    requires x.1.None? && k < |x.0| + |y.0|
    ensures Then(x, y).0[k] == if k < |x.0| then x.0[k] else y.0[k - |x.0|]
  {
  }

  /**
   The rooted row and the row `process_functional_snps_tsv` builds from the
   same line carry the same eleven values, only in another order.
   */
  lemma RootingAgreesWithFunctional(line: seq<string>)
    requires |line| > EffectCol
    ensures var f := FunctionalSnps.FunctionalRow(line, line[EffectCol]).value.value;
      RootedRow(line).value ==
        [f[FunctionalSnps.OutChrom], f[FunctionalSnps.OutPos], f[FunctionalSnps.OutRoot],
         f[FunctionalSnps.OutRefAllele], f[FunctionalSnps.OutAltAllele],
         f[FunctionalSnps.OutRefCount], f[FunctionalSnps.OutAltCount], f[FunctionalSnps.OutTotalCount],
         f[FunctionalSnps.OutRefCodon], f[FunctionalSnps.OutAltCodon], f[FunctionalSnps.OutEffect]]
  {
  }
}
