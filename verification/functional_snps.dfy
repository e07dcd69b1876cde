/**
 The per-line logic of `process_functional_snps_tsv` and the header it
 writes (scripts/temp_src/implementations.py), over the lines of the input
 table held in memory.

 Each line that is not a comment is stripped and split on tabs; a line with
 fewer than 20 fields raises `IndexError` and the whole call fails. A line
 whose effect is the requested one becomes a 12-field row: chrom, pos,
 effect, totalcount, refcount, altcount, root, refallele, altallele,
 refcodon, altcodon, codon_change, with the allele-dependent fields swapped
 when the root is "root_alt".
 */
module FunctionalSnps {
  import opened Basics
  import opened PyStr
  import opened TsvUtils

  // Column positions in an output row.
  const OutChrom := 0
  const OutPos := 1
  const OutEffect := 2
  const OutTotalCount := 3
  const OutRefCount := 4
  const OutAltCount := 5
  const OutRoot := 6
  const OutRefAllele := 7
  const OutAltAllele := 8
  const OutRefCodon := 9
  const OutAltCodon := 10
  const OutCodonChange := 11

  /**
   The row a kept line must give, read straight off the input columns: the
   coordinates, effect, total count and root copied, the allele fields taken
   from the ancestral side first, and the change key built from the two codons.
   */
  predicate RowOfLine(line: seq<string>, row: seq<string>)
    requires |line| > EffectCol
  {
    var swap := line[RootCol] == RootAlt;
    && |row| == 12
    && row[OutChrom] == line[ChromCol] && row[OutPos] == line[PosCol]
    && row[OutEffect] == line[EffectCol] && row[OutTotalCount] == line[TotalCountCol]
    && row[OutRoot] == line[RootCol]
    && row[OutRefCount] == line[if swap then AltCountCol else RefCountCol]
    && row[OutAltCount] == line[if swap then RefCountCol else AltCountCol]
    && row[OutRefAllele] == line[if swap then AltAlleleCol else RefAlleleCol]
    && row[OutAltAllele] == line[if swap then RefAlleleCol else AltAlleleCol]
    && row[OutRefCodon] == Upper(line[if swap then AltCodonCol else RefCodonCol])
    && row[OutAltCodon] == Upper(line[if swap then RefCodonCol else AltCodonCol])
    && row[OutCodonChange] == row[OutRefCodon] + "->" + row[OutAltCodon]
  }

  /** The loop body for one split line: `None` when its effect is another one. */
  function FunctionalRow(line: seq<string>, effect: string): (r: Result<Option<seq<string>>>)
    ensures r.Ok? <==> |line| > EffectCol
    ensures r.Err? ==> r.error == IndexError
    ensures r.Ok? ==> (r.value.Some? <==> line[EffectCol] == effect)
    ensures r.Ok? && r.value.Some? ==> RowOfLine(line, r.value.value)
  {
    var snpFields :- ProcessSnpSignature(line);
    if snpFields[2] != effect then Ok(None)
    else
      var alleles := ProcessAlleles(line).value;
      var rooted := if alleles.root == RootAlt then RootSnp(alleles) else alleles;
      var codonChange := MakeCodonChangeKeys(rooted.alleleCodons);
      Ok(Some(snpFields + rooted.alleleCounts + [alleles.root] + rooted.snpAlleles + rooted.alleleCodons + [codonChange]))
  }

  /** What every output row looks like: twelve fields, the requested effect, and the change key of its two codons. */
  predicate RowShape(row: seq<string>, effect: string) {
    && |row| == 12
    && row[OutEffect] == effect
    && row[OutCodonChange] == row[OutRefCodon] + "->" + row[OutAltCodon]
  }

  /** The rows one input line contributes: none for a comment or another effect, one otherwise. */
  function LineRows(line: string, effect: string): (r: Result<seq<seq<string>>>)
    ensures r.Ok? <==> IsComment(line) || |Fields(line)| > EffectCol
    ensures r.Err? ==> r.error == IndexError
    ensures r.Ok? ==> |r.value| == (if IsComment(line) || Fields(line)[EffectCol] != effect then 0 else 1)
    ensures r.Ok? && |r.value| == 1 ==> RowOfLine(Fields(line), r.value[0])
  {
    if IsComment(line) then Ok([])
    else
      var row :- FunctionalRow(Fields(line), effect);
      Ok(if row.Some? then [row.value] else [])
  }

  /** The rows of two runs of lines, one after the other; a failure of either is the failure of both. */
  function Concat(ra: Result<seq<seq<string>>>, rb: Result<seq<seq<string>>>): Result<seq<seq<string>>> {
    if ra.Ok? && rb.Ok? then Ok(ra.value + rb.value) else Err(IndexError)
  }

  /** `process_functional_snps_tsv` without the file: the rows of the kept lines, in input order. */
  function ProcessFunctionalSnps(lines: seq<string>, effect: string): (r: Result<seq<seq<string>>>)
    ensures r.Ok? <==> AllLinesLongEnough(lines)
    ensures r.Err? ==> r.error == IndexError
    ensures r.Ok? ==> |r.value| <= NonCommentCount(lines)
    ensures r.Ok? ==> forall k | 0 <= k < |r.value| :: RowShape(r.value[k], effect)
    decreases |lines|
  {
    if |lines| == 0 then Ok([])
    else
      AllLinesLongEnoughCons(lines);
      var head :- LineRows(lines[0], effect);
      var rest :- ProcessFunctionalSnps(lines[1..], effect);
      Ok(head + rest)
  }

  /** One line on its own gives the rows `LineRows` says. */
  lemma ProcessOneLine(line: string, effect: string)
    ensures ProcessFunctionalSnps([line], effect) == LineRows(line, effect)
  {
    assert [line][1..] == [];
    if LineRows(line, effect).Ok? {
      assert LineRows(line, effect).value + [] == LineRows(line, effect).value;
    }
  }

  /** Lines are processed independently and in order: the rows of a concatenation are the concatenated rows. */
  lemma {:induction false} ProcessFunctionalSnpsAppend(a: seq<string>, b: seq<string>, effect: string)
    ensures ProcessFunctionalSnps(a + b, effect) == Concat(ProcessFunctionalSnps(a, effect), ProcessFunctionalSnps(b, effect))
    decreases |a|
  {
    if |a| == 0 {
      assert a + b == b;
      if ProcessFunctionalSnps(b, effect).Ok? {
        assert [] + ProcessFunctionalSnps(b, effect).value == ProcessFunctionalSnps(b, effect).value;
      }
    } else {
      assert (a + b)[0] == a[0] && (a + b)[1..] == a[1..] + b;
      ProcessFunctionalSnpsUnfold(a, effect);
      ProcessFunctionalSnpsUnfold(a + b, effect);
      ProcessFunctionalSnpsAppend(a[1..], b, effect);
      ConcatAssociative(LineRows(a[0], effect), ProcessFunctionalSnps(a[1..], effect), ProcessFunctionalSnps(b, effect));
    }
  }

  /** The first line is handled before the rest. */
  lemma ProcessFunctionalSnpsUnfold(lines: seq<string>, effect: string)
    requires |lines| > 0
    ensures ProcessFunctionalSnps(lines, effect) == Concat(LineRows(lines[0], effect), ProcessFunctionalSnps(lines[1..], effect))
  {
  }

  lemma ConcatAssociative(x: Result<seq<seq<string>>>, y: Result<seq<seq<string>>>, z: Result<seq<seq<string>>>)
    ensures Concat(x, Concat(y, z)) == Concat(Concat(x, y), z)
  {
    if x.Ok? && y.Ok? && z.Ok? {
      assert x.value + (y.value + z.value) == (x.value + y.value) + z.value;
    }
  }

  /** A comment line changes nothing, wherever it stands. */
  lemma CommentLineSkipped(a: seq<string>, line: string, b: seq<string>, effect: string)
    requires IsComment(line)
    ensures ProcessFunctionalSnps(a + [line] + b, effect) == ProcessFunctionalSnps(a + b, effect)
  {
    ProcessOneLine(line, effect);
    ProcessFunctionalSnpsAppend(a, [line], effect);
    ProcessFunctionalSnpsAppend(a + [line], b, effect);
    ProcessFunctionalSnpsAppend(a, b, effect);
    if ProcessFunctionalSnps(a, effect).Ok? {
      assert ProcessFunctionalSnps(a, effect).value + [] == ProcessFunctionalSnps(a, effect).value;
    }
  }

  /** Output rows keep the input order: a line's row comes after the rows of every earlier line. */
  lemma RowsInInputOrder(a: seq<string>, line: string, b: seq<string>, effect: string)
    requires ProcessFunctionalSnps(a + [line] + b, effect).Ok?
    requires !IsComment(line) && |Fields(line)| > EffectCol && Fields(line)[EffectCol] == effect
    ensures ProcessFunctionalSnps(a, effect).Ok?
    ensures var rows := ProcessFunctionalSnps(a + [line] + b, effect).value;
      var k := |ProcessFunctionalSnps(a, effect).value|;
      k < |rows| && RowOfLine(Fields(line), rows[k])
  {
    ProcessOneLine(line, effect);
    ProcessFunctionalSnpsAppend(a, [line], effect);
    ProcessFunctionalSnpsAppend(a + [line], b, effect);
    var ra := ProcessFunctionalSnps(a, effect).value;
    var row := LineRows(line, effect).value;
    var rb := ProcessFunctionalSnps(b, effect).value;
    assert ProcessFunctionalSnps(a + [line] + b, effect).value == (ra + row) + rb;
    assert ((ra + row) + rb)[|ra|] == row[0];
  }

  // Header names of the output columns.
  const ChromName := "chrom"
  const PosName := "pos"
  const EffectName := "effect"
  const TotalCountName := "totalcount"
  const RefCountName := "refcount"
  const AltCountName := "altcount"
  const RootName := "aainfo"
  const RefAlleleName := "refallele"
  const AltAlleleName := "altallele"
  const RefCodonName := "refcodon"
  const AltCodonName := "altcodon"
  const CodonChangeName := "codon_change"

  /** The column names `make_header` lists. */
  const HeaderNames: seq<string> := [ChromName, PosName, RootName, RefAlleleName, AltAlleleName,
    RefCountName, AltCountName, TotalCountName, RefCodonName, AltCodonName, EffectName]

  /**
   What a column of the given name holds for a kept input line, by the
   meaning of the name: coordinates, effect, total count and root as read,
   counts, alleles and codons from the ancestral side first, and the change
   key of the two codons. `None` for a name no column has.
   */
  function NamedValue(line: seq<string>, name: string): Option<string>
    requires |line| > EffectCol
  {
    var swap := line[RootCol] == RootAlt;
    var refCodon := Upper(line[if swap then AltCodonCol else RefCodonCol]);
    var altCodon := Upper(line[if swap then RefCodonCol else AltCodonCol]);
    if name == ChromName then Some(line[ChromCol])
    else if name == PosName then Some(line[PosCol])
    else if name == EffectName then Some(line[EffectCol])
    else if name == TotalCountName then Some(line[TotalCountCol])
    else if name == RefCountName then Some(line[if swap then AltCountCol else RefCountCol])
    else if name == AltCountName then Some(line[if swap then RefCountCol else AltCountCol])
    else if name == RootName then Some(line[RootCol])
    else if name == RefAlleleName then Some(line[if swap then AltAlleleCol else RefAlleleCol])
    else if name == AltAlleleName then Some(line[if swap then RefAlleleCol else AltAlleleCol])
    else if name == RefCodonName then Some(refCodon)
    else if name == AltCodonName then Some(altCodon)
    else if name == CodonChangeName then Some(refCodon + "->" + altCodon)
    else None
  }

  /** `make_header`: the eleven names joined by tabs; splitting it gives the names back. */
  function MakeHeader(): (header: string)
    ensures Split(header, '\t') == HeaderNames
  {
    assert forall i | 0 <= i < |HeaderNames| :: '\t' !in HeaderNames[i];
    SplitJoin(HeaderNames, '\t');
    Join("\t", HeaderNames)
  }

  /** The text `write_tsv_file` writes, one string per line without its newline. */
  function TsvText(header: string, rows: seq<seq<string>>): (text: seq<string>)
    ensures |text| == |rows| + 1 && text[0] == header
    ensures forall k | 0 <= k < |rows| :: text[k + 1] == Join("\t", rows[k])
  {
    [header] + seq(|rows|, k requires 0 <= k < |rows| => Join("\t", rows[k]))
  }

  /** The text of a header over one row is those two lines. */
  lemma TsvTextSingle(header: string, row: seq<string>)
    ensures TsvText(header, [row]) == [header, Join("\t", row)]
  {
  }

  /** A row whose fields hold no tab reads back from its written line. */
  lemma RowLineRoundTrip(row: seq<string>)
    requires |row| >= 1
    requires forall i | 0 <= i < |row| :: '\t' !in row[i]
    ensures Split(Join("\t", row), '\t') == row
  {
    SplitJoin(row, '\t');
  }

  /** A row built from tab-free columns holds no tab. */
  lemma RowOfLineTabFree(line: seq<string>, row: seq<string>)
    requires |line| > EffectCol && RowOfLine(line, row)
    requires forall i | 0 <= i < |line| :: '\t' !in line[i]
    ensures forall i | 0 <= i < |row| :: '\t' !in row[i]
  {
    var swap := line[RootCol] == RootAlt;
    UpperKeepsTabs(line[if swap then AltCodonCol else RefCodonCol]);
    UpperKeepsTabs(line[if swap then RefCodonCol else AltCodonCol]);
    assert '\t' !in row[OutRefCodon] && '\t' !in row[OutAltCodon];
    assert '\t' !in "->";
  }

  /** Every field of an emitted row is free of tabs. */
  lemma RowFieldsTabFree(line: string, effect: string)
    requires !IsComment(line) && |Fields(line)| > EffectCol && Fields(line)[EffectCol] == effect
    ensures forall i | 0 <= i < 12 :: '\t' !in FunctionalRow(Fields(line), effect).value.value[i]
  {
    RowOfLineTabFree(Fields(line), FunctionalRow(Fields(line), effect).value.value);
  }

  /** A kept line on its own gives one row: the row its columns determine, with no tab in any field. */
  lemma OneRow(line: string, effect: string) returns (row: seq<string>)
    requires !IsComment(line) && |Fields(line)| > EffectCol && Fields(line)[EffectCol] == effect
    ensures ProcessFunctionalSnps([line], effect) == Ok([row])
    ensures RowOfLine(Fields(line), row)
    ensures forall i | 0 <= i < |row| :: '\t' !in row[i]
  {
    ProcessOneLine(line, effect);
    RowFieldsTabFree(line, effect);
    row := FunctionalRow(Fields(line), effect).value.value;
  }

  /** The file `process_functional_snps_tsv` writes, as written: the `make_header` line over the rows. */
  function WrittenTsvText(lines: seq<string>, effect: string): (text: Result<seq<string>>)
    ensures text.Ok? <==> AllLinesLongEnough(lines)
  {
    var rows :- ProcessFunctionalSnps(lines, effect);
    Ok(TsvText(MakeHeader(), rows))
  }

  /**
   As written, the file `process_functional_snps_tsv` writes has an
   eleven-name header over twelve-field rows, and its third column, named
   "aainfo", holds the effect.
   */
  lemma HeaderMisalignedWithRows(line: string, effect: string)
    requires !IsComment(line) && |Fields(line)| > EffectCol && Fields(line)[EffectCol] == effect
    ensures var text := WrittenTsvText([line], effect).value;
      var names := Split(text[0], '\t');
      var fields := Split(text[1], '\t');
      && |names| == 11 && |fields| == 12
      && names[OutEffect] == RootName && fields[OutEffect] == effect
  {
    var row := OneRow(line, effect);
    RowLineRoundTrip(row);
    TsvTextSingle(MakeHeader(), row);
    MisalignedHeaderColumns();
  }

  /** Where `make_header` puts the name "aainfo". */
  lemma MisalignedHeaderColumns()
    ensures |HeaderNames| == 11 && HeaderNames[OutEffect] == RootName
  {
  }

  /** A header naming the twelve columns the rows actually hold, in their order. */
  const FunctionalHeaderNames: seq<string> := [ChromName, PosName, EffectName, TotalCountName, RefCountName,
    AltCountName, RootName, RefAlleleName, AltAlleleName, RefCodonName, AltCodonName, CodonChangeName]

  function FunctionalHeader(): (header: string)
    ensures Split(header, '\t') == FunctionalHeaderNames
  {
    assert forall i | 0 <= i < |FunctionalHeaderNames| :: '\t' !in FunctionalHeaderNames[i];
    SplitJoin(FunctionalHeaderNames, '\t');
    Join("\t", FunctionalHeaderNames)
  }

  /** The file `process_functional_snps_tsv` should write: the corrected header over the rows. */
  function FunctionalTsvText(lines: seq<string>, effect: string): (text: Result<seq<string>>)
    ensures text.Ok? <==> AllLinesLongEnough(lines)
  {
    var rows :- ProcessFunctionalSnps(lines, effect);
    Ok(TsvText(FunctionalHeader(), rows))
  }

  /**
   With the corrected header every written line of any input has one field
   per header name, reads back as its row, and under each name holds the
   value that name means for the input line the row came from.
   */
  lemma FunctionalHeaderAligned(lines: seq<string>, effect: string, k: nat)
    requires AllLinesLongEnough(lines) && k < |ProcessFunctionalSnps(lines, effect).value|
    ensures var text := FunctionalTsvText(lines, effect).value;
      var names := Split(text[0], '\t');
      var fields := Split(text[k + 1], '\t');
      && |names| == 12 && |fields| == 12
      && fields == ProcessFunctionalSnps(lines, effect).value[k]
      && exists j | 0 <= j < |lines| ::
           && !IsComment(lines[j]) && |Fields(lines[j])| > EffectCol && Fields(lines[j])[EffectCol] == effect
           && forall i | 0 <= i < 12 :: NamedValue(Fields(lines[j]), names[i]) == Some(fields[i])
  {
    var rows := ProcessFunctionalSnps(lines, effect).value;
    var text := FunctionalTsvText(lines, effect).value;
    assert text == TsvText(FunctionalHeader(), rows);
    var j := RowSource(lines, effect, k);
    RowLineRoundTrip(rows[k]);
    NamedValues(Fields(lines[j]), rows[k]);
  }

  /**
   A line written as twenty tab-free fields, not starting with '#' and with
   no whitespace at either end, reads back as those fields and gives one row
   for its own effect; so inputs with written rows exist.
   */
  lemma JoinedLineKept(fields: seq<string>, effect: string)
    requires |fields| == EffectCol + 1 && fields[EffectCol] == effect
    requires forall i | 0 <= i < |fields| :: '\t' !in fields[i]
    requires |fields[0]| > 0 && !IsSpace(fields[0][0]) && fields[0][0] != '#'
    requires |fields[EffectCol]| > 0 && !IsSpace(fields[EffectCol][|fields[EffectCol]| - 1])
    ensures var line := Join("\t", fields);
      && Fields(line) == fields
      && AllLinesLongEnough([line])
      && |ProcessFunctionalSnps([line], effect).value| == 1
  {
    var line := Join("\t", fields);
    SplitJoin(fields, '\t');
    JoinEnds("\t", fields);
    StripUnchanged(line);
    CommentByFirst(line);
    ProcessOneLine(line, effect);
  }

  /** A written row comes from a kept input line of the requested effect, whose columns determine it. */
  lemma {:induction false} RowSource(lines: seq<string>, effect: string, k: nat) returns (j: nat)
    requires AllLinesLongEnough(lines) && k < |ProcessFunctionalSnps(lines, effect).value|
    ensures j < |lines| && !IsComment(lines[j]) && |Fields(lines[j])| > EffectCol
    ensures Fields(lines[j])[EffectCol] == effect
    ensures RowOfLine(Fields(lines[j]), ProcessFunctionalSnps(lines, effect).value[k])
    ensures forall i | 0 <= i < |ProcessFunctionalSnps(lines, effect).value[k]| ::
      '\t' !in ProcessFunctionalSnps(lines, effect).value[k][i]
    decreases |lines|
  {
    ProcessFunctionalSnpsUnfold(lines, effect);
    AllLinesLongEnoughCons(lines);
    var head := LineRows(lines[0], effect);
    var rest := ProcessFunctionalSnps(lines[1..], effect);
    ConcatRow(head, rest, k);
    if k < |head.value| {
      j := 0;
      LineRowSource(lines[0], effect);
    } else {
      var j' := RowSource(lines[1..], effect, k - |head.value|);
      j := j' + 1;
      assert lines[j] == lines[1..][j'];
    }
  }

  /** A line that gives a row is kept, long enough and of the requested effect, and its row is tab-free. */
  lemma LineRowSource(line: string, effect: string)
    requires LineRows(line, effect).Ok? && |LineRows(line, effect).value| > 0
    ensures !IsComment(line) && |Fields(line)| > EffectCol && Fields(line)[EffectCol] == effect
    ensures RowOfLine(Fields(line), LineRows(line, effect).value[0])
    ensures forall i | 0 <= i < |LineRows(line, effect).value[0]| :: '\t' !in LineRows(line, effect).value[0][i]
  {
    RowOfLineTabFree(Fields(line), LineRows(line, effect).value[0]);
  }

  /** Row k of two runs of rows one after the other, when neither fails. */
  lemma ConcatRow(x: Result<seq<seq<string>>>, y: Result<seq<seq<string>>>, k: nat)
    requires x.Ok? && y.Ok? && k < |x.value| + |y.value|
    ensures Concat(x, y).value[k] == if k < |x.value| then x.value[k] else y.value[k - |x.value|]
  {
  }

  /** Each corrected header name is over the value it means: the row of a line holds, at each position, that name's value. */
  lemma NamedValues(line: seq<string>, row: seq<string>)
    requires |line| > EffectCol && RowOfLine(line, row)
    ensures forall i | 0 <= i < 12 :: NamedValue(line, FunctionalHeaderNames[i]) == Some(row[i])
  {
  }

  /** The corrected file for one kept line: the corrected header, then the line's row, which reads back. */
  lemma CorrectedTextOfLine(line: string, effect: string) returns (row: seq<string>)
    requires !IsComment(line) && |Fields(line)| > EffectCol && Fields(line)[EffectCol] == effect
    ensures FunctionalTsvText([line], effect) == Ok([FunctionalHeader(), Join("\t", row)])
    ensures RowOfLine(Fields(line), row)
    ensures Split(Join("\t", row), '\t') == row
  {
    row := OneRow(line, effect);
    RowLineRoundTrip(row);
    TsvTextSingle(FunctionalHeader(), row);
  }
}
