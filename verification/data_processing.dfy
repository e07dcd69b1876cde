/**
 The row-level steps of PRF_Ratios_syn/data_processing.py: rooting a table
 row by swapping paired columns (`swap_values`), labelling its codon change
 (`create_codon_change`) and applying both to every row of a table
 (`process_main_table`).

 A pandas row is a map from column names to cells; a cell is a string, a
 number or missing (`NaN`).
 */
module DataProcessing {
  import opened Basics
  import opened PyStr
  import opened Codons
  import opened CodonCatalog

  datatype Cell = Text(s: string) | Number(n: int) | Missing

  type Row = map<string, Cell>

  type SwapPair = (string, string)

  /** The column that says which allele is ancestral, and the value that triggers rooting. */
  const AaInfo := "aainfo"
  const RootAlt := Text("root_alt")

  const RefCodon := "refcodon"
  const AltCodon := "altcodon"
  const CodonChange := "codon_change"

  /** The columns some swap pair names. */
  function PairNames(pairs: seq<SwapPair>): set<string> {
    (set i | 0 <= i < |pairs| :: pairs[i].0) + (set i | 0 <= i < |pairs| :: pairs[i].1)
  }

  /** No column is named twice across the swap pairs, not even within one pair. */
  predicate DisjointPairs(pairs: seq<SwapPair>) {
    && (forall i | 0 <= i < |pairs| :: pairs[i].0 != pairs[i].1)
    && (forall i, j | 0 <= i < j < |pairs| :: {pairs[i].0, pairs[i].1} !! {pairs[j].0, pairs[j].1})
  }

  /**
   The swap loop: for each pair in order, `row[c1], row[c2] = row[c2], row[c1]`.
   Reading a column the row lacks is a `KeyError`.
   */
  function SwapAll(row: Row, pairs: seq<SwapPair>): (r: Result<Row>)
    ensures r.Ok? <==> PairNames(pairs) <= row.Keys
    ensures r.Ok? ==> r.value.Keys == row.Keys
    ensures r.Ok? ==> forall c | c in row && c !in PairNames(pairs) :: r.value[c] == row[c]
    ensures r.Err? ==> r.error == KeyError
    decreases |pairs|
  {
    if |pairs| == 0 then Ok(row)
    else
      var (c1, c2) := pairs[0];
      assert PairNames(pairs) == {c1, c2} + PairNames(pairs[1..]) by {
        forall c | c in PairNames(pairs) ensures c in {c1, c2} + PairNames(pairs[1..]) {
          var i :| 0 <= i < |pairs| && (c == pairs[i].0 || c == pairs[i].1);
          if i > 0 {
            assert pairs[1..][i - 1] == pairs[i];
          }
        }
        forall c | c in PairNames(pairs[1..]) ensures c in PairNames(pairs) {
          var i :| 0 <= i < |pairs[1..]| && (c == pairs[1..][i].0 || c == pairs[1..][i].1);
          assert pairs[1..][i] == pairs[i + 1];
        }
      }
      if c2 !in row || c1 !in row then Err(KeyError)
      else SwapAll(row[c1 := row[c2]][c2 := row[c1]], pairs[1..])
  }

  /** `swap_values`: swaps the paired columns of a row whose `aainfo` is "root_alt". */
  function SwapValues(row: Row, pairs: seq<SwapPair>): (r: Result<Row>)
    ensures r.Ok? <==> AaInfo in row && (row[AaInfo] == RootAlt ==> PairNames(pairs) <= row.Keys)
    ensures r.Ok? && row[AaInfo] != RootAlt ==> r.value == row
    ensures r.Ok? ==> r.value.Keys == row.Keys
    ensures r.Ok? ==> forall c | c in row && c !in PairNames(pairs) :: r.value[c] == row[c]
    ensures r.Err? ==> r.error == KeyError
  {
    if AaInfo !in row then Err(KeyError)
    else if row[AaInfo] == RootAlt then SwapAll(row, pairs)
    else Ok(row)
  }

  /** With disjoint pairs, every pair of columns has its two values exchanged. */
  lemma {:induction false} SwapAllExchanges(row: Row, pairs: seq<SwapPair>)
    requires DisjointPairs(pairs)
    requires PairNames(pairs) <= row.Keys
    ensures forall i | 0 <= i < |pairs| ::
      SwapAll(row, pairs).value[pairs[i].0] == row[pairs[i].1] &&
      SwapAll(row, pairs).value[pairs[i].1] == row[pairs[i].0]
    decreases |pairs|
  {
    if |pairs| > 0 {
      var (c1, c2) := pairs[0];
      assert c1 in PairNames(pairs) && c2 in PairNames(pairs);
      var row' := row[c1 := row[c2]][c2 := row[c1]];
      var rest := pairs[1..];
      assert DisjointPairs(rest) by {
        forall i, j | 0 <= i < j < |rest| ensures {rest[i].0, rest[i].1} !! {rest[j].0, rest[j].1} {
          assert rest[i] == pairs[i + 1] && rest[j] == pairs[j + 1];
        }
      }
      assert c1 !in PairNames(rest) && c2 !in PairNames(rest) by {
        forall i | 0 <= i < |rest| ensures c1 !in {rest[i].0, rest[i].1} && c2 !in {rest[i].0, rest[i].1} {
          assert rest[i] == pairs[i + 1];
          assert {pairs[0].0, pairs[0].1} !! {pairs[i + 1].0, pairs[i + 1].1};
        }
      }
      assert PairNames(rest) <= row'.Keys by {
        forall c | c in PairNames(rest) ensures c in row' {
          var i :| 0 <= i < |rest| && (c == rest[i].0 || c == rest[i].1);
          assert rest[i] == pairs[i + 1];
          assert c in PairNames(pairs);
        }
      }
      SwapAllExchanges(row', rest);
      forall i | 0 <= i < |pairs|
        ensures SwapAll(row, pairs).value[pairs[i].0] == row[pairs[i].1]
        ensures SwapAll(row, pairs).value[pairs[i].1] == row[pairs[i].0]
      {
        if i > 0 {
          assert pairs[i] == rest[i - 1];
          assert {pairs[0].0, pairs[0].1} !! {pairs[i].0, pairs[i].1};
        }
      }
    }
  }

  /**
   Rooting twice restores the row, provided the pairs are disjoint and do not
   name `aainfo` itself.
   */
  lemma SwapValuesInvolution(row: Row, pairs: seq<SwapPair>)
    requires DisjointPairs(pairs)
    requires AaInfo !in PairNames(pairs)
    requires SwapValues(row, pairs).Ok?
    ensures SwapValues(SwapValues(row, pairs).value, pairs) == Ok(row)
  {
    if row[AaInfo] == RootAlt {
      var once := SwapAll(row, pairs).value;
      SwapAllExchanges(row, pairs);
      SwapAllExchanges(once, pairs);
      var twice := SwapAll(once, pairs).value;
      forall c | c in row ensures twice[c] == row[c] {
        if c in PairNames(pairs) {
          var i :| 0 <= i < |pairs| && (c == pairs[i].0 || c == pairs[i].1);
        }
      }
      assert twice == row;
    }
  }

  /**
   `create_codon_change`: "NA" when either codon is missing, otherwise the two
   codons upper-cased and joined by "->". Both columns are read first, so a
   table without them fails with `KeyError`; a numeric codon has no `upper`
   and fails with `AttributeError`.
   */
  function CreateCodonChange(row: Row): (r: Result<Cell>)
    ensures r.Ok? <==> (RefCodon in row && AltCodon in row &&
      (row[RefCodon].Missing? || row[AltCodon].Missing? || (row[RefCodon].Text? && row[AltCodon].Text?)))
    ensures r.Ok? && (row[RefCodon].Missing? || row[AltCodon].Missing?) ==> r.value == Text("NA")
    ensures r.Ok? && row[RefCodon].Text? && row[AltCodon].Text? ==>
      r.value == Text(Upper(row[RefCodon].s) + "->" + Upper(row[AltCodon].s))
    ensures r.Err? ==> r.error == (if RefCodon !in row || AltCodon !in row then KeyError else AttributeError)
  {
    if RefCodon !in row || AltCodon !in row then Err(KeyError)
    else
      var ref := row[RefCodon];
      var alt := row[AltCodon];
      if ref.Missing? || alt.Missing? then Ok(Text("NA"))
      else if !ref.Text? || !alt.Text? then Err(AttributeError)
      else Ok(Text(Upper(ref.s) + "->" + Upper(alt.s)))
  }

  /**
   A row whose codons are written out in capitals gets the catalog's label
   for that change, and the label is a catalog key exactly when the change is
   synonymous at one nucleotide.
   */
  lemma CodonChangeLabelsCatalog(row: Row, a: Codon, b: Codon)
    requires RefCodon in row && AltCodon in row
    requires row[RefCodon] == Text(CodonString(a)) && row[AltCodon] == Text(CodonString(b))
    ensures CreateCodonChange(row) == Ok(Text(ChangeString(a, b)))
    ensures CreateCodonChange(row).value.s in SynonymousOneNtPairs <==> IsSynonymousOneNt(a, b)
  {
    assert Upper(CodonString(a)) == CodonString(a);
    assert Upper(CodonString(b)) == CodonString(b);
    CatalogMembership(a, b);
  }

  /** `df.apply(swap_values, axis=1)`: every row rooted; the first failing row's error otherwise. */
  function SwapRows(rows: seq<Row>, pairs: seq<SwapPair>): (r: Result<seq<Row>>)
    ensures r.Ok? <==> forall i | 0 <= i < |rows| :: SwapValues(rows[i], pairs).Ok?
    ensures r.Ok? ==> |r.value| == |rows| && forall i | 0 <= i < |rows| :: r.value[i] == SwapValues(rows[i], pairs).value
    ensures r.Err? ==> r.error == KeyError
    decreases |rows|
  {
    if |rows| == 0 then Ok([])
    else
      var first :- SwapValues(rows[0], pairs);
      var rest :- SwapRows(rows[1..], pairs);
      assert forall i | 1 <= i < |rows| :: rows[i] == rows[1..][i - 1];
      Ok([first] + rest)
  }

  /** `df.apply(create_codon_change, axis=1)`: the label of every row; the first failing row's error otherwise. */
  function CodonChanges(rows: seq<Row>): (r: Result<seq<Cell>>)
    ensures r.Ok? <==> forall i | 0 <= i < |rows| :: CreateCodonChange(rows[i]).Ok?
    ensures r.Ok? ==> |r.value| == |rows| && forall i | 0 <= i < |rows| :: r.value[i] == CreateCodonChange(rows[i]).value
    ensures r.Err? ==> exists i | 0 <= i < |rows| ::
      (CreateCodonChange(rows[i]).Err? && r.error == CreateCodonChange(rows[i]).error &&
       forall j | 0 <= j < i :: CreateCodonChange(rows[j]).Ok?)
    decreases |rows|
  {
    if |rows| == 0 then Ok([])
    else
      var first :- CreateCodonChange(rows[0]);
      var rest := CodonChanges(rows[1..]);
      assert forall i | 1 <= i < |rows| :: rows[i] == rows[1..][i - 1];
      if rest.Err? then
        ghost var k :| 0 <= k < |rows[1..]| && CreateCodonChange(rows[1..][k]).Err? && rest.error == CreateCodonChange(rows[1..][k]).error &&
          forall j | 0 <= j < k :: CreateCodonChange(rows[1..][j]).Ok?;
        assert CreateCodonChange(rows[k + 1]).Err?;
        Err(rest.error)
      else
        Ok([first] + rest.value)
  }

  /**
   `process_main_table`: every row rooted, then labelled in a new
   `codon_change` column computed from the rooted codons.
   */
  function ProcessMainTable(rows: seq<Row>, pairs: seq<SwapPair>): (r: Result<seq<Row>>)
    ensures r.Ok? <==> forall i | 0 <= i < |rows| ::
      SwapValues(rows[i], pairs).Ok? && CreateCodonChange(SwapValues(rows[i], pairs).value).Ok?
    ensures r.Ok? ==> |r.value| == |rows|
    ensures r.Ok? ==> forall i | 0 <= i < |rows| ::
      var swapped := SwapValues(rows[i], pairs).value;
      r.value[i] == swapped[CodonChange := CreateCodonChange(swapped).value]
  {
    var swapped :- SwapRows(rows, pairs);
    var labels :- CodonChanges(swapped);
    Ok(seq(|rows|, i requires 0 <= i < |rows| => swapped[i][CodonChange := labels[i]]))
  }

  /** A table that fails does so with `KeyError` when some row lacks a swapped column, before any codon is read. */
  lemma ProcessMainTableSwapFirst(rows: seq<Row>, pairs: seq<SwapPair>, i: nat)
    requires i < |rows| && SwapValues(rows[i], pairs).Err?
    ensures ProcessMainTable(rows, pairs) == Err(KeyError)
  {
  }

  /** Rooting keeps every column the table does not swap, so a row that is not "root_alt" keeps its codons and label inputs. */
  lemma ProcessMainTableKeepsUnrooted(rows: seq<Row>, pairs: seq<SwapPair>, i: nat)
    requires i < |rows| && ProcessMainTable(rows, pairs).Ok?
    requires rows[i][AaInfo] != RootAlt
    ensures ProcessMainTable(rows, pairs).value[i] == rows[i][CodonChange := CreateCodonChange(rows[i]).value]
  {
  }
}
