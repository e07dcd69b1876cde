/**
 The steps of `main` in tsv_to_sfs.py that follow the reading of the rows:
 the rows are grouped by codon pair (field 11) and total count (field 3),
 each row's derived count (field 5) appended to its group; every group's
 list is sorted; the group of "ATT->ATA" is looked up for printing; the
 least and greatest integer total count of each codon pair are computed;
 and each codon pair's groups become a matrix with one row per total count.

 Python dicts keep their keys in insertion order and that order decides
 the order of the matrix rows, so a dict is modelled as the sequence of its
 entries.
 */
module TsvToSfs {
  import opened Basics
  import opened PyStr

  // Field positions in a row.
  const TotalCountIdx := 3
  const DerivedCountIdx := 5
  const CodonPairIdx := 11

  /** The codon pair whose groups `main` prints. */
  const PrintedPair := "ATT->ATA"

  /** A dict with string keys, as its entries in insertion order. */
  type Assoc<V> = seq<(string, V)>

  /** Total count -> derived counts. */
  type Counts = Assoc<seq<string>>

  /** Codon pair -> total count -> derived counts. */
  type Groups = Assoc<Counts>

  function Keys<V>(d: Assoc<V>): (ks: seq<string>)
    ensures |ks| == |d|
    ensures forall i | 0 <= i < |d| :: ks[i] == d[i].0
  {
    seq(|d|, i requires 0 <= i < |d| => d[i].0)
  }

  predicate DistinctKeys<V>(d: Assoc<V>) {
    forall i, j | 0 <= i < j < |d| :: d[i].0 != d[j].0
  }

  /** The position of the first `k` in `ks`, or `|ks|` when there is none. */
  function IndexIn(ks: seq<string>, k: string): (i: nat)
    ensures i <= |ks|
    ensures i < |ks| ==> ks[i] == k
    ensures forall j | 0 <= j < i :: ks[j] != k
  {
    if |ks| == 0 then 0
    else if ks[0] == k then 0
    else 1 + IndexIn(ks[1..], k)
  }

  /** The value under `k`, if `k` is a key. */
  function Find<V>(d: Assoc<V>, k: string): (r: Option<V>)
    ensures r.Some? <==> k in Keys(d)
  {
    var i := IndexIn(Keys(d), k);
    if i < |d| then Some(d[i].1) else None
  }

  /** `d.get(k, default)`. */
  function Get<V>(d: Assoc<V>, k: string, default: V): V {
    if Find(d, k).Some? then Find(d, k).value else default
  }

  /** `d[k]`, which raises `KeyError` when `k` is not a key. */
  function Lookup<V>(d: Assoc<V>, k: string): (r: Result<V>)
    ensures r.Ok? <==> k in Keys(d)
    ensures r.Err? ==> r.error == KeyError
    ensures r.Ok? ==> Find(d, k) == Some(r.value)
  {
    var i := IndexIn(Keys(d), k);
    if i < |d| then Ok(d[i].1) else Err(KeyError)
  }

  /** `d[k] = v`. */
  function Put<V>(d: Assoc<V>, k: string, v: V): Assoc<V> {
    var i := IndexIn(Keys(d), k);
    if i < |d| then d[i := (k, v)] else d + [(k, v)]
  }

  /** Storing under a key already there keeps every key in its place; a new key goes last. */
  lemma KeysPut<V>(d: Assoc<V>, k: string, v: V)
    ensures Keys(Put(d, k, v)) == if k in Keys(d) then Keys(d) else Keys(d) + [k]
  {
    var i := IndexIn(Keys(d), k);
    if i < |d| {
      assert Keys(Put(d, k, v)) == Keys(d);
    } else {
      assert Keys(Put(d, k, v)) == Keys(d) + [k];
    }
  }

  /** After `d[k] = v`, `k` gives `v` and every other key gives what it gave before. */
  lemma FindPut<V>(d: Assoc<V>, k: string, v: V, k': string)
    ensures Find(Put(d, k, v), k') == if k' == k then Some(v) else Find(d, k')
  {
    KeysPut(d, k, v);
    var r := Put(d, k, v);
    if k !in Keys(d) {
      IndexInAppend(Keys(d), k, k');
    }
  }

  /** Appending a key moves no earlier key's position, and a new key is found at the end. */
  lemma {:induction false} IndexInAppend(ks: seq<string>, k: string, k': string)
    ensures IndexIn(ks + [k], k') == if k' in ks then IndexIn(ks, k') else if k' == k then |ks| else |ks| + 1
    decreases |ks|
  {
    if |ks| > 0 {
      assert (ks + [k])[1..] == ks[1..] + [k];
      IndexInAppend(ks[1..], k, k');
    }
  }

  /** Every row has a codon-pair field, the last one `main` reads. */
  predicate AllRowsLongEnough(rows: seq<seq<string>>) {
    forall i | 0 <= i < |rows| :: |rows[i]| > CodonPairIdx
  }

  /** The loop body: the row's derived count goes last in the list of its codon pair and total count. */
  function AddRow(g: Groups, row: seq<string>): Groups
    requires |row| > CodonPairIdx
  {
    var pair, total := row[CodonPairIdx], row[TotalCountIdx];
    var inner := Get(g, pair, []);
    Put(g, pair, Put(inner, total, Get(inner, total, []) + [row[DerivedCountIdx]]))
  }

  /** The grouping loop over all rows; a row too short for field 11 raises `IndexError`. */
  function GroupRows(rows: seq<seq<string>>): (r: Result<Groups>)
    ensures r.Ok? <==> AllRowsLongEnough(rows)
    ensures r.Err? ==> r.error == IndexError
    decreases |rows|
  {
    if |rows| == 0 then Ok([])
    else
      var init := rows[..|rows| - 1];
      assert forall i | 0 <= i < |init| :: init[i] == rows[i];
      var g :- GroupRows(init);
      var row := rows[|rows| - 1];
      if |row| <= CodonPairIdx then Err(IndexError) else Ok(AddRow(g, row))
  }

  /** The elements of `xs` in order of first occurrence: the order in which a dict first sees them as keys. */
  function Dedup(xs: seq<string>): (ys: seq<string>)
    ensures forall x :: x in ys <==> x in xs
    ensures forall i, j | 0 <= i < j < |ys| :: ys[i] != ys[j]
  {
    if |xs| == 0 then []
    else
      var ys := Dedup(xs[..|xs| - 1]);
      var x := xs[|xs| - 1];
      assert xs == xs[..|xs| - 1] + [x];
      if x in ys then ys else ys + [x]
  }

  lemma DedupSnoc(xs: seq<string>, x: string)
    ensures Dedup(xs + [x]) == if x in Dedup(xs) then Dedup(xs) else Dedup(xs) + [x]
  {
    assert (xs + [x])[..|xs|] == xs;
  }

  /** The codon pairs of the rows, in row order. */
  function PairColumn(rows: seq<seq<string>>): (ps: seq<string>)
    requires AllRowsLongEnough(rows)
    ensures |ps| == |rows|
    ensures forall i | 0 <= i < |rows| :: ps[i] == rows[i][CodonPairIdx]
  {
    seq(|rows|, i requires 0 <= i < |rows| => rows[i][CodonPairIdx])
  }

  lemma PairColumnSnoc(rows: seq<seq<string>>)
    requires |rows| > 0 && AllRowsLongEnough(rows)
    ensures AllRowsLongEnough(rows[..|rows| - 1])
    ensures PairColumn(rows) == PairColumn(rows[..|rows| - 1]) + [rows[|rows| - 1][CodonPairIdx]]
  {
    assert forall i | 0 <= i < |rows| - 1 :: rows[..|rows| - 1][i] == rows[i];
  }

  /** The total counts of the rows with codon pair `pair`, in row order. */
  function TotalsOf(rows: seq<seq<string>>, pair: string): seq<string>
    requires AllRowsLongEnough(rows)
    decreases |rows|
  {
    if |rows| == 0 then []
    else
      var row := rows[|rows| - 1];
      TotalsOf(rows[..|rows| - 1], pair) + (if row[CodonPairIdx] == pair then [row[TotalCountIdx]] else [])
  }

  /** The derived counts of the rows with codon pair `pair` and total count `total`, in row order. */
  function Collected(rows: seq<seq<string>>, pair: string, total: string): seq<string>
    requires AllRowsLongEnough(rows)
    decreases |rows|
  {
    if |rows| == 0 then []
    else
      var row := rows[|rows| - 1];
      Collected(rows[..|rows| - 1], pair, total) +
        (if row[CodonPairIdx] == pair && row[TotalCountIdx] == total then [row[DerivedCountIdx]] else [])
  }

  /** The last row is added to what the rows before it built. */
  lemma GroupRowsLast(rows: seq<seq<string>>)
    requires |rows| > 0 && AllRowsLongEnough(rows)
    ensures var init := rows[..|rows| - 1];
      && AllRowsLongEnough(init)
      && GroupRows(rows).value == AddRow(GroupRows(init).value, rows[|rows| - 1])
  {
    var init := rows[..|rows| - 1];
    assert forall i | 0 <= i < |init| :: init[i] == rows[i];
  }

  /** The codon pairs become keys in order of first occurrence. */
  lemma {:induction false} GroupRowsPairs(rows: seq<seq<string>>)
    requires AllRowsLongEnough(rows)
    ensures Keys(GroupRows(rows).value) == Dedup(PairColumn(rows))
    decreases |rows|
  {
    if |rows| > 0 {
      var init := rows[..|rows| - 1];
      var row := rows[|rows| - 1];
      GroupRowsLast(rows);
      GroupRowsPairs(init);
      var g0 := GroupRows(init).value;
      var pair, total := row[CodonPairIdx], row[TotalCountIdx];
      var inner := Get(g0, pair, []);
      KeysPut(g0, pair, Put(inner, total, Get(inner, total, []) + [row[DerivedCountIdx]]));
      PairColumnSnoc(rows);
      DedupSnoc(PairColumn(init), pair);
    }
  }

  /** Under each codon pair, the total counts of its rows become keys in order of first occurrence. */
  lemma {:induction false} GroupRowsTotals(rows: seq<seq<string>>, p: string)
    requires AllRowsLongEnough(rows)
    ensures Keys(Get(GroupRows(rows).value, p, [])) == Dedup(TotalsOf(rows, p))
    decreases |rows|
  {
    if |rows| > 0 {
      var init := rows[..|rows| - 1];
      var row := rows[|rows| - 1];
      GroupRowsLast(rows);
      GroupRowsTotals(init, p);
      var g0 := GroupRows(init).value;
      var pair, total := row[CodonPairIdx], row[TotalCountIdx];
      var inner := Get(g0, pair, []);
      var list := Get(inner, total, []) + [row[DerivedCountIdx]];
      FindPut(g0, pair, Put(inner, total, list), p);
      if p == pair {
        var before := TotalsOf(init, p);
        assert Keys(inner) == Dedup(before);
        assert Get(GroupRows(rows).value, p, []) == Put(inner, total, list);
        KeysPut(inner, total, list);
        assert TotalsOf(rows, p) == before + [total];
        DedupSnoc(before, total);
        if total in Dedup(before) {
          assert Keys(Put(inner, total, list)) == Dedup(before + [total]);
        } else {
          assert Keys(Put(inner, total, list)) == Dedup(before + [total]);
        }
      } else {
        assert Get(GroupRows(rows).value, p, []) == Get(g0, p, []);
        assert TotalsOf(rows, p) == TotalsOf(init, p) + [];
        assert TotalsOf(rows, p) == TotalsOf(init, p);
      }
    }
  }

  /** Each group holds the derived counts of exactly the rows with its codon pair and total count, in row order. */
  lemma {:induction false} GroupRowsCollects(rows: seq<seq<string>>, p: string, t: string)
    requires AllRowsLongEnough(rows)
    ensures Get(Get(GroupRows(rows).value, p, []), t, []) == Collected(rows, p, t)
    decreases |rows|
  {
    if |rows| > 0 {
      var init := rows[..|rows| - 1];
      var row := rows[|rows| - 1];
      GroupRowsLast(rows);
      GroupRowsCollects(init, p, t);
      var g0 := GroupRows(init).value;
      var pair, total := row[CodonPairIdx], row[TotalCountIdx];
      var inner := Get(g0, pair, []);
      var list := Get(inner, total, []) + [row[DerivedCountIdx]];
      FindPut(g0, pair, Put(inner, total, list), p);
      if p == pair {
        FindPut(inner, total, list, t);
      }
    }
  }

  /** The characterisations above name real rows: a total count is listed under a pair exactly when some row has both. */
  lemma {:induction false} TotalsOfMembers(rows: seq<seq<string>>, p: string, t: string)
    requires AllRowsLongEnough(rows)
    ensures t in TotalsOf(rows, p) <==> exists k | 0 <= k < |rows| :: rows[k][CodonPairIdx] == p && rows[k][TotalCountIdx] == t
    decreases |rows|
  {
    if |rows| > 0 {
      var init := rows[..|rows| - 1];
      assert forall k | 0 <= k < |init| :: init[k] == rows[k];
      TotalsOfMembers(init, p, t);
    }
  }

  /** With no earlier entry under the same key, the entry at position `i` is what its key finds. */
  lemma FindAt<V>(d: Assoc<V>, i: nat)
    requires i < |d|
    requires forall j | 0 <= j < i :: d[j].0 != d[i].0
    ensures Find(d, d[i].0) == Some(d[i].1)
  {
    var r := IndexIn(Keys(d), d[i].0);
    assert Keys(d)[i] == d[i].0;
  }

  // Sizes: how many derived counts a map holds.

  function SumNat(xs: seq<nat>): nat
    decreases |xs|
  {
    if |xs| == 0 then 0 else SumNat(xs[..|xs| - 1]) + xs[|xs| - 1]
  }

  lemma SumNatSnoc(xs: seq<nat>, v: nat)
    ensures SumNat(xs + [v]) == SumNat(xs) + v
  {
    assert (xs + [v])[..|xs|] == xs;
  }

  lemma {:induction false} SumNatUpdate(xs: seq<nat>, i: nat, v: nat)
    requires i < |xs|
    ensures SumNat(xs[i := v]) + xs[i] == SumNat(xs) + v
    decreases |xs|
  {
    var n := |xs| - 1;
    if i < n {
      assert xs[i := v][..n] == xs[..n][i := v];
      SumNatUpdate(xs[..n], i, v);
    } else {
      assert xs[i := v][..n] == xs[..n];
    }
  }

  function ListSizes(inner: Counts): seq<nat> {
    seq(|inner|, j requires 0 <= j < |inner| => |inner[j].1|)
  }

  /** The number of derived counts held under one codon pair. */
  function CountsSize(inner: Counts): nat {
    SumNat(ListSizes(inner))
  }

  function GroupSizes(g: Groups): seq<nat> {
    seq(|g|, i requires 0 <= i < |g| => CountsSize(g[i].1))
  }

  /** The number of derived counts held in all groups. */
  function Entries(g: Groups): nat {
    SumNat(GroupSizes(g))
  }

  /** Storing a list under a total count changes the size by the difference between the new list and the old one. */
  lemma CountsSizePut(inner: Counts, k: string, l: seq<string>)
    ensures CountsSize(Put(inner, k, l)) + |Get(inner, k, [])| == CountsSize(inner) + |l|
  {
    var i := IndexIn(Keys(inner), k);
    if i < |inner| {
      assert ListSizes(Put(inner, k, l)) == ListSizes(inner)[i := |l|];
      SumNatUpdate(ListSizes(inner), i, |l|);
    } else {
      assert ListSizes(Put(inner, k, l)) == ListSizes(inner) + [|l|];
      SumNatSnoc(ListSizes(inner), |l|);
    }
  }

  lemma EntriesPut(g: Groups, k: string, c: Counts)
    ensures Entries(Put(g, k, c)) + CountsSize(Get(g, k, [])) == Entries(g) + CountsSize(c)
  {
    var i := IndexIn(Keys(g), k);
    if i < |g| {
      assert GroupSizes(Put(g, k, c)) == GroupSizes(g)[i := CountsSize(c)];
      SumNatUpdate(GroupSizes(g), i, CountsSize(c));
    } else {
      assert GroupSizes(Put(g, k, c)) == GroupSizes(g) + [CountsSize(c)];
      SumNatSnoc(GroupSizes(g), CountsSize(c));
      assert ListSizes([]) == [];
    }
  }

  /** Every row puts exactly one derived count into exactly one group: nothing is lost or duplicated. */
  lemma {:induction false} GroupRowsEntries(rows: seq<seq<string>>)
    requires AllRowsLongEnough(rows)
    ensures Entries(GroupRows(rows).value) == |rows|
    decreases |rows|
  {
    if |rows| == 0 {
      assert GroupSizes([]) == [];
    } else {
      var init := rows[..|rows| - 1];
      var row := rows[|rows| - 1];
      GroupRowsLast(rows);
      GroupRowsEntries(init);
      var g0 := GroupRows(init).value;
      var pair, total := row[CodonPairIdx], row[TotalCountIdx];
      var inner := Get(g0, pair, []);
      var list := Get(inner, total, []) + [row[DerivedCountIdx]];
      CountsSizePut(inner, total, list);
      EntriesPut(g0, pair, Put(inner, total, list));
    }
  }

  // Sorting: `sorted` on the derived counts, which are strings.

  predicate Ascending(s: seq<string>) {
    forall i | 0 < i < |s| :: StrLessEq(s[i - 1], s[i])
  }

  /** Inserting into an ascending list keeps it ascending and adds exactly one element. */
  function Insert(x: string, s: seq<string>): (r: seq<string>)
    requires Ascending(s)
    ensures Ascending(r)
    ensures multiset(r) == multiset(s) + multiset{x}
    ensures |r| == |s| + 1 && (r[0] == x || (|s| > 0 && r[0] == s[0]))
    decreases |s|
  {
    if |s| == 0 || StrLessEq(x, s[0]) then [x] + s
    else
      StrLessEqTotal(x, s[0]);
      assert s == [s[0]] + s[1..];
      [s[0]] + Insert(x, s[1..])
  }

  /** `sorted(xs)`: an ascending permutation of `xs`. */
  function SortStrings(xs: seq<string>): (r: seq<string>)
    ensures Ascending(r)
    ensures multiset(r) == multiset(xs)
    decreases |xs|
  {
    if |xs| == 0 then []
    else
      assert xs == [xs[0]] + xs[1..];
      Insert(xs[0], SortStrings(xs[1..]))
  }

  lemma {:induction false} AscendingPairwise(s: seq<string>, i: nat, j: nat)
    requires Ascending(s) && i <= j < |s|
    ensures StrLessEq(s[i], s[j])
    decreases j - i
  {
    if i == j {
      StrLessEqTotal(s[i], s[i]);
    } else {
      AscendingPairwise(s, i, j - 1);
      StrLessEqTransitive(s[i], s[j - 1], s[j]);
    }
  }

  /** The first element of an ascending list is its least element, so two ascending permutations start alike. */
  lemma AscendingHeads(a: seq<string>, b: seq<string>)
    requires Ascending(a) && Ascending(b) && multiset(a) == multiset(b) && |a| > 0
    ensures |b| > 0 && a[0] == b[0]
  {
    assert a[0] in multiset(b);
    var k :| 0 <= k < |b| && b[k] == a[0];
    assert b[0] in multiset(a);
    var m :| 0 <= m < |a| && a[m] == b[0];
    AscendingPairwise(b, 0, k);
    AscendingPairwise(a, 0, m);
    StrLessEqAntisymmetric(a[0], b[0]);
  }

  lemma TailMultiset(a: seq<string>)
    requires |a| > 0
    ensures multiset(a[1..]) == multiset(a) - multiset{a[0]}
  {
    assert a == [a[0]] + a[1..];
  }

  /**
   There is only one ascending arrangement of a multiset of strings, so
   any sort, stable or not, gives what `sorted` gives.
   */
  lemma {:induction false} AscendingUnique(a: seq<string>, b: seq<string>)
    requires Ascending(a) && Ascending(b) && multiset(a) == multiset(b)
    ensures a == b
    decreases |a|
  {
    assert |a| == |multiset(a)| == |multiset(b)| == |b|;
    if |a| > 0 {
      AscendingHeads(a, b);
      TailMultiset(a);
      TailMultiset(b);
      assert Ascending(a[1..]) by {
        forall i | 0 < i < |a[1..]| ensures StrLessEq(a[1..][i - 1], a[1..][i]) {
          assert a[1..][i - 1] == a[i] && a[1..][i] == a[i + 1];
        }
      }
      assert Ascending(b[1..]) by {
        forall i | 0 < i < |b[1..]| ensures StrLessEq(b[1..][i - 1], b[1..][i]) {
          assert b[1..][i - 1] == b[i] && b[1..][i] == b[i + 1];
        }
      }
      AscendingUnique(a[1..], b[1..]);
      assert a == [a[0]] + a[1..] && b == [b[0]] + b[1..];
    }
  }

  /** Sorting each list of a total-count map; the keys and their order stay. */
  function SortCounts(inner: Counts): (r: Counts)
    ensures Keys(r) == Keys(inner)
  {
    var r := seq(|inner|, j requires 0 <= j < |inner| => (inner[j].0, SortStrings(inner[j].1)));
    assert Keys(r) == Keys(inner);
    r
  }

  /** The sorting loop: every group's list sorted, codon pairs and total counts in place. */
  function SortGroups(g: Groups): (r: Groups)
    ensures Keys(r) == Keys(g)
  {
    var r := seq(|g|, i requires 0 <= i < |g| => (g[i].0, SortCounts(g[i].1)));
    assert Keys(r) == Keys(g);
    r
  }

  /** After sorting, each group holds its old list in ascending order, and the total counts are where they were. */
  lemma SortGroupsFind(g: Groups, p: string, t: string)
    ensures Keys(Get(SortGroups(g), p, [])) == Keys(Get(g, p, []))
    ensures Get(Get(SortGroups(g), p, []), t, []) == SortStrings(Get(Get(g, p, []), t, []))
  {
    var i := IndexIn(Keys(g), p);
    if i < |g| {
      var inner := g[i].1;
      var j := IndexIn(Keys(inner), t);
      assert Get(SortGroups(g), p, []) == SortCounts(inner);
    } else {
      assert Get(SortGroups(g), p, []) == [];
      assert SortStrings([]) == [];
    }
  }

  /** Sorting neither adds nor drops a derived count. */
  lemma SortGroupsEntries(g: Groups)
    ensures Entries(SortGroups(g)) == Entries(g)
  {
    var r := SortGroups(g);
    forall i | 0 <= i < |g| ensures CountsSize(r[i].1) == CountsSize(g[i].1) {
      var inner := g[i].1;
      forall j | 0 <= j < |inner| ensures |r[i].1[j].1| == |inner[j].1| {
        assert |multiset(r[i].1[j].1)| == |multiset(inner[j].1)|;
      }
      assert ListSizes(r[i].1) == ListSizes(inner);
    }
    assert GroupSizes(r) == GroupSizes(g);
  }

  // The least and greatest total count of each codon pair.

  /** `int(k)` for every key, in order; the first one that is not an integer raises `ValueError`. */
  function ParseAll(ks: seq<string>): (r: Result<seq<int>>)
    ensures r.Ok? <==> forall i | 0 <= i < |ks| :: ParseInt(ks[i]).Ok?
    ensures r.Err? ==> r.error == ValueError
    ensures r.Ok? ==> |r.value| == |ks| && forall i | 0 <= i < |ks| :: ParseInt(ks[i]) == Ok(r.value[i])
    decreases |ks|
  {
    if |ks| == 0 then Ok([])
    else
      assert forall i | 1 <= i < |ks| :: ks[i] == ks[1..][i - 1];
      var v :- ParseInt(ks[0]);
      var rest :- ParseAll(ks[1..]);
      Ok([v] + rest)
  }

  /** `max(xs)`. */
  function MaxOf(xs: seq<int>): (m: int)
    requires |xs| > 0
    ensures m in xs
    ensures forall i | 0 <= i < |xs| :: xs[i] <= m
  {
    if |xs| == 1 then xs[0]
    else
      var m := MaxOf(xs[1..]);
      assert forall i | 1 <= i < |xs| :: xs[i] == xs[1..][i - 1];
      if xs[0] >= m then xs[0] else m
  }

  /** `min(xs)`. */
  function MinOf(xs: seq<int>): (m: int)
    requires |xs| > 0
    ensures m in xs
    ensures forall i | 0 <= i < |xs| :: m <= xs[i]
  {
    if |xs| == 1 then xs[0]
    else
      var m := MinOf(xs[1..]);
      assert forall i | 1 <= i < |xs| :: xs[i] == xs[1..][i - 1];
      if xs[0] <= m then xs[0] else m
  }

  /**
   The least and greatest integer total count of one codon pair, or `None`
   when it has none; a total count that is not an integer raises
   `ValueError`.
   */
  function TotalCountRange(inner: Counts): (r: Result<Option<(int, int)>>)
    ensures r.Ok? <==> forall j | 0 <= j < |inner| :: ParseInt(inner[j].0).Ok?
    ensures r.Err? ==> r.error == ValueError
    ensures r.Ok? ==> (r.value.None? <==> |inner| == 0)
    ensures r.Ok? && r.value.Some? ==>
      var (lo, hi) := r.value.value;
      && lo <= hi
      && (exists j | 0 <= j < |inner| :: ParseInt(inner[j].0) == Ok(lo))
      && (exists j | 0 <= j < |inner| :: ParseInt(inner[j].0) == Ok(hi))
      && forall j | 0 <= j < |inner| :: lo <= ParseInt(inner[j].0).value <= hi
  {
    if |inner| == 0 then Ok(None)
    else
      var vs :- ParseAll(Keys(inner));
      var lo, hi := MinOf(vs), MaxOf(vs);
      assert forall j | 0 <= j < |inner| :: ParseInt(inner[j].0).value == vs[j];
      Ok(Some((lo, hi)))
  }

  /** The range loop over every codon pair, in key order. */
  function TotalCountRanges(g: Groups): (r: Result<seq<(string, Option<(int, int)>)>>)
    ensures r.Ok? <==> forall i | 0 <= i < |g| :: TotalCountRange(g[i].1).Ok?
    ensures r.Err? ==> r.error == ValueError
    ensures r.Ok? ==> |r.value| == |g|
    ensures r.Ok? ==> forall i | 0 <= i < |g| :: r.value[i].0 == g[i].0 && TotalCountRange(g[i].1) == Ok(r.value[i].1)
    decreases |g|
  {
    if |g| == 0 then Ok([])
    else
      assert forall i | 1 <= i < |g| :: g[i] == g[1..][i - 1];
      var first :- TotalCountRange(g[0].1);
      var rest :- TotalCountRanges(g[1..]);
      Ok([(g[0].0, first)] + rest)
  }

  // The matrices.

  /** One codon pair's matrix: one row per total count, in key order, each the list stored under it. */
  function ToMatrix(inner: Counts): (m: seq<seq<string>>)
    ensures |m| == |inner|
  {
    seq(|inner|, j requires 0 <= j < |inner| => inner[j].1)
  }

  /** The matrix loop: every codon pair's total-count map replaced by its matrix, pairs in key order. */
  function Matrices(g: Groups): (ms: seq<(string, seq<seq<string>>)>)
    ensures |ms| == |g|
  {
    seq(|g|, i requires 0 <= i < |g| => (g[i].0, ToMatrix(g[i].1)))
  }

  /** The number of derived counts in all matrices. */
  function Cells(ms: seq<(string, seq<seq<string>>)>): nat {
    SumNat(seq(|ms|, i requires 0 <= i < |ms| => SumNat(seq(|ms[i].1|, j requires 0 <= j < |ms[i].1| => |ms[i].1[j]|))))
  }

  /** The matrices keep the codon pairs in order and every derived count. */
  lemma MatricesKeepEntries(g: Groups)
    ensures Keys(Matrices(g)) == Keys(g)
    ensures Cells(Matrices(g)) == Entries(g)
  {
    var ms := Matrices(g);
    assert Keys(ms) == Keys(g);
    var outer := seq(|ms|, i requires 0 <= i < |ms| => SumNat(seq(|ms[i].1|, j requires 0 <= j < |ms[i].1| => |ms[i].1[j]|)));
    forall i | 0 <= i < |g| ensures outer[i] == CountsSize(g[i].1) {
      assert seq(|ms[i].1|, j requires 0 <= j < |ms[i].1| => |ms[i].1[j]|) == ListSizes(g[i].1);
    }
    assert outer == GroupSizes(g);
  }

  /** Sorting the lists does not touch the total counts, so the ranges stay the same. */
  lemma SortGroupsRanges(g: Groups, i: nat)
    requires i < |g|
    ensures i < |SortGroups(g)| && SortGroups(g)[i].0 == g[i].0
    ensures TotalCountRange(SortGroups(g)[i].1) == TotalCountRange(g[i].1)
  {
    assert SortGroups(g)[i].1 == SortCounts(g[i].1);
  }

  // Lines 106-151 of `main` as one function.

  /**
   From the rows to the matrices: group, sort, look up the printed pair,
   compute the ranges, build the matrices. Each step that can raise stops
   the run with its error.
   */
  function SfsMatrices(rows: seq<seq<string>>): (r: Result<seq<(string, seq<seq<string>>)>>)
    ensures r.Err? ==> r.error == IndexError || r.error == KeyError || r.error == ValueError
  {
    var g :- GroupRows(rows);
    var sorted := SortGroups(g);
    var printed :- Lookup(sorted, PrintedPair);
    var ranges :- TotalCountRanges(sorted);
    Ok(Matrices(sorted))
  }

  /** The grouped codon pairs have distinct keys, and each pair's total counts are distinct too. */
  lemma GroupedEntry(rows: seq<seq<string>>, i: nat)
    requires AllRowsLongEnough(rows)
    requires i < |GroupRows(rows).value|
    ensures var g := GroupRows(rows).value;
      && g[i].0 in PairColumn(rows)
      && Get(g, g[i].0, []) == g[i].1
      && Keys(g[i].1) == Dedup(TotalsOf(rows, g[i].0))
  {
    var g := GroupRows(rows).value;
    GroupRowsPairs(rows);
    assert Keys(g)[i] == g[i].0;
    FindAt(g, i);
    GroupRowsTotals(rows, g[i].0);
  }

  /** Every total count used as a key is some row's total count, and every row's total count is used as a key. */
  lemma GroupedTotalsParse(rows: seq<seq<string>>)
    requires AllRowsLongEnough(rows)
    ensures var g := GroupRows(rows).value;
      (forall i | 0 <= i < |g| :: TotalCountRange(g[i].1).Ok?) <==>
      (forall k | 0 <= k < |rows| :: ParseInt(rows[k][TotalCountIdx]).Ok?)
  {
    var g := GroupRows(rows).value;
    if forall k | 0 <= k < |rows| :: ParseInt(rows[k][TotalCountIdx]).Ok? {
      forall i, j | 0 <= i < |g| && 0 <= j < |g[i].1| ensures ParseInt(g[i].1[j].0).Ok? {
        GroupedEntry(rows, i);
        var t := g[i].1[j].0;
        assert Keys(g[i].1)[j] == t;
        TotalsOfMembers(rows, g[i].0, t);
      }
    } else {
      var k :| 0 <= k < |rows| && !ParseInt(rows[k][TotalCountIdx]).Ok?;
      var p, t := rows[k][CodonPairIdx], rows[k][TotalCountIdx];
      GroupRowsPairs(rows);
      assert PairColumn(rows)[k] == p;
      assert p in Keys(g);
      var i :| 0 <= i < |g| && Keys(g)[i] == p;
      GroupedEntry(rows, i);
      TotalsOfMembers(rows, p, t);
      assert t in Keys(g[i].1);
      var j :| 0 <= j < |g[i].1| && Keys(g[i].1)[j] == t;
      assert !TotalCountRange(g[i].1).Ok?;
    }
  }

  /**
   How the run ends: `IndexError` when a row is shorter than twelve fields,
   else `KeyError` when no row has the codon pair "ATT->ATA", else
   `ValueError` when some total count is not an integer, else the matrices.
   */
  lemma SfsMatricesOutcome(rows: seq<seq<string>>)
    ensures !AllRowsLongEnough(rows) ==> SfsMatrices(rows) == Err(IndexError)
    ensures AllRowsLongEnough(rows) && PrintedPair !in PairColumn(rows) ==> SfsMatrices(rows) == Err(KeyError)
    ensures AllRowsLongEnough(rows) && PrintedPair in PairColumn(rows) ==>
      (SfsMatrices(rows).Ok? <==> forall k | 0 <= k < |rows| :: ParseInt(rows[k][TotalCountIdx]).Ok?)
    ensures AllRowsLongEnough(rows) && PrintedPair in PairColumn(rows) && SfsMatrices(rows).Err? ==>
      SfsMatrices(rows).error == ValueError
  {
    if AllRowsLongEnough(rows) {
      var g := GroupRows(rows).value;
      var sorted := SortGroups(g);
      GroupRowsPairs(rows);
      GroupedTotalsParse(rows);
      forall i | 0 <= i < |g| ensures TotalCountRange(sorted[i].1) == TotalCountRange(g[i].1) {
        SortGroupsRanges(g, i);
      }
      assert TotalCountRanges(sorted).Ok? <==> forall k | 0 <= k < |rows| :: ParseInt(rows[k][TotalCountIdx]).Ok?;
    }
  }

  /**
   What the run returns: one matrix per codon pair, in order of first
   occurrence; its rows follow that pair's total counts in order of first
   occurrence, and each row is the sorted list of the derived counts of
   exactly the rows with that pair and total count. No derived count is
   lost or duplicated.
   */
  lemma SfsMatricesContents(rows: seq<seq<string>>)
    requires AllRowsLongEnough(rows) && PrintedPair in PairColumn(rows)
    requires forall k | 0 <= k < |rows| :: ParseInt(rows[k][TotalCountIdx]).Ok?
    ensures SfsMatrices(rows).Ok?
    ensures var ms := SfsMatrices(rows).value;
      && Keys(ms) == Dedup(PairColumn(rows))
      && (forall i | 0 <= i < |ms| :: |ms[i].1| == |Dedup(TotalsOf(rows, ms[i].0))|)
      && (forall i, j | 0 <= i < |ms| && 0 <= j < |ms[i].1| ::
            ms[i].1[j] == SortStrings(Collected(rows, ms[i].0, Dedup(TotalsOf(rows, ms[i].0))[j])))
      && Cells(ms) == |rows|
  {
    SfsMatricesOutcome(rows);
    assert SfsMatrices(rows).value == Matrices(SortGroups(GroupRows(rows).value));
    GroupedMatrices(rows);
  }

  /** The matrices built from the grouped rows, whether or not the printed pair and the counts are there. */
  lemma GroupedMatrices(rows: seq<seq<string>>)
    requires AllRowsLongEnough(rows)
    ensures var ms := Matrices(SortGroups(GroupRows(rows).value));
      && Keys(ms) == Dedup(PairColumn(rows))
      && (forall i | 0 <= i < |ms| :: |ms[i].1| == |Dedup(TotalsOf(rows, ms[i].0))|)
      && (forall i, j | 0 <= i < |ms| && 0 <= j < |ms[i].1| ::
            ms[i].1[j] == SortStrings(Collected(rows, ms[i].0, Dedup(TotalsOf(rows, ms[i].0))[j])))
      && Cells(ms) == |rows|
  {
    var g := GroupRows(rows).value;
    var sorted := SortGroups(g);
    var ms := Matrices(sorted);
    GroupRowsPairs(rows);
    MatricesKeepEntries(sorted);
    SortGroupsEntries(g);
    GroupRowsEntries(rows);
    forall i | 0 <= i < |ms|
      ensures |ms[i].1| == |Dedup(TotalsOf(rows, ms[i].0))|
      ensures forall j | 0 <= j < |ms[i].1| ::
        ms[i].1[j] == SortStrings(Collected(rows, ms[i].0, Dedup(TotalsOf(rows, ms[i].0))[j]))
    {
      GroupedEntry(rows, i);
      var p, inner := g[i].0, g[i].1;
      assert ms[i].0 == p;
      forall j | 0 <= j < |inner|
        ensures ms[i].1[j] == SortStrings(Collected(rows, p, Dedup(TotalsOf(rows, p))[j]))
      {
        var t := inner[j].0;
        assert Keys(inner)[j] == t;
        FindAt(inner, j);
        GroupRowsCollects(rows, p, t);
      }
    }
  }

  /** The range of one grouped codon pair, read off the rows. */
  lemma PairRangeFromRows(rows: seq<seq<string>>, i: nat)
    requires AllRowsLongEnough(rows)
    requires forall k | 0 <= k < |rows| :: ParseInt(rows[k][TotalCountIdx]).Ok?
    requires i < |GroupRows(rows).value|
    ensures var p := GroupRows(rows).value[i].0;
      var r := TotalCountRange(GroupRows(rows).value[i].1);
      && r.Ok? && r.value.Some?
      && RangeOfRows(rows, p, r.value.value.0, r.value.value.1)
  {
    var g := GroupRows(rows).value;
    GroupedTotalsParse(rows);
    GroupedEntry(rows, i);
    var p, inner := g[i].0, g[i].1;
    var k0 :| 0 <= k0 < |rows| && PairColumn(rows)[k0] == p;
    TotalsOfMembers(rows, p, rows[k0][TotalCountIdx]);
    assert rows[k0][TotalCountIdx] in Keys(inner);
    var (lo, hi) := TotalCountRange(inner).value.value;
    var jl :| 0 <= jl < |inner| && ParseInt(inner[jl].0) == Ok(lo);
    var jh :| 0 <= jh < |inner| && ParseInt(inner[jh].0) == Ok(hi);
    assert Keys(inner)[jl] == inner[jl].0 && Keys(inner)[jh] == inner[jh].0;
    TotalsOfMembers(rows, p, inner[jl].0);
    TotalsOfMembers(rows, p, inner[jh].0);
    forall k | 0 <= k < |rows| && rows[k][CodonPairIdx] == p
      ensures lo <= ParseInt(rows[k][TotalCountIdx]).value <= hi
    {
      TotalsOfMembers(rows, p, rows[k][TotalCountIdx]);
      var j :| 0 <= j < |inner| && Keys(inner)[j] == rows[k][TotalCountIdx];
    }
  }

  /**
   `lo` and `hi` are the least and greatest integer total count among the
   rows with codon pair `p`, each the total count of some such row.
   */
  ghost predicate RangeOfRows(rows: seq<seq<string>>, p: string, lo: int, hi: int)
    requires AllRowsLongEnough(rows)
  {
    && lo <= hi
    && (exists k | 0 <= k < |rows| :: rows[k][CodonPairIdx] == p && ParseInt(rows[k][TotalCountIdx]) == Ok(lo))
    && (exists k | 0 <= k < |rows| :: rows[k][CodonPairIdx] == p && ParseInt(rows[k][TotalCountIdx]) == Ok(hi))
    && forall k | 0 <= k < |rows| && rows[k][CodonPairIdx] == p ::
         ParseInt(rows[k][TotalCountIdx]).Ok? && lo <= ParseInt(rows[k][TotalCountIdx]).value <= hi
  }

  /** The ranges the run prints, one per codon pair in key order, each read off the rows. */
  lemma PairRangesFromRows(rows: seq<seq<string>>)
    requires AllRowsLongEnough(rows)
    requires forall k | 0 <= k < |rows| :: ParseInt(rows[k][TotalCountIdx]).Ok?
    ensures var g := SortGroups(GroupRows(rows).value);
      && TotalCountRanges(g).Ok?
      && forall i | 0 <= i < |g| ::
           && TotalCountRanges(g).value[i].0 == g[i].0
           && TotalCountRanges(g).value[i].1.Some?
           && RangeOfRows(rows, g[i].0, TotalCountRanges(g).value[i].1.value.0, TotalCountRanges(g).value[i].1.value.1)
  {
    var g0 := GroupRows(rows).value;
    var g := SortGroups(g0);
    forall i | 0 <= i < |g0| ensures TotalCountRange(g[i].1) == TotalCountRange(g0[i].1) && TotalCountRange(g[i].1).Ok? {
      SortGroupsRanges(g0, i);
      PairRangeFromRows(rows, i);
    }
    forall i | 0 <= i < |g|
      ensures TotalCountRanges(g).value[i].1.Some?
      ensures RangeOfRows(rows, g[i].0, TotalCountRanges(g).value[i].1.value.0, TotalCountRanges(g).value[i].1.value.1)
    {
      SortGroupsRanges(g0, i);
      PairRangeFromRows(rows, i);
    }
  }
}
