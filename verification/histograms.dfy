/**
 `create_codon_change_sfs_dict` (PRF_Ratios_syn/codon_analyses.py): the
 per-codon-change site frequency spectra.

 The result maps every catalog label to a map from sample size n (the
 row's `totalcount`) to a vector of n + 1 bins; bin j counts the kept rows
 of that label and sample size whose `altcount` selects index j. Python
 indexes lists with wrap-around, so an `altcount` of -1 selects bin n, and
 an index outside [-(n + 1), n] raises `IndexError`, as does a negative
 `totalcount` (its vector `[0] * (n + 1)` is empty).
 */
module CodonAnalyses {
  import opened Basics
  import opened CodonCatalog

  /** The columns of a merged table row that the builder reads. */
  datatype SnpRow = SnpRow(codonChange: string, totalCount: int, altCount: int, customAnnotation: string)

  type Histograms = map<string, map<nat, seq<nat>>>

  /** The `custom_annotation` value of SNPs at exon-intron junctions. */
  const ExonIntronJunction := "eij"

  /** The catalog labels, as a set. */
  const CatalogKeys: set<string> := set c | c in SynonymousOneNtPairs

  /**
   What the loop is run with: the labels it keeps (the catalog, in the
   source) and whether junction rows are filtered out first.
   */
  datatype Config = Config(keys: set<string>, useFilter: bool)

  /** A row the builder counts: not removed by the junction filter, and labelled with a kept change. */
  predicate Kept(x: SnpRow, cfg: Config) {
    !(cfg.useFilter && x.customAnnotation == ExonIntronJunction) && x.codonChange in cfg.keys
  }

  /** The counts the builder can store: a non-negative sample size and an in-range (possibly negative) index. */
  predicate InRange(x: SnpRow) {
    0 <= x.totalCount && -(x.totalCount + 1) <= x.altCount <= x.totalCount
  }

  /** The bin a row's `altcount` selects under Python's negative indexing. */
  function Bin(x: SnpRow): int {
    if x.altCount < 0 then x.totalCount + 1 + x.altCount else x.altCount
  }

  /** What a count ranges over: every kept row, the kept rows of one (label, n) group, or of one bin. */
  datatype Tally =
    | AnyKept
    | InGroup(c: string, n: nat)
    | InBin(c: string, n: nat, j: nat)

  predicate Matches(x: SnpRow, cfg: Config, t: Tally) {
    Kept(x, cfg) &&
    match t
    case AnyKept => true
    case InGroup(c, n) => x.codonChange == c && x.totalCount == n
    case InBin(c, n, j) => x.codonChange == c && x.totalCount == n && Bin(x) == j
  }

  /** The number of rows a tally covers. */
  function Count(rows: seq<SnpRow>, cfg: Config, t: Tally): (k: nat)
    ensures k <= |rows|
  {
    if |rows| == 0 then 0
    else Count(rows[..|rows| - 1], cfg, t) + (if Matches(rows[|rows| - 1], cfg, t) then 1 else 0)
  }

  function Sum(v: seq<nat>): nat {
    if |v| == 0 then 0 else v[0] + Sum(v[1..])
  }

  /** Every kept row can be stored. */
  predicate AllInRange(rows: seq<SnpRow>, cfg: Config) {
    forall i | 0 <= i < |rows| :: Kept(rows[i], cfg) ==> InRange(rows[i])
  }

  /** A sample size is present under a label exactly when some kept row has both. */
  ghost predicate GroupsExact(h: Histograms, rows: seq<SnpRow>, cfg: Config) {
    forall c, n: nat | c in h :: n in h[c] <==> Count(rows, cfg, InGroup(c, n)) > 0
  }

  /** Every vector stored under sample size n has n + 1 bins. */
  ghost predicate LengthsExact(h: Histograms) {
    forall c, n | c in h && n in h[c] :: |h[c][n]| == n + 1
  }

  /** Every bin holds the number of kept rows it stands for. */
  ghost predicate BinsExact(h: Histograms, rows: seq<SnpRow>, cfg: Config) {
    forall c, n, j: nat | c in h && n in h[c] && j < |h[c][n]| :: h[c][n][j] == Count(rows, cfg, InBin(c, n, j))
  }

  /** Every vector sums to the size of its group. */
  ghost predicate SumsExact(h: Histograms, rows: seq<SnpRow>, cfg: Config) {
    forall c, n | c in h && n in h[c] :: Sum(h[c][n]) == Count(rows, cfg, InGroup(c, n))
  }

  /**
   `h` holds exactly the spectra of `rows`: one entry per catalog label, a
   sample size present exactly when some kept row has it, vectors of n + 1
   bins, each bin the number of kept rows it stands for, and each vector
   summing to its group's size.
   */
  ghost predicate Tallies(h: Histograms, rows: seq<SnpRow>, cfg: Config) {
    && h.Keys == cfg.keys
    && GroupsExact(h, rows, cfg)
    && LengthsExact(h)
    && BinsExact(h, rows, cfg)
    && SumsExact(h, rows, cfg)
  }

  /** The dictionary before any row: every catalog label with an empty inner map. */
  function EmptyHistograms(cfg: Config): (h: Histograms)
    ensures Tallies(h, [], cfg)
  {
    map c | c in cfg.keys :: map[]
  }

  /** `[0] * (n + 1)`. */
  function Zeros(len: nat): (v: seq<nat>)
    ensures |v| == len && Sum(v) == 0
    ensures forall i | 0 <= i < len :: v[i] == 0
  {
    if len == 0 then [] else [0] + Zeros(len - 1)
  }

  /** One pass of the loop body for a kept row. */
  function AddRow(h: Histograms, x: SnpRow): (r: Result<Histograms>)
    requires x.codonChange in h
  {
    var c := x.codonChange;
    if x.totalCount < 0 then Err(IndexError)
    else
      var n: nat := x.totalCount;
      var vec := if n in h[c] then h[c][n] else Zeros(n + 1);
      var k := x.altCount;
      if k < -|vec| || |vec| <= k then Err(IndexError)
      else
        var i := if k < 0 then |vec| + k else k;
        var inner: map<nat, seq<nat>> := h[c][n := vec[i := vec[i] + 1]];
        Ok(h[c := inner])
  }

  lemma {:induction false} SumIncrement(v: seq<nat>, i: nat)
    requires i < |v|
    ensures Sum(v[i := v[i] + 1]) == Sum(v) + 1
    decreases |v|
  {
    if i > 0 {
      SumIncrement(v[1..], i - 1);
      assert v[i := v[i] + 1][1..] == v[1..][i - 1 := v[i] + 1];
    }
  }

  lemma CountAppend(rows: seq<SnpRow>, x: SnpRow, cfg: Config, t: Tally)
    ensures Count(rows + [x], cfg, t) == Count(rows, cfg, t) + (if Matches(x, cfg, t) then 1 else 0)
  {
    assert (rows + [x])[..|rows|] == rows;
  }

  /** A bin is never fuller than its group. */
  lemma {:induction false} CountBinInGroup(rows: seq<SnpRow>, cfg: Config, c: string, n: nat, j: nat)
    ensures Count(rows, cfg, InBin(c, n, j)) <= Count(rows, cfg, InGroup(c, n))
    decreases |rows|
  {
    if |rows| > 0 {
      CountBinInGroup(rows[..|rows| - 1], cfg, c, n, j);
    }
  }

  /** Storing a kept, in-range row keeps the spectra exact. */
  lemma AddRowTallies(h: Histograms, rows: seq<SnpRow>, cfg: Config, x: SnpRow)
    requires Tallies(h, rows, cfg)
    requires Kept(x, cfg) && InRange(x)
    ensures AddRow(h, x).Ok?
    ensures Tallies(AddRow(h, x).value, rows + [x], cfg)
  {
    var c0, n0 := x.codonChange, x.totalCount as nat;
    var vec := CurrentVector(h, rows, cfg, x);
    var vec' := vec[Bin(x) := vec[Bin(x)] + 1];
    NextVector(vec, rows, cfg, x);
    AddRowStores(h, x, vec);
    StoredGroups(h, rows, cfg, x, vec');
    StoredLengths(h, c0, n0, vec');
    StoredBins(h, rows, cfg, x, vec');
    StoredSums(h, rows, cfg, x, vec');
  }

  /** For an in-range row the loop body stores the incremented vector. */
  lemma AddRowStores(h: Histograms, x: SnpRow, vec: seq<nat>)
    requires x.codonChange in h && InRange(x)
    requires vec == if x.totalCount in h[x.codonChange] then h[x.codonChange][x.totalCount] else Zeros(x.totalCount + 1)
    requires |vec| == x.totalCount + 1
    ensures AddRow(h, x) == Ok(Stored(h, x.codonChange, x.totalCount, vec[Bin(x) := vec[Bin(x)] + 1]))
  {
  }

  /** The vector the loop body increments for a kept row: the stored one, or fresh zeros; either way it counts the earlier rows. */
  lemma CurrentVector(h: Histograms, rows: seq<SnpRow>, cfg: Config, x: SnpRow) returns (vec: seq<nat>)
    requires Tallies(h, rows, cfg)
    requires Kept(x, cfg) && InRange(x)
    ensures vec == if x.totalCount in h[x.codonChange] then h[x.codonChange][x.totalCount] else Zeros(x.totalCount + 1)
    ensures |vec| == x.totalCount + 1
    ensures forall j: nat | j < |vec| :: vec[j] == Count(rows, cfg, InBin(x.codonChange, x.totalCount, j))
    ensures Sum(vec) == Count(rows, cfg, InGroup(x.codonChange, x.totalCount))
  {
    var c0, n0 := x.codonChange, x.totalCount as nat;
    if n0 in h[c0] {
      vec := h[c0][n0];
    } else {
      vec := Zeros(n0 + 1);
      forall j: nat | j < n0 + 1 ensures Count(rows, cfg, InBin(c0, n0, j)) == 0 {
        CountBinInGroup(rows, cfg, c0, n0, j);
      }
    }
  }

  /** Incrementing the row's bin makes the vector count the row as well. */
  lemma NextVector(vec: seq<nat>, rows: seq<SnpRow>, cfg: Config, x: SnpRow)
    requires Kept(x, cfg) && InRange(x)
    requires |vec| == x.totalCount + 1
    requires forall j: nat | j < |vec| :: vec[j] == Count(rows, cfg, InBin(x.codonChange, x.totalCount, j))
    requires Sum(vec) == Count(rows, cfg, InGroup(x.codonChange, x.totalCount))
    ensures var vec' := vec[Bin(x) := vec[Bin(x)] + 1];
      && (forall j: nat | j < |vec'| :: vec'[j] == Count(rows + [x], cfg, InBin(x.codonChange, x.totalCount, j)))
      && Sum(vec') == Count(rows + [x], cfg, InGroup(x.codonChange, x.totalCount))
  {
    var vec' := vec[Bin(x) := vec[Bin(x)] + 1];
    forall j: nat | j < |vec'| ensures vec'[j] == Count(rows + [x], cfg, InBin(x.codonChange, x.totalCount, j)) {
      CountAppend(rows, x, cfg, InBin(x.codonChange, x.totalCount, j));
    }
    SumIncrement(vec, Bin(x));
    CountAppend(rows, x, cfg, InGroup(x.codonChange, x.totalCount));
  }

  /** Storing a vector of n + 1 bins under n keeps every length right. */
  lemma StoredLengths(h: Histograms, c: string, n: nat, v: seq<nat>)
    requires LengthsExact(h) && c in h && |v| == n + 1
    ensures LengthsExact(Stored(h, c, n, v))
  {
  }

  /** `h` with the vector of label `c` and sample size `n` replaced by `v`. */
  function Stored(h: Histograms, c: string, n: nat, v: seq<nat>): Histograms
    requires c in h
  {
    var inner: map<nat, seq<nat>> := h[c][n := v];
    h[c := inner]
  }

  /** Storing the new row's group keeps the sample sizes exact. */
  lemma StoredGroups(h: Histograms, rows: seq<SnpRow>, cfg: Config, x: SnpRow, v: seq<nat>)
    requires GroupsExact(h, rows, cfg)
    requires Kept(x, cfg) && x.codonChange in h && x.totalCount >= 0
    ensures GroupsExact(Stored(h, x.codonChange, x.totalCount, v), rows + [x], cfg)
  {
    var h' := Stored(h, x.codonChange, x.totalCount, v);
    forall c, n: nat | c in h' ensures n in h'[c] <==> Count(rows + [x], cfg, InGroup(c, n)) > 0 {
      CountAppend(rows, x, cfg, InGroup(c, n));
    }
  }

  /** Storing a vector that counts the new row keeps every bin exact. */
  lemma StoredBins(h: Histograms, rows: seq<SnpRow>, cfg: Config, x: SnpRow, v: seq<nat>)
    requires BinsExact(h, rows, cfg)
    requires x.codonChange in h && x.totalCount >= 0
    requires forall j: nat | j < |v| :: v[j] == Count(rows + [x], cfg, InBin(x.codonChange, x.totalCount, j))
    ensures BinsExact(Stored(h, x.codonChange, x.totalCount, v), rows + [x], cfg)
  {
    var h' := Stored(h, x.codonChange, x.totalCount, v);
    forall c, n, j: nat | c in h' && n in h'[c] && j < |h'[c][n]|
      ensures h'[c][n][j] == Count(rows + [x], cfg, InBin(c, n, j))
    {
      if c != x.codonChange || n != x.totalCount {
        CountAppend(rows, x, cfg, InBin(c, n, j));
      }
    }
  }

  /** Storing a vector that sums to the new row's group keeps every sum exact. */
  lemma StoredSums(h: Histograms, rows: seq<SnpRow>, cfg: Config, x: SnpRow, v: seq<nat>)
    requires SumsExact(h, rows, cfg)
    requires x.codonChange in h && x.totalCount >= 0
    requires Sum(v) == Count(rows + [x], cfg, InGroup(x.codonChange, x.totalCount))
    ensures SumsExact(Stored(h, x.codonChange, x.totalCount, v), rows + [x], cfg)
  {
    var h' := Stored(h, x.codonChange, x.totalCount, v);
    forall c, n | c in h' && n in h'[c] ensures Sum(h'[c][n]) == Count(rows + [x], cfg, InGroup(c, n)) {
      if c != x.codonChange || n != x.totalCount {
        CountAppend(rows, x, cfg, InGroup(c, n));
      }
    }
  }

  /** Storing a kept row that is out of range raises `IndexError`. */
  lemma AddRowOutOfRange(h: Histograms, rows: seq<SnpRow>, cfg: Config, x: SnpRow)
    requires Tallies(h, rows, cfg)
    requires Kept(x, cfg) && !InRange(x)
    ensures AddRow(h, x) == Err(IndexError)
  {
  }

  /** The loop over the rows, in order; the first row that cannot be stored stops it. */
  function Accumulate(rows: seq<SnpRow>, cfg: Config): (r: Result<Histograms>)
    ensures r.Ok? <==> AllInRange(rows, cfg)
    ensures r.Ok? ==> Tallies(r.value, rows, cfg)
    ensures r.Err? ==> r.error == IndexError
    decreases |rows|
  {
    if |rows| == 0 then Ok(EmptyHistograms(cfg))
    else
      var init := rows[..|rows| - 1];
      var x := rows[|rows| - 1];
      assert rows == init + [x];
      assert AllInRange(rows, cfg) <==> AllInRange(init, cfg) && (Kept(x, cfg) ==> InRange(x)) by {
        assert forall i | 0 <= i < |init| :: init[i] == rows[i];
      }
      var h :- Accumulate(init, cfg);
      if Kept(x, cfg) then
        if InRange(x) then
          AddRowTallies(h, init, cfg, x);
          AddRow(h, x)
        else
          AddRowOutOfRange(h, init, cfg, x);
          AddRow(h, x)
      else
        assert forall t :: Count(rows, cfg, t) == Count(init, cfg, t);
        Ok(h)
  }

  /** Two maps with the spectra of the same counts are the same map. */
  lemma TalliesDetermine(h1: Histograms, h2: Histograms, rows: seq<SnpRow>, cfg: Config)
    requires Tallies(h1, rows, cfg) && Tallies(h2, rows, cfg)
    ensures h1 == h2
  {
    forall c | c in h1 ensures h1[c] == h2[c] {
      forall n | n in h1[c] ensures h1[c][n] == h2[c][n] {
        assert |h1[c][n]| == |h2[c][n]|;
        forall j: nat | j < |h1[c][n]| ensures h1[c][n][j] == h2[c][n][j] {
        }
      }
      assert h1[c].Keys == h2[c].Keys;
    }
  }

  lemma {:induction false} CountConcat(a: seq<SnpRow>, b: seq<SnpRow>, cfg: Config, t: Tally)
    ensures Count(a + b, cfg, t) == Count(a, cfg, t) + Count(b, cfg, t)
    decreases |b|
  {
    if |b| == 0 {
      assert a + b == a;
    } else {
      var x := b[|b| - 1];
      var b' := b[..|b| - 1];
      assert b == b' + [x];
      assert a + b == (a + b') + [x];
      CountConcat(a, b', cfg, t);
      CountAppend(a + b', x, cfg, t);
      CountAppend(b', x, cfg, t);
    }
  }

  /** Taking the last row of `a` out of a permutation `b` of `a` leaves a permutation of the rest. */
  lemma SplitAtLast(a: seq<SnpRow>, b: seq<SnpRow>) returns (b1: seq<SnpRow>, b2: seq<SnpRow>)
    requires multiset(a) == multiset(b) && |a| > 0
    ensures b == b1 + [a[|a| - 1]] + b2
    ensures multiset(a[..|a| - 1]) == multiset(b1 + b2)
  {
    var x := a[|a| - 1];
    var a' := a[..|a| - 1];
    assert a == a' + [x];
    assert x in multiset(b);
    var k :| 0 <= k < |b| && b[k] == x;
    b1, b2 := b[..k], b[k + 1..];
    assert b == b1 + [x] + b2;
    assert multiset(a) == multiset(a') + multiset{x};
    assert multiset(b) == multiset(b1) + multiset{x} + multiset(b2);
    assert multiset(b1 + b2) == multiset(b1) + multiset(b2);
    assert multiset(a') + multiset{x} == multiset(b1 + b2) + multiset{x};
    assert multiset(a') == multiset(a') + multiset{x} - multiset{x};
  }

  /** Counting does not depend on the order of the rows. */
  lemma {:induction false} CountPermutation(a: seq<SnpRow>, b: seq<SnpRow>, cfg: Config, t: Tally)
    requires multiset(a) == multiset(b)
    ensures Count(a, cfg, t) == Count(b, cfg, t)
    decreases |a|
  {
    if |a| > 0 {
      var x := a[|a| - 1];
      var a' := a[..|a| - 1];
      assert a == a' + [x];
      var b1, b2 := SplitAtLast(a, b);
      CountPermutation(a', b1 + b2, cfg, t);
      CountConcat(b1, b2, cfg, t);
      CountConcat(b1 + [x], b2, cfg, t);
      CountAppend(b1, x, cfg, t);
      CountAppend(a', x, cfg, t);
    }
  }

  /** The loop's outcome does not depend on the order of the rows. */
  lemma AccumulateOrderIndependent(rows: seq<SnpRow>, rows': seq<SnpRow>, cfg: Config)
    requires multiset(rows) == multiset(rows')
    ensures Accumulate(rows, cfg) == Accumulate(rows', cfg)
  {
    assert AllInRange(rows, cfg) <==> AllInRange(rows', cfg) by {
      if AllInRange(rows, cfg) {
        forall i | 0 <= i < |rows'| && Kept(rows'[i], cfg) ensures InRange(rows'[i]) {
          assert rows'[i] in multiset(rows');
          var k :| 0 <= k < |rows| && rows[k] == rows'[i];
        }
      }
      if AllInRange(rows', cfg) {
        forall i | 0 <= i < |rows| && Kept(rows[i], cfg) ensures InRange(rows[i]) {
          assert rows[i] in multiset(rows);
          var k :| 0 <= k < |rows'| && rows'[k] == rows[i];
        }
      }
    }
    var r, r' := Accumulate(rows, cfg), Accumulate(rows', cfg);
    if r.Ok? {
      forall t ensures Count(rows, cfg, t) == Count(rows', cfg, t) {
        CountPermutation(rows, rows', cfg, t);
      }
      TalliesDetermine(r.value, r'.value, rows, cfg);
    }
  }

  /** A row the loop does not keep changes nothing, wherever it stands. */
  lemma AccumulateSkipsDropped(a: seq<SnpRow>, x: SnpRow, b: seq<SnpRow>, cfg: Config)
    requires !Kept(x, cfg)
    ensures Accumulate(a + [x] + b, cfg) == Accumulate(a + b, cfg)
  {
    assert multiset(a + [x] + b) == multiset((a + b) + [x]);
    AccumulateOrderIndependent(a + [x] + b, (a + b) + [x], cfg);
    assert ((a + b) + [x])[..|a + b|] == a + b;
  }

  /** Without the filter, counts never look at the annotation. */
  lemma {:induction false} CountIgnoresAnnotation(rows: seq<SnpRow>, rows': seq<SnpRow>, keys: set<string>, t: Tally)
    requires |rows| == |rows'|
    requires forall i | 0 <= i < |rows| :: rows[i].(customAnnotation := rows'[i].customAnnotation) == rows'[i]
    ensures Count(rows, Config(keys, false), t) == Count(rows', Config(keys, false), t)
    decreases |rows|
  {
    if |rows| > 0 {
      CountIgnoresAnnotation(rows[..|rows| - 1], rows'[..|rows| - 1], keys, t);
      var x, x' := rows[|rows| - 1], rows'[|rows| - 1];
      assert Matches(x, Config(keys, false), t) == Matches(x', Config(keys, false), t);
    }
  }

  /** Without the filter, relabelling annotations changes nothing. */
  lemma AccumulateIgnoresAnnotation(rows: seq<SnpRow>, rows': seq<SnpRow>, keys: set<string>)
    requires |rows| == |rows'|
    requires forall i | 0 <= i < |rows| :: rows[i].(customAnnotation := rows'[i].customAnnotation) == rows'[i]
    ensures Accumulate(rows, Config(keys, false)) == Accumulate(rows', Config(keys, false))
  {
    var cfg := Config(keys, false);
    assert AllInRange(rows, cfg) <==> AllInRange(rows', cfg) by {
      assert forall i | 0 <= i < |rows| :: Kept(rows[i], cfg) == Kept(rows'[i], cfg) && InRange(rows[i]) == InRange(rows'[i]);
    }
    var r, r' := Accumulate(rows, cfg), Accumulate(rows', cfg);
    if r.Ok? {
      forall t ensures Count(rows, cfg, t) == Count(rows', cfg, t) {
        CountIgnoresAnnotation(rows, rows', keys, t);
      }
      TalliesDetermine(r.value, r'.value, rows, cfg);
    }
  }

  /** The sum of the values of a map. */
  ghost function MapTotal<K>(m: map<K, nat>): nat
    decreases |m|
  {
    if |m| == 0 then 0
    else
      var k :| k in m;
      m[k] + MapTotal(m - {k})
  }

  /** The key the sum of a non-empty map happens to take first. */
  lemma MapTotalUnfold<K>(m: map<K, nat>) returns (k: K)
    requires |m| > 0
    ensures k in m && MapTotal(m) == m[k] + MapTotal(m - {k})
  {
    k :| k in m && MapTotal(m) == m[k] + MapTotal(m - {k});
  }

  /** The sum of a map can be taken starting from any key. */
  lemma {:induction false} MapTotalRemove<K>(m: map<K, nat>, k: K)
    requires k in m
    ensures MapTotal(m) == m[k] + MapTotal(m - {k})
    decreases |m|
  {
    var k' := MapTotalUnfold(m);
    if k' != k {
      var m1 := m - {k'};
      var m2 := m - {k};
      assert k in m1 && k' in m2;
      MapTotalRemove(m1, k);
      MapTotalRemove(m2, k');
      assert m1 - {k} == m2 - {k'};
    }
  }

  lemma MapTotalUpdate<K>(m: map<K, nat>, k: K, v: nat)
    ensures MapTotal(m[k := v]) == MapTotal(m) - (if k in m then m[k] else 0) + v
    ensures k in m ==> m[k] <= MapTotal(m)
  {
    var m' := m[k := v];
    MapTotalRemove(m', k);
    assert m' - {k} == m - {k};
    if k in m {
      MapTotalRemove(m, k);
    } else {
      assert m - {k} == m;
    }
  }

  lemma {:induction false} MapTotalZero<K>(m: map<K, nat>)
    requires forall k | k in m :: m[k] == 0
    ensures MapTotal(m) == 0
    decreases |m|
  {
    if |m| > 0 {
      var k := MapTotalUnfold(m);
      MapTotalZero(m - {k});
    }
  }

  /** The number of rows each vector of one label counts. */
  function Sizes(inner: map<nat, seq<nat>>): map<nat, nat> {
    map n | n in inner :: Sum(inner[n])
  }

  /** The number of rows stored under one label: the sum of all its vectors. */
  ghost function LabelTotal(inner: map<nat, seq<nat>>): nat {
    MapTotal(Sizes(inner))
  }

  lemma LabelTotalZero(inner: map<nat, seq<nat>>)
    requires forall n | n in inner :: Sum(inner[n]) == 0
    ensures LabelTotal(inner) == 0
  {
    MapTotalZero(Sizes(inner));
  }

  /** The sum of all bins of all vectors. */
  ghost function TotalBins(h: Histograms): nat {
    MapTotal(LabelTotals(h))
  }

  ghost function LabelTotals(h: Histograms): map<string, nat> {
    map c | c in h :: LabelTotal(h[c])
  }

  lemma LabelTotalUpdate(inner: map<nat, seq<nat>>, n: nat, v: seq<nat>)
    ensures LabelTotal(inner[n := v]) == LabelTotal(inner) - (if n in inner then Sum(inner[n]) else 0) + Sum(v)
  {
    assert Sizes(inner[n := v]) == Sizes(inner)[n := Sum(v)];
    MapTotalUpdate(Sizes(inner), n, Sum(v));
  }

  lemma TotalBinsUpdate(h: Histograms, c: string, inner: map<nat, seq<nat>>)
    ensures TotalBins(h[c := inner]) == TotalBins(h) - (if c in h then LabelTotal(h[c]) else 0) + LabelTotal(inner)
  {
    assert LabelTotals(h[c := inner]) == LabelTotals(h)[c := LabelTotal(inner)];
    MapTotalUpdate(LabelTotals(h), c, LabelTotal(inner));
  }

  /** Storing a row adds one to the grand total. */
  lemma AddRowTotal(h: Histograms, x: SnpRow)
    requires x.codonChange in h
    requires forall n | n in h[x.codonChange] :: |h[x.codonChange][n]| == n + 1
    requires AddRow(h, x).Ok?
    ensures TotalBins(AddRow(h, x).value) == TotalBins(h) + 1
  {
    var c0, n0 := x.codonChange, x.totalCount as nat;
    var vec := if n0 in h[c0] then h[c0][n0] else Zeros(n0 + 1);
    var j0: nat := Bin(x);
    var vec' := vec[j0 := vec[j0] + 1];
    SumIncrement(vec, j0);
    var inner: map<nat, seq<nat>> := h[c0][n0 := vec'];
    assert AddRow(h, x).value == h[c0 := inner];
    LabelTotalUpdate(h[c0], n0, vec');
    TotalBinsUpdate(h, c0, inner);
  }

  /** The sum of all bins across all vectors is the number of kept rows. */
  lemma {:induction false} AccumulateTotal(rows: seq<SnpRow>, cfg: Config)
    requires Accumulate(rows, cfg).Ok?
    ensures TotalBins(Accumulate(rows, cfg).value) == Count(rows, cfg, AnyKept)
    decreases |rows|
  {
    if |rows| == 0 {
      var h := EmptyHistograms(cfg);
      forall c | c in h ensures LabelTotal(h[c]) == 0 {
        LabelTotalZero(h[c]);
      }
      MapTotalZero(LabelTotals(h));
    } else {
      var init := rows[..|rows| - 1];
      var x := rows[|rows| - 1];
      AccumulateTotal(init, cfg);
      var h := Accumulate(init, cfg).value;
      if Kept(x, cfg) {
        AddRowTotal(h, x);
      }
    }
  }

  /** The configuration `create_codon_change_sfs_dict` runs its loop with. */
  function SourceConfig(useFilter: bool): Config {
    Config(CatalogKeys, useFilter)
  }

  /**
   `create_codon_change_sfs_dict(df, use_filter)`: fails exactly when some
   kept row cannot be stored; otherwise every catalog label maps to the
   spectra of its kept rows and nothing else is a key.
   */
  function CreateCodonChangeSfsDict(rows: seq<SnpRow>, useFilter: bool): (r: Result<Histograms>)
    ensures r.Ok? <==> forall i | 0 <= i < |rows| :: Kept(rows[i], SourceConfig(useFilter)) ==> InRange(rows[i])
    ensures r.Err? ==> r.error == IndexError
    ensures r.Ok? ==> r.value.Keys == CatalogKeys
    ensures r.Ok? ==> forall c, n | c in r.value && n in r.value[c] ::
      |r.value[c][n]| == n + 1 && Sum(r.value[c][n]) == Count(rows, SourceConfig(useFilter), InGroup(c, n))
    ensures r.Ok? ==> forall c, n, j: nat | c in r.value && n in r.value[c] && j <= n ::
      r.value[c][n][j] == Count(rows, SourceConfig(useFilter), InBin(c, n, j))
    ensures r.Ok? ==> forall c, n: nat | c in r.value ::
      n in r.value[c] <==> Count(rows, SourceConfig(useFilter), InGroup(c, n)) > 0
  {
    Accumulate(rows, SourceConfig(useFilter))
  }

  /** The sum of all bins across all vectors is the number of kept catalog rows. */
  lemma CreateCodonChangeSfsDictTotal(rows: seq<SnpRow>, useFilter: bool)
    requires CreateCodonChangeSfsDict(rows, useFilter).Ok?
    ensures TotalBins(CreateCodonChangeSfsDict(rows, useFilter).value) == Count(rows, SourceConfig(useFilter), AnyKept)
  {
    AccumulateTotal(rows, SourceConfig(useFilter));
  }

  /** The result does not depend on the order of the rows. */
  lemma CreateCodonChangeSfsDictOrderIndependent(rows: seq<SnpRow>, rows': seq<SnpRow>, useFilter: bool)
    requires multiset(rows) == multiset(rows')
    ensures CreateCodonChangeSfsDict(rows, useFilter) == CreateCodonChangeSfsDict(rows', useFilter)
  {
    AccumulateOrderIndependent(rows, rows', SourceConfig(useFilter));
  }

  /** Rows labelled outside the catalog contribute nothing. */
  lemma UncataloguedRowIgnored(a: seq<SnpRow>, x: SnpRow, b: seq<SnpRow>, useFilter: bool)
    requires x.codonChange !in SynonymousOneNtPairs
    ensures CreateCodonChangeSfsDict(a + [x] + b, useFilter) == CreateCodonChangeSfsDict(a + b, useFilter)
  {
    AccumulateSkipsDropped(a, x, b, SourceConfig(useFilter));
  }

  /** With the filter on, exon-intron junction rows contribute nothing. */
  lemma JunctionRowFiltered(a: seq<SnpRow>, x: SnpRow, b: seq<SnpRow>)
    requires x.customAnnotation == ExonIntronJunction
    ensures CreateCodonChangeSfsDict(a + [x] + b, true) == CreateCodonChangeSfsDict(a + b, true)
  {
    AccumulateSkipsDropped(a, x, b, SourceConfig(true));
  }

  /** With the filter off, no row is dropped for its annotation: relabelling annotations changes nothing. */
  lemma AnnotationIgnoredWithoutFilter(rows: seq<SnpRow>, rows': seq<SnpRow>)
    requires |rows| == |rows'|
    requires forall i | 0 <= i < |rows| :: rows[i].(customAnnotation := rows'[i].customAnnotation) == rows'[i]
    ensures CreateCodonChangeSfsDict(rows, false) == CreateCodonChangeSfsDict(rows', false)
  {
    AccumulateIgnoresAnnotation(rows, rows', CatalogKeys);
  }
}
