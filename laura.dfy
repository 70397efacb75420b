/** The "dàn lâu ra" search of tab 3 of streamlit_app.py: calculate_lau_ra,
    get_lau_ra_with_auto_reduce and the backtest built on them
    (calculate_muc_for_offset and the level that holds a result). The
    widgets' values (NUM_DAYS, the chosen comparison feed, the thresholds)
    are parameters; the comparison feed is passed already chosen, as the
    list of its numbers. */
module LauRa {
  import opened Keys
  import opened Text
  import opened Logic
  import opened Stats
  import opened Tabs
  import opened Filter

  /** results[start:start + 7], start being i when seven rows remain and
      max(0, n - 7) otherwise. */
  function Window(results: seq<string>, i: nat): (w: seq<string>)
    requires i < |results|
    ensures 1 <= |w| <= 7
  {
    var n := |results|;
    var start := if i <= n - 7 then i else Max(0, n - 7);
    results[start..Min(start + 7, n)]
  }

  function DanTest(window: seq<string>): string -> bool
  {
    k => 1 <= TotalCount(window, k) <= 7
  }

  /** pairs_sorted: the keys counted one to seven times in the window,
      ascending. */
  function DanNuoiKeys(window: seq<string>): (r: seq<string>)
    ensures Ascending(r)
    ensures forall k :: k in r <==> IsKey(k) && 1 <= TotalCount(window, k) <= 7
  {
    KeysWhere(DanTest(window))
  }

  /** The levels jn(window, 1) .. jn(window, 7), each split at the commas
      when not empty, gathered into one list and sorted without repeats. */
  method DanNuoi(window: seq<string>) returns (pairsSorted: seq<string>)
    ensures pairsSorted == DanNuoiKeys(window)
  {
    var pairs: seq<string> := [];
    var k := 1;
    while k < 8
      invariant 1 <= k <= 8
      invariant forall p :: p in pairs <==> IsKey(p) && 1 <= TotalCount(window, p) < k
    {
      var m := Jn(window, k);
      JnMembers(window, k);
      if m != "" {
        pairs := pairs + Split(m, ',');
      }
      k := k + 1;
    }
    var s := set p | p in pairs;
    pairsSorted := SortedKeys(s);
    AscendingUnique(pairsSorted, DanNuoiKeys(window));
  }

  /** The hit vector of row i: the comparison values 1..28 positions
      earlier in the list (the 28 draws after row i), kept
      where they are in the dàn nuôi. */
  function RowHits(results: seq<string>, cmp: seq<string>, i: nat): (k: seq<string>)
    requires i < |results|
    ensures |k| == 28
  {
    var s := set p | p in DanNuoiKeys(Window(results, i));
    HitVector(CompareValues(cmp, i, 28), s)
  }

  /** last_k_index over the first m entries of K: the largest index holding
      a value, or -1. */
  function LastNonBlank(k: seq<string>, m: nat): (r: int)
    requires m <= |k|
    ensures -1 <= r < m
    ensures r >= 0 ==> k[r] != "" && forall j :: r < j < m ==> k[j] == ""
    ensures r == -1 ==> forall j :: 0 <= j < m ==> k[j] == ""
  {
    if m == 0 then -1
    else if k[m - 1] != "" then m - 1
    else LastNonBlank(k, m - 1)
  }

  /** The backward scan of K with break. */
  method LastHitIndex(k: seq<string>, valid: nat) returns (last: int)
    requires valid <= |k|
    ensures last == LastNonBlank(k, valid)
  {
    last := -1;
    var j := valid - 1;
    while j >= 0
      invariant -1 <= j < valid
      invariant LastNonBlank(k, j + 1) == LastNonBlank(k, valid)
    {
      if k[j] != "" {
        last := j;
        break;
      }
      j := j - 1;
    }
  }

  /** empty_count from valid_k_range and last_k_index. */
  function EmptyCount(valid: nat, last: int): int
  {
    if last == -1 then valid else Max(0, (valid - 1 - last) - 1)
  }

  /** valid_k_range: min(i + 1, len(K)). */
  function ValidRange(i: nat): nat
  {
    Min(i + 1, 28)
  }

  /** empty_count of row i. */
  function RowEmptyCount(results: seq<string>, cmp: seq<string>, i: nat): int
    requires i < |results|
  {
    var valid := ValidRange(i);
    EmptyCount(valid, LastNonBlank(RowHits(results, cmp, i), valid))
  }

  /** The empty count of a row lies in 0 .. min(i + 1, 28); it is the whole
      range exactly when no comparison value in range hits the dàn. */
  lemma RowEmptyCountBounds(results: seq<string>, cmp: seq<string>, i: nat)
    requires i < |results|
    ensures 0 <= RowEmptyCount(results, cmp, i) <= Min(i + 1, 28)
    ensures RowEmptyCount(results, cmp, i) == Min(i + 1, 28) <==>
      forall j :: 0 <= j < Min(i + 1, 28) ==> RowHits(results, cmp, i)[j] == ""
  {
    var k := RowHits(results, cmp, i);
    var valid := ValidRange(i);
    var last := LastNonBlank(k, valid);
    if last != -1 {
      assert k[last] != "";
    }
  }

  /** dan_nuoi of row i. */
  function RowDan(results: seq<string>, i: nat): string
    requires i < |results|
  {
    Join(' ', DanNuoiKeys(Window(results, i)))
  }

  /** Row i enters lau_ra_list at this threshold. */
  predicate Emits(results: seq<string>, cmp: seq<string>, i: nat, threshold: int)
    requires i < |results|
  {
    RowEmptyCount(results, cmp, i) >= threshold && i <= 28 && RowDan(results, i) != ""
  }

  /** lau_ra_list after the first n rows. */
  function LauRaFrom(results: seq<string>, cmp: seq<string>, threshold: int, n: nat): seq<(string, string)>
  {
    Kept(EmitTest(results, cmp, threshold), RowEntry(results), n)
  }

  function EmitTest(results: seq<string>, cmp: seq<string>, threshold: int): nat -> bool
  {
    (i: nat) => i < |results| && Emits(results, cmp, i, threshold)
  }

  /** The pair a row appends: its result and its dàn. */
  function RowEntry(results: seq<string>): nat -> (string, string)
  {
    (i: nat) => if i < |results| then (results[i], RowDan(results, i)) else ("", "")
  }

  lemma LauRaFromStep(results: seq<string>, cmp: seq<string>, threshold: int, n: nat)
    requires 0 < n <= |results|
    ensures Emits(results, cmp, n - 1, threshold) ==>
      LauRaFrom(results, cmp, threshold, n) == LauRaFrom(results, cmp, threshold, n - 1) + [(results[n - 1], RowDan(results, n - 1))]
    ensures !Emits(results, cmp, n - 1, threshold) ==>
      LauRaFrom(results, cmp, threshold, n) == LauRaFrom(results, cmp, threshold, n - 1)
  {
    KeptStep(EmitTest(results, cmp, threshold), RowEntry(results), n - 1);
    assert EmitTest(results, cmp, threshold)(n - 1) == Emits(results, cmp, n - 1, threshold);
    assert RowEntry(results)(n - 1) == (results[n - 1], RowDan(results, n - 1));
  }

  /** calculate_lau_ra(results, …, empty_threshold). */
  function LauRaList(results: seq<string>, cmp: seq<string>, numDays: int, threshold: int): seq<(string, string)>
  {
    LauRaFrom(results, cmp, threshold, RowCount(|results|, numDays))
  }

  /** The body of calculate_lau_ra's loop for row i: the window's dàn
      nuôi, the 28 comparison values, the hit vector and the empty count. */
  method EvalRow(results: seq<string>, cmp: seq<string>, i: nat) returns (danNuoi: string, emptyCount: int)
    requires i < |results|
    ensures danNuoi == RowDan(results, i)
    ensures emptyCount == RowEmptyCount(results, cmp, i)
  {
    var window := Window(results, i);
    var pairsSorted := DanNuoi(window);
    danNuoi := Join(' ', pairsSorted);
    var c := CompareValues(cmp, i, 28);
    var k := HitVector(c, set p | p in pairsSorted);
    assert k == RowHits(results, cmp, i);
    var valid := Min(i + 1, |k|);
    var last := LastHitIndex(k, valid);
    emptyCount := EmptyCount(valid, last);
  }

  /** calculate_lau_ra: rows up to 28 among the first NUM_DAYS whose empty
      count reaches the threshold and whose dàn is not empty are kept with
      their result. */
  method CalculateLauRa(results: seq<string>, cmp: seq<string>, numDays: int, threshold: int)
    returns (lauRa: seq<(string, string)>)
    ensures lauRa == LauRaList(results, cmp, numDays, threshold)
  {
    var n := RowCount(|results|, numDays);
    lauRa := [];
    var i := 0;
    while i < n
      invariant 0 <= i <= n
      invariant lauRa == LauRaFrom(results, cmp, threshold, i)
    {
      var danNuoi, emptyCount := EvalRow(results, cmp, i);
      LauRaFromStep(results, cmp, threshold, i + 1);
      if emptyCount >= threshold && i <= 28 && danNuoi != "" {
        assert Emits(results, cmp, i, threshold);
        lauRa := lauRa + [(results[i], danNuoi)];
      } else {
        assert !Emits(results, cmp, i, threshold);
      }
      i := i + 1;
    }
  }

  /** Every entry of lau_ra_list comes from one of the first NUM_DAYS rows,
      at most row 28, whose empty count reaches the threshold and whose dàn
      is not empty; a lower threshold keeps every entry a higher one keeps. */
  lemma LauRaListSpec(results: seq<string>, cmp: seq<string>, numDays: int, threshold: int)
    ensures |LauRaList(results, cmp, numDays, threshold)| <= 29
    ensures forall x :: x in LauRaList(results, cmp, numDays, threshold) ==>
      exists i :: 0 <= i < RowCount(|results|, numDays) && i <= 28 && x == (results[i], RowDan(results, i)) &&
        RowEmptyCount(results, cmp, i) >= threshold && x.1 != ""
    ensures forall i :: 0 <= i < RowCount(|results|, numDays) && Emits(results, cmp, i, threshold) ==>
      (results[i], RowDan(results, i)) in LauRaList(results, cmp, numDays, threshold)
  {
    var n := RowCount(|results|, numDays);
    KeptMembers(EmitTest(results, cmp, threshold), RowEntry(results), n);
    KeptLength(EmitTest(results, cmp, threshold), RowEntry(results), n, 29);
    forall i | 0 <= i < n && Emits(results, cmp, i, threshold)
      ensures (results[i], RowDan(results, i)) in LauRaList(results, cmp, numDays, threshold)
    {
      assert EmitTest(results, cmp, threshold)(i) && RowEntry(results)(i) == (results[i], RowDan(results, i));
    }
  }

  /** Raising the threshold only drops entries: the list at a higher
      threshold is a subsequence of the list at a lower one. */
  lemma LauRaMonotone(results: seq<string>, cmp: seq<string>, numDays: int, t1: int, t2: int)
    requires t1 <= t2
    ensures Subsequence(LauRaList(results, cmp, numDays, t2), LauRaList(results, cmp, numDays, t1))
    ensures forall x :: x in LauRaList(results, cmp, numDays, t2) ==> x in LauRaList(results, cmp, numDays, t1)
    ensures |LauRaList(results, cmp, numDays, t2)| <= |LauRaList(results, cmp, numDays, t1)|
  {
    var n := RowCount(|results|, numDays);
    forall i | 0 <= i < n && EmitTest(results, cmp, t2)(i)
      ensures EmitTest(results, cmp, t1)(i)
    {
      assert Emits(results, cmp, i, t2);
    }
    KeptSubset(EmitTest(results, cmp, t1), EmitTest(results, cmp, t2), RowEntry(results), n);
    KeptSubsequence(EmitTest(results, cmp, t1), EmitTest(results, cmp, t2), RowEntry(results), n);
  }

  /** A threshold lowered by one while empty holds at it and it is above
      one. */
  function Lowered(empty: int -> bool, threshold: int): int
    decreases threshold
  {
    if empty(threshold) && threshold > 1 then Lowered(empty, threshold - 1) else threshold
  }

  lemma {:induction false} LoweredSpec(empty: int -> bool, threshold: int)
    ensures Lowered(empty, threshold) <= threshold
    ensures threshold <= 1 ==> Lowered(empty, threshold) == threshold
    ensures threshold >= 1 ==> Lowered(empty, threshold) >= 1
    ensures empty(Lowered(empty, threshold)) ==> Lowered(empty, threshold) <= 1
    ensures forall u :: Lowered(empty, threshold) < u <= threshold ==> empty(u)
    decreases threshold
  {
    if empty(threshold) && threshold > 1 {
      LoweredSpec(empty, threshold - 1);
    }
  }

  function NoEntries(results: seq<string>, cmp: seq<string>, numDays: int): int -> bool
  {
    t => LauRaList(results, cmp, numDays, t) == []
  }

  /** The threshold get_lau_ra_with_auto_reduce settles on. */
  function AutoThreshold(results: seq<string>, cmp: seq<string>, numDays: int, threshold: int): int
  {
    Lowered(NoEntries(results, cmp, numDays), threshold)
  }

  /** The settled threshold is at most the initial one, stays at least one
      when the initial one is, leaves the list empty only at one or below,
      and every threshold between it and the initial one gives no entry. */
  lemma AutoThresholdSpec(results: seq<string>, cmp: seq<string>, numDays: int, threshold: int)
    ensures AutoThreshold(results, cmp, numDays, threshold) <= threshold
    ensures threshold <= 1 ==> AutoThreshold(results, cmp, numDays, threshold) == threshold
    ensures threshold >= 1 ==> AutoThreshold(results, cmp, numDays, threshold) >= 1
    ensures LauRaList(results, cmp, numDays, AutoThreshold(results, cmp, numDays, threshold)) == [] ==>
      AutoThreshold(results, cmp, numDays, threshold) <= 1
    ensures forall u :: AutoThreshold(results, cmp, numDays, threshold) < u <= threshold ==>
      LauRaList(results, cmp, numDays, u) == []
  {
    var empty := NoEntries(results, cmp, numDays);
    LoweredSpec(empty, threshold);
    forall u | Lowered(empty, threshold) < u <= threshold
      ensures LauRaList(results, cmp, numDays, u) == []
    {
      assert empty(u);
    }
  }

  /** get_lau_ra_with_auto_reduce. */
  method GetLauRaWithAutoReduce(results: seq<string>, cmp: seq<string>, numDays: int, initialThreshold: int)
    returns (lauRa: seq<(string, string)>, actualThreshold: int)
    ensures actualThreshold == AutoThreshold(results, cmp, numDays, initialThreshold)
    ensures lauRa == LauRaList(results, cmp, numDays, actualThreshold)
  {
    var threshold := initialThreshold;
    lauRa := CalculateLauRa(results, cmp, numDays, threshold);
    actualThreshold := threshold;
    while lauRa == [] && threshold > 1
      invariant actualThreshold == threshold
      invariant lauRa == LauRaList(results, cmp, numDays, threshold)
      invariant AutoThreshold(results, cmp, numDays, threshold) == AutoThreshold(results, cmp, numDays, initialThreshold)
      decreases threshold
    {
      threshold := threshold - 1;
      lauRa := CalculateLauRa(results, cmp, numDays, threshold);
      actualThreshold := threshold;
    }
  }
}
