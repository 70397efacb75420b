/** The level tables of tab 3 of streamlit_app.py, built from a dàn lâu ra
    list (the "Chọn mức" lists and calculate_muc_for_offset), and the
    ten-day backtest that looks up, for each earlier day, the level that
    held the next result. The feeds are passed as the lists of their
    numbers: the Thần Tài numbers, the Điện Toán numbers joined into one
    string per draw, and the chosen comparison feed. */
module Backtest {
  import opened Keys
  import opened Text
  import opened Logic
  import opened Stats
  import opened Tabs
  import opened LauRa
  import opened Filter

  datatype Option<T> = None | Some(value: T)

  /** Level l enters the table when jn(dan_list, l) is not empty. */
  function LevelTest(dans: seq<string>): nat -> bool
  {
    l => JnKeys(dans, l) != []
  }

  /** The entry of level l: the level and its set of keys. */
  function LevelEntry(dans: seq<string>): nat -> (nat, seq<string>)
  {
    l => (l, JnKeys(dans, l))
  }

  /** The non-empty levels 0 .. len(dan_list) in ascending order. */
  function MucLevels(dans: seq<string>): seq<(nat, seq<string>)>
  {
    Kept(LevelTest(dans), LevelEntry(dans), |dans| + 1)
  }

  /** One pass of the loop over range(len(dan_list) + 1): pairs =
      jn(dan_list, level) and, when it is not empty, the level with its
      split at the commas appended. */
  method AddLevel(dans: seq<string>, level: nat, mucs: seq<(nat, seq<string>)>) returns (next: seq<(nat, seq<string>)>)
    requires mucs == Kept(LevelTest(dans), LevelEntry(dans), level)
    ensures next == Kept(LevelTest(dans), LevelEntry(dans), level + 1)
  {
    var pairs := Jn(dans, level);
    JnMembers(dans, level);
    KeptStep(LevelTest(dans), LevelEntry(dans), level);
    next := mucs;
    if pairs != "" {
      var pairsList := Split(pairs, ',');
      next := mucs + [(level, pairsList)];
    }
  }

  method BuildMucLevels(dans: seq<string>) returns (mucs: seq<(nat, seq<string>)>)
    ensures mucs == MucLevels(dans)
  {
    mucs := [];
    var level := 0;
    while level < |dans| + 1
      invariant 0 <= level <= |dans| + 1
      invariant mucs == Kept(LevelTest(dans), LevelEntry(dans), level)
    {
      mucs := AddLevel(dans, level, mucs);
      level := level + 1;
    }
  }

  /** dan_list: the dàn of each entry. */
  function DanList(lauRa: seq<(string, string)>): (dans: seq<string>)
    ensures |dans| == |lauRa|
    ensures forall j :: 0 <= j < |lauRa| ==> dans[j] == lauRa[j].1
  {
    seq(|lauRa|, j requires 0 <= j < |lauRa| => lauRa[j].1)
  }

  /** muc_results for a dàn lâu ra list: nothing when the list is empty. */
  function Mucs(lauRa: seq<(string, string)>): seq<(nat, seq<string>)>
  {
    if lauRa == [] then [] else MucLevels(DanList(lauRa))
  }

  /** The feed at back_offset: data[back_offset:back_offset + NUM_DAYS]. */
  function Slice(data: seq<string>, start: nat, numDays: nat): (r: seq<string>)
    ensures |r| <= numDays
    ensures |r| == 0 || start + |r| <= |data|
    ensures |r| == if start < |data| then Min(numDays, |data| - start) else 0
    ensures forall j :: 0 <= j < |r| ==> r[j] == data[start + j]
  {
    data[Min(start, |data|)..Min(start + numDays, |data|)]
  }

  /** The levels calculate_muc_for_offset returns for one feed. */
  function MucsAt(results: seq<string>, cmp: seq<string>, numDays: int, threshold: int): seq<(nat, seq<string>)>
  {
    Mucs(LauRaList(results, cmp, numDays, AutoThreshold(results, cmp, numDays, threshold)))
  }

  /** calculate_muc_for_offset, on the feeds already cut at the offset. */
  method MucForOffset(results: seq<string>, cmp: seq<string>, numDays: int, threshold: int)
    returns (mucs: seq<(nat, seq<string>)>)
    ensures mucs == MucsAt(results, cmp, numDays, threshold)
  {
    var lauRa, _ := GetLauRaWithAutoReduce(results, cmp, numDays, threshold);
    if lauRa == [] {
      return [];
    }
    mucs := BuildMucLevels(DanList(lauRa));
  }

  /** The level of the first entry whose set holds the result, in order. */
  function FirstHit(mucs: seq<(nat, seq<string>)>, result: string): Option<nat>
  {
    if mucs == [] then None
    else if result in mucs[0].1 then Some(mucs[0].0)
    else FirstHit(mucs[1..], result)
  }

  /** The scan with break that fills hit_muc_tt / hit_muc_dt; None stands
      for "-". */
  method HitLevel(mucs: seq<(nat, seq<string>)>, result: string) returns (hit: Option<nat>)
    ensures hit == FirstHit(mucs, result)
  {
    hit := None;
    var j := 0;
    while j < |mucs|
      invariant 0 <= j <= |mucs|
      invariant FirstHit(mucs[j..], result) == FirstHit(mucs, result)
    {
      assert mucs[j..][1..] == mucs[j + 1..];
      if result in mucs[j].1 {
        hit := Some(mucs[j].0);
        break;
      }
      j := j + 1;
    }
  }

  lemma {:induction false} FirstHitAppend(xs: seq<(nat, seq<string>)>, ys: seq<(nat, seq<string>)>, result: string)
    ensures FirstHit(xs + ys, result) == if FirstHit(xs, result) != None then FirstHit(xs, result) else FirstHit(ys, result)
  {
    if xs != [] {
      assert (xs + ys)[1..] == xs[1..] + ys;
      FirstHitAppend(xs[1..], ys, result);
    } else {
      assert xs + ys == ys;
    }
  }

  lemma FirstHitOne(m: (nat, seq<string>), result: string)
    ensures FirstHit([m], result) == if result in m.1 then Some(m.0) else None
  {
    assert [m][1..] == [];
  }

  /** In a table whose level l, when kept, holds exactly the keys counted l
      times, the first level holding a key is its count. */
  lemma {:induction false} CountedLevelsHit(keep: nat -> bool, entry: nat -> (nat, seq<string>), count: string -> nat,
                                            n: nat, result: string)
    requires forall l :: entry(l).0 == l
    requires forall l :: keep(l) <==> entry(l).1 != []
    requires forall l, k :: k in entry(l).1 <==> IsKey(k) && count(k) == l
    ensures FirstHit(Kept(keep, entry, n), result) ==
      if IsKey(result) && count(result) < n then Some(count(result)) else None
  {
    if n > 0 {
      var prev := Kept(keep, entry, n - 1);
      CountedLevelsHit(keep, entry, count, n - 1, result);
      KeptStep(keep, entry, n - 1);
      if keep(n - 1) {
        FirstHitAppend(prev, [entry(n - 1)], result);
        FirstHitOne(entry(n - 1), result);
      }
    }
  }

  function Counter(dans: seq<string>): string -> nat
  {
    k => TotalCount(dans, k)
  }

  /** Among the levels below l, the result is found exactly at its own
      count in the dàn list, when that count is below l and it is a key. */
  lemma LevelsHit(dans: seq<string>, l: nat, result: string)
    ensures FirstHit(Kept(LevelTest(dans), LevelEntry(dans), l), result) ==
      if IsKey(result) && TotalCount(dans, result) < l then Some(TotalCount(dans, result)) else None
  {
    forall m: nat, k | k in LevelEntry(dans)(m).1
      ensures IsKey(k) && Counter(dans)(k) == m
    {
      assert k in JnKeys(dans, m);
    }
    forall m: nat, k | IsKey(k) && Counter(dans)(k) == m
      ensures k in LevelEntry(dans)(m).1
    {
      assert k in JnKeys(dans, m);
    }
    CountedLevelsHit(LevelTest(dans), LevelEntry(dans), Counter(dans), l, result);
  }

  /** The backtest reports, for a feed's levels, the count of the result
      in the dàn list: "-" when the list is empty, the result is not a key
      (the "-" of a missing day among them) or it is in more dàn than the
      list has entries. */
  lemma HitIsCount(lauRa: seq<(string, string)>, result: string)
    ensures FirstHit(Mucs(lauRa), result) ==
      if lauRa != [] && IsKey(result) && TotalCount(DanList(lauRa), result) <= |lauRa|
      then Some(TotalCount(DanList(lauRa), result)) else None
  {
    if lauRa != [] {
      LevelsHit(DanList(lauRa), |lauRa| + 1, result);
    }
  }

  /** result_num: the padded last two digits of the draw at prev_offset, or
      "-" past the end of the feed. */
  function ResultNum(cmpData: seq<string>, prev: nat): (r: string)
    ensures prev < |cmpData| ==> |r| == 2
    ensures prev < |cmpData| && AllDigits(cmpData[prev]) ==> IsKey(r)
    ensures prev >= |cmpData| ==> !IsKey(r)
  {
    if prev < |cmpData| then PaddedTail(cmpData[prev]) else "-"
  }

  /** One row of the backtest table, without its labels and date. */
  datatype BacktestRow = BacktestRow(result: string, ttLevel: Option<nat>, dtLevel: Option<nat>)

  /** A row: the result and the first level of each feed that holds it. */
  function RowOf(result: string, mucsTT: seq<(nat, seq<string>)>, mucsDT: seq<(nat, seq<string>)>): BacktestRow
  {
    BacktestRow(result, FirstHit(mucsTT, result), FirstHit(mucsDT, result))
  }

  /** Row i (1 .. 10): the levels computed at offset + i, tried against the
      result of the day at offset + i - 1. */
  function RowAt(tt: seq<string>, dt: seq<string>, cmpData: seq<string>, offset: nat, i: nat,
                 numDays: nat, emptyTT: int, emptyDT: int): BacktestRow
    requires i >= 1
  {
    RowOf(ResultNum(cmpData, offset + i - 1),
      MucsAt(Slice(tt, offset + i, numDays), Slice(cmpData, offset + i, numDays), numDays, emptyTT),
      MucsAt(Slice(dt, offset + i, numDays), Slice(cmpData, offset + i, numDays), numDays, emptyDT))
  }

  /** One pass of the loop over range(1, 11): the levels of both feeds at
      actual_offset, result_num, and the level of each that holds it. */
  method BacktestRowAt(tt: seq<string>, dt: seq<string>, cmpData: seq<string>, offset: nat, i: nat,
                       numDays: nat, emptyTT: int, emptyDT: int)
    returns (row: BacktestRow)
    requires i >= 1
    ensures row == RowAt(tt, dt, cmpData, offset, i, numDays, emptyTT, emptyDT)
  {
    var mucTT := MucForOffset(Slice(tt, offset + i, numDays), Slice(cmpData, offset + i, numDays), numDays, emptyTT);
    var mucDT := MucForOffset(Slice(dt, offset + i, numDays), Slice(cmpData, offset + i, numDays), numDays, emptyDT);
    var result := ResultNum(cmpData, offset + i - 1);
    var hitTT := HitLevel(mucTT, result);
    var hitDT := HitLevel(mucDT, result);
    row := BacktestRow(result, hitTT, hitDT);
    assert row == RowOf(result, mucTT, mucDT);
  }

  /** The loop over range(1, 11) that fills backtest_rows. */
  method RunBacktest(tt: seq<string>, dt: seq<string>, cmpData: seq<string>, offset: nat,
                     numDays: nat, emptyTT: int, emptyDT: int)
    returns (rows: seq<BacktestRow>)
    ensures |rows| == 10
    ensures forall j :: 0 <= j < 10 ==> rows[j] == RowAt(tt, dt, cmpData, offset, j + 1, numDays, emptyTT, emptyDT)
  {
    rows := [];
    var i := 1;
    while i < 11
      invariant 1 <= i <= 11
      invariant |rows| == i - 1
      invariant forall j :: 0 <= j < i - 1 ==> rows[j] == RowAt(tt, dt, cmpData, offset, j + 1, numDays, emptyTT, emptyDT)
    {
      var row := BacktestRowAt(tt, dt, cmpData, offset, i, numDays, emptyTT, emptyDT);
      ghost var before := rows;
      rows := rows + [row];
      forall j | 0 <= j < i
        ensures rows[j] == RowAt(tt, dt, cmpData, offset, j + 1, numDays, emptyTT, emptyDT)
      {
        if j < i - 1 {
          assert rows[j] == before[j];
        }
      }
      i := i + 1;
    }
  }
}
