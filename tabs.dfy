/** The computations that streamlit_app.py writes inline in its tab
    bodies: the nhị hợp pair set of a draw with its hit vector K (tab 2),
    the backtest's result and hit level (tab 3) and the staleness index of
    each class (tab 4). */
module Tabs {
  import opened Keys
  import opened Text
  import opened Logic
  import opened Stats
  import App
  import opened Filter

  /** p is a pair of characters of val, a double only when doubles are
      included. */
  predicate IsCombo(val: string, dup: bool, p: string)
  {
    |p| == 2 && p[0] in val && p[1] in val && (dup || p[0] != p[1])
  }

  /** combos: the set of a + b over the characters a, b of val. */
  function ComboSet(val: string, dup: bool): (r: set<string>)
    ensures forall p :: p in r <==> IsCombo(val, dup, p)
  {
    var r := set a, b | a in val && b in val && (dup || a != b) :: [a, b];
    assert forall p :: IsCombo(val, dup, p) ==> p in r by {
      forall p | IsCombo(val, dup, p) ensures p in r {
        assert p == [p[0], p[1]];
      }
    }
    r
  }

  /** p was added once the first i characters, and the first j partners
      of the i-th, have been visited. */
  predicate Visited(val: string, dup: bool, i: nat, j: nat, p: string)
    requires i < |val| && j <= |val|
  {
    |p| == 2 && (dup || p[0] != p[1]) &&
    ((p[0] in val[..i] && p[1] in val) || (p[0] == val[i] && p[1] in val[..j]))
  }

  /** The nested loop of tab 2 that adds a + b to combos for every pair of
      characters of the draw, skipping doubles unless include_duplicates. */
  method NhiHopCombos(val: string, dup: bool) returns (combos: set<string>)
    ensures combos == ComboSet(val, dup)
  {
    combos := {};
    var i := 0;
    while i < |val|
      invariant 0 <= i <= |val|
      invariant forall p :: p in combos <==> |p| == 2 && p[0] in val[..i] && p[1] in val && (dup || p[0] != p[1])
    {
      var a := val[i];
      assert val[..i + 1] == val[..i] + [a];
      var j := 0;
      while j < |val|
        invariant 0 <= j <= |val|
        invariant forall p :: p in combos <==> Visited(val, dup, i, j, p)
      {
        var b := val[j];
        assert val[..j + 1] == val[..j] + [b];
        if dup || a != b {
          forall p | |p| == 2 && p[0] == a && p[1] == b ensures p == [a, b] {
          }
          combos := combos + {[a, b]};
        }
        j := j + 1;
      }
      assert val[..j] == val;
      i := i + 1;
    }
    assert val[..i] == val;
  }

  /** With include_duplicates every double d + d of a digit of the draw is
      a combo; without it no combo is a double, and the combos are exactly
      those with doubles minus the doubles. */
  lemma CombosDoubles(val: string)
    ensures forall d :: d in val ==> [d, d] in ComboSet(val, true)
    ensures forall p :: p in ComboSet(val, false) ==> p[0] != p[1]
    ensures ComboSet(val, false) == ComboSet(val, true) - set d | d in val :: [d, d]
  {
    var doubles := set d | d in val :: [d, d];
    forall p | p in ComboSet(val, true) && p[0] == p[1] ensures p in doubles {
      assert p == [p[0], p[0]];
    }
  }

  /** The pairs u[a] + u[b] with b < m. */
  function Row(u: seq<char>, a: nat, m: nat): set<string>
    requires a < |u| && m <= |u|
  {
    if m == 0 then {} else Row(u, a, m - 1) + {[u[a], u[m - 1]]}
  }

  /** The pairs u[a] + u[b] with a < n. */
  function Grid(u: seq<char>, n: nat): set<string>
    requires n <= |u|
  {
    if n == 0 then {} else Grid(u, n - 1) + Row(u, n - 1, |u|)
  }

  lemma {:induction false} RowSize(u: seq<char>, a: nat, m: nat)
    requires a < |u| && m <= |u|
    ensures |Row(u, a, m)| <= m
    ensures forall b :: 0 <= b < m ==> [u[a], u[b]] in Row(u, a, m)
  {
    if m > 0 {
      RowSize(u, a, m - 1);
    }
  }

  lemma UnionSize(a: set<string>, b: set<string>)
    ensures |a + b| <= |a| + |b|
  {
    assert a + b == a + (b - a);
    assert b == (b - a) + (b * a);
  }

  lemma {:induction false} GridSize(u: seq<char>, n: nat)
    requires n <= |u|
    ensures |Grid(u, n)| <= n * |u|
  {
    if n > 0 {
      GridSize(u, n - 1);
      RowSize(u, n - 1, |u|);
      UnionSize(Grid(u, n - 1), Row(u, n - 1, |u|));
      assert n * |u| == (n - 1) * |u| + |u|;
    }
  }

  lemma {:induction false} GridHas(u: seq<char>, n: nat)
    requires n <= |u|
    ensures forall a, b :: 0 <= a < n && 0 <= b < |u| ==> [u[a], u[b]] in Grid(u, n)
  {
    if n > 0 {
      GridHas(u, n - 1);
      RowSize(u, n - 1, |u|);
    }
  }

  lemma SubsetSize(a: set<string>, b: set<string>)
    requires a <= b
    ensures |a| <= |b|
  {
    assert b == a + (b - a);
  }

  /** There are at most |set(val)|² combos. */
  lemma CombosSize(val: string, dup: bool)
    ensures |ComboSet(val, dup)| <= |SortedSet(val)| * |SortedSet(val)|
  {
    var u := SortedSet(val);
    GridSize(u, |u|);
    GridHas(u, |u|);
    forall p | p in ComboSet(val, dup) ensures p in Grid(u, |u|) {
      var a :| 0 <= a < |u| && u[a] == p[0];
      var b :| 0 <= b < |u| && u[b] == p[1];
      assert p == [u[a], u[b]];
    }
    SubsetSize(ComboSet(val, dup), Grid(u, |u|));
  }

  /** " ".join(sorted(combos)): the combos in sorted order. */
  function SortedCombos(val: string, dup: bool): (r: seq<string>)
    ensures LexIncreasing(r)
    ensures forall p :: p in r <==> IsCombo(val, dup, p)
  {
    var u := SortedSet(val);
    var r := PairsFrom(u, ComboSet(val, dup), 0, 0);
    assert forall p :: IsCombo(val, dup, p) ==> p in r by {
      forall p | IsCombo(val, dup, p) ensures p in r {
        var a :| 0 <= a < |u| && u[a] == p[0];
        var b :| 0 <= b < |u| && u[b] == p[1];
        assert p == [u[a], u[b]];
      }
    }
    r
  }

  /** The comparison value k positions earlier in the list (index 0 is
      the latest draw, so this is the draw k days after row i): the last
      two characters of cmp[i - k], or "" when that index does not exist. */
  function Shifted(cmp: seq<string>, i: int, k: int): string
  {
    if i >= k && i - k < |cmp| then Last2(cmp[i - k]) else ""
  }

  /** C: the comparison values 1..n positions earlier in the list. */
  function CompareValues(cmp: seq<string>, i: int, n: nat): (c: seq<string>)
    ensures |c| == n
    ensures forall j :: 0 <= j < n ==> c[j] == Shifted(cmp, i, j + 1)
  {
    seq(n, j => Shifted(cmp, i, j + 1))
  }

  /** K: each comparison value that is a member, blank otherwise. */
  function HitVector(c: seq<string>, s: set<string>): (k: seq<string>)
    ensures |k| == |c|
  {
    seq(|c|, j requires 0 <= j < |c| => if c[j] in s then c[j] else "")
  }

  predicate AllEmpty(k: seq<string>)
  {
    forall j :: 0 <= j < |k| ==> k[j] == ""
  }

  /** K is all blanks exactly when none of the comparison values is a
      member (the blank is never one). */
  lemma HitVectorEmpty(c: seq<string>, s: set<string>)
    requires "" !in s
    ensures AllEmpty(HitVector(c, s)) <==> forall j :: 0 <= j < |c| ==> c[j] !in s
    ensures forall j :: 0 <= j < |c| ==> HitVector(c, s)[j] == "" || HitVector(c, s)[j] == c[j]
  {
    var k := HitVector(c, s);
    if AllEmpty(k) {
      forall j | 0 <= j < |c| ensures c[j] !in s {
        assert k[j] == "";
      }
    }
  }

  /** Row i of tab 2 goes into the "chưa ra" list: i <= 28 and K, over the
      21 comparison values 1..21 positions earlier in the list (the 21
      draws after row i), is all blanks. */
  predicate ChuaRa(results: seq<string>, cmp: seq<string>, i: nat, dup: bool)
    requires i < |results|
  {
    i <= 28 && AllEmpty(HitVector(CompareValues(cmp, i, 21), ComboSet(results[i], dup)))
  }

  /** K over the values 1..n positions earlier is all blanks exactly when none of
      those comparison values is a member. */
  lemma CompareMisses(cmp: seq<string>, i: nat, n: nat, s: set<string>)
    requires "" !in s
    ensures AllEmpty(HitVector(CompareValues(cmp, i, n), s)) <==>
      forall k :: 1 <= k <= n ==> Shifted(cmp, i, k) !in s
  {
    var c := CompareValues(cmp, i, n);
    HitVectorEmpty(c, s);
    if forall j :: 0 <= j < |c| ==> c[j] !in s {
      forall k | 1 <= k <= n ensures Shifted(cmp, i, k) !in s {
        assert c[k - 1] == Shifted(cmp, i, k);
      }
    }
    if forall k :: 1 <= k <= n ==> Shifted(cmp, i, k) !in s {
      forall j | 0 <= j < |c| ensures c[j] !in s {
        assert Shifted(cmp, i, j + 1) !in s;
      }
    }
  }

  /** A row is "chưa ra" exactly when i <= 28 and none of the draws 1..21
      positions earlier in the list (1..21 days after row i) ended in one
      of the row's combos. */
  lemma ChuaRaMeaning(results: seq<string>, cmp: seq<string>, i: nat, dup: bool)
    requires i < |results|
    ensures ChuaRa(results, cmp, i, dup) <==>
      i <= 28 && forall k :: 1 <= k <= 21 ==> Shifted(cmp, i, k) !in ComboSet(results[i], dup)
  {
    var s := ComboSet(results[i], dup);
    assert "" !in s;
    CompareMisses(cmp, i, 21, s);
  }

  /** The dan of a draw: its sorted combos joined by spaces. */
  function ComboDan(val: string, dup: bool): string
  {
    Join(' ', SortedCombos(val, dup))
  }

  function ChuaRaTest(results: seq<string>, cmp: seq<string>, dup: bool): nat -> bool
  {
    (i: nat) => i < |results| && ChuaRa(results, cmp, i, dup)
  }

  function DanEntry(results: seq<string>, dup: bool): nat -> string
  {
    (i: nat) => if i < |results| then ComboDan(results[i], dup) else ""
  }

  /** chua_ra_list after the first n rows: the dans of the rows that are
      "chưa ra", in row order. */
  function ChuaRaList(results: seq<string>, cmp: seq<string>, n: nat, dup: bool): seq<string>
  {
    Kept(ChuaRaTest(results, cmp, dup), DanEntry(results, dup), n)
  }

  /** range(min(len(results), NUM_DAYS)) as a count. */
  function RowCount(len: nat, numDays: int): (n: nat)
    ensures n <= len
  {
    if numDays < 0 then 0 else Min(len, numDays)
  }

  /** Tab 2: for each of the first NUM_DAYS draws, builds its combos, the
      21 comparison values C and the hit vector K, and collects the dans of
      the rows whose K is all blanks. */
  method ChuaRaDans(results: seq<string>, cmp: seq<string>, numDays: int, dup: bool) returns (list: seq<string>)
    ensures list == ChuaRaList(results, cmp, RowCount(|results|, numDays), dup)
  {
    list := [];
    var n := RowCount(|results|, numDays);
    var i := 0;
    while i < n
      invariant 0 <= i <= n
      invariant list == ChuaRaList(results, cmp, i, dup)
    {
      var chuaRa, dan := ChuaRaRow(results, cmp, i, dup);
      list := KeepStep(ChuaRaTest(results, cmp, dup), DanEntry(results, dup), i, list, chuaRa, dan);
      i := i + 1;
    }
  }

  /** The body of tab 2's loop for row i: the combos of the draw, C, K,
      the test that puts the row into the list, and its dan. */
  method ChuaRaRow(results: seq<string>, cmp: seq<string>, i: nat, dup: bool) returns (chuaRa: bool, dan: string)
    requires i < |results|
    ensures chuaRa == ChuaRaTest(results, cmp, dup)(i)
    ensures dan == DanEntry(results, dup)(i)
  {
    var combos := NhiHopCombos(results[i], dup);
    var c := CompareValues(cmp, i, 21);
    var k := HitVector(c, combos);
    chuaRa := i <= 28 && AllEmpty(k);
    dan := ComboDan(results[i], dup);
  }

  predicate AllDigits(s: string)
  {
    forall j :: 0 <= j < |s| ==> IsDigit(s[j])
  }

  /** When the draws are digit strings, every token of the chưa ra list is
      a key, so calculate_muc_so accepts it, and the tokens of each dan are
      its sorted combos. */
  lemma {:induction false} ChuaRaTokens(results: seq<string>, cmp: seq<string>, n: nat, dup: bool)
    requires n <= |results|
    requires forall j :: 0 <= j < n ==> AllDigits(results[j])
    ensures AllKeys(AllTokens(ChuaRaList(results, cmp, n, dup)))
  {
    forall i | 0 <= i < n && ChuaRaTest(results, cmp, dup)(i)
      ensures AllKeys(Words(DanEntry(results, dup)(i)))
    {
      ComboWords(results[i], dup);
      WordsJoin(SortedCombos(results[i], dup));
    }
    KeptTokens(ChuaRaTest(results, cmp, dup), DanEntry(results, dup), n);
  }

  /** The combos of a digit string are keys, and words. */
  lemma ComboWords(val: string, dup: bool)
    requires AllDigits(val)
    ensures forall j :: 0 <= j < |SortedCombos(val, dup)| ==>
      IsKey(SortedCombos(val, dup)[j]) && IsWord(SortedCombos(val, dup)[j])
  {
    var ps := SortedCombos(val, dup);
    forall j | 0 <= j < |ps| ensures IsKey(ps[j]) && IsWord(ps[j]) {
      assert ps[j] in ps;
      assert IsCombo(val, dup, ps[j]);
    }
  }

  /** The tokens of a filtered list of strings are keys when the tokens of
      each accepted entry are. */
  lemma {:induction false} KeptTokens(keep: nat -> bool, entry: nat -> string, n: nat)
    requires forall i :: 0 <= i < n && keep(i) ==> AllKeys(Words(entry(i)))
    ensures AllKeys(AllTokens(Kept(keep, entry, n)))
  {
    if n > 0 {
      var prev := Kept(keep, entry, n - 1);
      KeptTokens(keep, entry, n - 1);
      KeptStep(keep, entry, n - 1);
      if keep(n - 1) {
        var d := entry(n - 1);
        assert (prev + [d])[..|prev|] == prev;
        assert AllTokens(prev + [d]) == AllTokens(prev) + Words(d);
      }
    }
  }

  /** item["number"][-2:].zfill(2): always two characters, and a key when
      the number is a digit string. */
  function PaddedTail(s: string): (r: string)
    ensures |r| == 2
    ensures AllDigits(s) ==> IsKey(r)
  {
    var t := Last2(s);
    assert AllDigits(s) ==> forall j :: 0 <= j < |t| ==> IsDigit(t[j]) by {
      if AllDigits(s) {
        forall j | 0 <= j < |t| ensures IsDigit(t[j]) {
          assert t[j] == s[|s| - |t| + j];
        }
      }
    }
    ZFill2Key(t);
    ZFill2(t)
  }

  /** last2: the padded tails of the first 100 draws. */
  function LastTwos(data: seq<string>): (r: seq<string>)
    ensures |r| == RowCount(|data|, 100)
    ensures forall j :: 0 <= j < |r| ==> r[j] == PaddedTail(data[j])
  {
    var m := RowCount(|data|, 100);
    seq(m, j requires 0 <= j < m => PaddedTail(data[j]))
  }

  /** next((i for i, n in enumerate(xs) if f(n)), -1): the first index
      whose element passes the test, or -1 when none does. */
  function FirstIndex(xs: seq<string>, f: string -> bool): (r: int)
    ensures -1 <= r < |xs|
    ensures r >= 0 ==> f(xs[r]) && forall j :: 0 <= j < r ==> !f(xs[j])
    ensures r == -1 ==> forall j :: 0 <= j < |xs| ==> !f(xs[j])
    decreases |xs|
  {
    if |xs| == 0 then -1
    else if f(xs[0]) then 0
    else
      var r := FirstIndex(xs[1..], f);
      assert forall j :: 1 <= j < |xs| ==> xs[j] == xs[1..][j - 1];
      if r == -1 then -1 else r + 1
  }

  /** A class that occurs at index j has a staleness between 0 and j. */
  lemma FirstIndexSeen(xs: seq<string>, f: string -> bool, j: int)
    requires 0 <= j < |xs| && f(xs[j])
    ensures 0 <= FirstIndex(xs, f) <= j
  {
  }

  function BoTest(b: string): string -> bool
  {
    n => App.Bo(n) == b
  }

  /** bo_lau_ra[b]: the first of the last2 draws whose bộ is b. */
  function BoStaleness(last2: seq<string>, b: string): int
  {
    FirstIndex(last2, BoTest(b))
  }

  /** Each bộ b that occurs among the draws gets the index of its most
      recent draw, which is not before its first occurrence, and that draw
      is a member of get_bo_dan(b). */
  lemma BoStalenessSpec(last2: seq<string>, j: int)
    requires 0 <= j < |last2| && AllKeys(last2)
    ensures 0 <= BoStaleness(last2, App.Bo(last2[j])) <= j
    ensures last2[BoStaleness(last2, App.Bo(last2[j]))] in Split(App.GetBoDan(App.Bo(last2[j])), ',')
  {
    var b := App.Bo(last2[j]);
    var r := BoStaleness(last2, b);
    FirstIndexSeen(last2, BoTest(b), j);
    assert App.Bo(last2[r]) == b;
    App.BoDanOfKey(last2[r]);
  }

  /** tong_lau_ra[t]; the digits are added as ints, so every draw must be a
      digit pair. */
  function TongStaleness(last2: seq<string>, t: int): int
    requires AllKeys(last2)
  {
    FirstIndex(last2, App.TongTest(t))
  }

  /** For t in 0..9 the staleness of tổng t is -1 exactly when no draw has
      digit sum t mod 10; otherwise it is the first such draw, a member of
      get_tong_dan(t). */
  lemma TongStalenessSpec(last2: seq<string>, t: int)
    requires AllKeys(last2) && 0 <= t < 10
    ensures TongStaleness(last2, t) == -1 <==> forall j :: 0 <= j < |last2| ==> App.Tong(last2[j]) != t
    ensures TongStaleness(last2, t) >= 0 ==>
      last2[TongStaleness(last2, t)] in Split(Join(',', App.TongKeys(t)), ',')
    ensures forall j :: 0 <= j < TongStaleness(last2, t) ==> App.Tong(last2[j]) != t
  {
    var r := TongStaleness(last2, t);
    App.TongTestSpec(t);
    App.TongDan(t);
    if r == -1 {
      forall j | 0 <= j < |last2| ensures App.Tong(last2[j]) != t {
        assert !App.TongTest(t)(last2[j]);
      }
    } else {
      forall j | 0 <= j < r ensures App.Tong(last2[j]) != t {
        assert !App.TongTest(t)(last2[j]);
      }
    }
  }

  function ZodiacTest(z: string): string -> bool
  {
    n => App.Zodiac(n) == z
  }

  /** zodiac_lau_ra[z] */
  function ZodiacStaleness(last2: seq<string>, z: string): int
  {
    FirstIndex(last2, ZodiacTest(z))
  }

  /** Each con giáp that occurs among the draws gets the index of its most
      recent draw, a member of get_zodiac_dan. */
  lemma ZodiacStalenessSpec(last2: seq<string>, j: int)
    requires 0 <= j < |last2| && AllKeys(last2)
    ensures 0 <= ZodiacStaleness(last2, App.Zodiac(last2[j])) <= j
    ensures last2[ZodiacStaleness(last2, App.Zodiac(last2[j]))] in Split(App.GetZodiacDan(App.Zodiac(last2[j])), ',')
  {
    var z := App.Zodiac(last2[j]);
    var r := ZodiacStaleness(last2, z);
    FirstIndexSeen(last2, ZodiacTest(z), j);
    assert App.Zodiac(last2[r]) == z;
    App.ZodiacDan(last2[r]);
  }

  function HieuTest(h: int): string -> bool
  {
    n => App.Hieu(n) == h
  }

  /** hieu_lau_ra[h] */
  function HieuStaleness(last2: seq<string>, h: int): int
  {
    FirstIndex(last2, HieuTest(h))
  }

  /** For h in 0..9 the staleness of hiệu h is -1 exactly when no draw has
      hiệu h; otherwise that draw is a member of get_hieu_dan(h). */
  lemma HieuStalenessSpec(last2: seq<string>, h: int)
    requires AllKeys(last2) && 0 <= h < 10
    ensures HieuStaleness(last2, h) == -1 <==> forall j :: 0 <= j < |last2| ==> App.Hieu(last2[j]) != h
    ensures HieuStaleness(last2, h) >= 0 ==> last2[HieuStaleness(last2, h)] in Split(App.GetHieuDan(h), ',')
  {
    var r := HieuStaleness(last2, h);
    App.HieuDan(h);
    if r == -1 {
      forall j | 0 <= j < |last2| ensures App.Hieu(last2[j]) != h {
        assert !HieuTest(h)(last2[j]);
      }
    } else {
      assert HieuTest(h)(last2[r]);
    }
  }

  function KepTest(k: string): string -> bool
  {
    n => App.Kep(n) == k
  }

  /** kep_lau_ra[k] */
  function KepStaleness(last2: seq<string>, k: string): int
  {
    FirstIndex(last2, KepTest(k))
  }

  /** Each kép class that occurs among the draws, including "KHÔNG", gets
      the index of its most recent draw, never -1. */
  lemma KepStalenessSpec(last2: seq<string>, j: int)
    requires 0 <= j < |last2|
    ensures 0 <= KepStaleness(last2, App.Kep(last2[j])) <= j
    ensures App.Kep(last2[KepStaleness(last2, App.Kep(last2[j]))]) == App.Kep(last2[j])
  {
    FirstIndexSeen(last2, KepTest(App.Kep(last2[j])), j);
  }
}
