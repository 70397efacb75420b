/** The counting helpers of streamlit_app.py: jn (keys counted exactly rnd
    times over a window of strings) and calculate_muc_so (token frequencies
    grouped into levels), with the frequency-group / Mức 0 split of the
    summary tab. */
module Stats {
  import opened Keys
  import opened Text
  import opened Tables

  /** The test jn applies to each key: its total count over rng is rnd. */
  function JnTest(rng: seq<string>, rnd: int): string -> bool
  {
    k => TotalCount(rng, k) == rnd
  }

  /** The keys jn(rng, rnd) lists, in the order "00".."99". */
  function JnKeys(rng: seq<string>, rnd: int): (r: seq<string>)
    ensures Ascending(r)
    ensures forall k :: k in r <==> IsKey(k) && TotalCount(rng, k) == rnd
  {
    KeysWhere(JnTest(rng, rnd))
  }

  /** Counting one more string adds its own count. */
  lemma TotalCountStep(rng: seq<string>, n: nat, p: string)
    requires n < |rng|
    ensures TotalCount(rng[..n + 1], p) == TotalCount(rng[..n], p) + Count(rng[n], p)
  {
    assert rng[..n + 1][..n] == rng[..n];
  }

  /** jn(rng, rnd): counts[pair] accumulates s.count(pair) for every s in
      rng and every key pair, then the keys whose count is rnd are joined
      with commas. counts is indexed by the key's value. */
  method Jn(rng: seq<string>, rnd: int) returns (r: string)
    ensures r == Join(',', JnKeys(rng, rnd))
  {
    var counts: seq<nat> := seq(100, v => 0);
    var n := 0;
    while n < |rng|
      invariant 0 <= n <= |rng| && |counts| == 100
      invariant forall v :: 0 <= v < 100 ==> counts[v] == TotalCount(rng[..n], KeyString(v))
    {
      var s := rng[n];
      var j := 0;
      while j < 100
        invariant 0 <= j <= 100 && |counts| == 100
        invariant forall v :: 0 <= v < j ==> counts[v] == TotalCount(rng[..n + 1], KeyString(v))
        invariant forall v :: j <= v < 100 ==> counts[v] == TotalCount(rng[..n], KeyString(v))
      {
        TotalCountStep(rng, n, KeyString(j));
        counts := counts[j := counts[j] + Count(s, KeyString(j))];
        j := j + 1;
      }
      n := n + 1;
    }
    assert rng[..n] == rng;
    var d: seq<string> := [];
    var i := 0;
    while i < 100
      invariant 0 <= i <= 100
      invariant Ascending(d)
      invariant forall k :: k in d <==> IsKey(k) && KeyValue(k) < i && TotalCount(rng, k) == rnd
    {
      var pair := KeyString(i);
      if counts[i] == rnd {
        d := d + [pair];
      }
      forall k | IsKey(k) && KeyValue(k) == i ensures k == pair {
        KeyStringOfValue(k);
      }
      i := i + 1;
    }
    AscendingUnique(d, JnKeys(rng, rnd));
    r := Join(',', d);
  }

  /** For a fixed window the levels of jn are disjoint and cover the
      hundred keys: each key is in the level of its own count and in no
      other. */
  lemma JnPartition(rng: seq<string>, k: string, rnd: int)
    requires IsKey(k)
    ensures k in JnKeys(rng, TotalCount(rng, k))
    ensures k in JnKeys(rng, rnd) <==> rnd == TotalCount(rng, k)
  {
  }

  /** jn(rng, rnd) is empty exactly when no key is counted rnd times, and
      otherwise splitting it at the commas gives back its keys. */
  lemma JnMembers(rng: seq<string>, rnd: int)
    ensures JnKeys(rng, rnd) == [] <==> Join(',', JnKeys(rng, rnd)) == ""
    ensures JnKeys(rng, rnd) != [] ==> Split(Join(',', JnKeys(rng, rnd)), ',') == JnKeys(rng, rnd)
  {
    var ks := JnKeys(rng, rnd);
    if ks != [] {
      SplitKeys(ks);
      assert IsKey(ks[0]);
      assert |Join(',', ks)| >= 2;
    }
  }

  /** all_numbers: s.split() of every dan, concatenated in order. */
  function AllTokens(dans: seq<string>): seq<string>
  {
    if |dans| == 0 then [] else AllTokens(dans[..|dans| - 1]) + Words(dans[|dans| - 1])
  }

  predicate AllKeys(tokens: seq<string>)
  {
    forall j :: 0 <= j < |tokens| ==> IsKey(tokens[j])
  }

  /** How often each key occurs among the tokens, indexed by key value. */
  function Frequencies(tokens: seq<string>): (r: seq<nat>)
    ensures |r| == 100
  {
    seq(100, v requires 0 <= v < 100 => multiset(tokens)[KeyString(v)])
  }

  /** The keys of value below i whose frequency is l, in key order. */
  function Group(freq: seq<nat>, l: nat, i: nat): seq<string>
    requires i <= |freq| <= 100
  {
    if i == 0 then []
    else Group(freq, l, i - 1) + (if freq[i - 1] == l then [KeyString(i - 1)] else [])
  }

  lemma {:induction false} GroupSpec(freq: seq<nat>, l: nat, i: nat)
    requires i <= |freq| <= 100
    ensures Ascending(Group(freq, l, i))
    ensures forall k :: k in Group(freq, l, i) <==> IsKey(k) && KeyValue(k) < i && freq[KeyValue(k)] == l
  {
    if i > 0 {
      GroupSpec(freq, l, i - 1);
      forall k | IsKey(k) && KeyValue(k) == i - 1 ensures k == KeyString(i - 1) {
        KeyStringOfValue(k);
      }
    }
  }

  /** The levels hi, hi - 1, .., lo that some key has as its frequency,
      highest first, each with its keys in key order. */
  function Levels(freq: seq<nat>, hi: nat, lo: nat): seq<(nat, seq<string>)>
    requires |freq| == 100
    decreases hi + 1 - lo
  {
    if lo > hi then []
    else
      var g := Group(freq, lo, |freq|);
      Levels(freq, hi, lo + 1) + (if g != [] then [(lo, g)] else [])
  }

  /** calculate_muc_so(dan_nuoi_list): every key's frequency among the
      tokens, grouped by frequency, highest level first. */
  function MucSo(dans: seq<string>): seq<(nat, seq<string>)>
  {
    TokenLevels(AllTokens(dans), 0)
  }

  /** The levels from |t| down to lo of the keys' frequencies among t. */
  function TokenLevels(t: seq<string>, lo: nat): seq<(nat, seq<string>)>
  {
    Levels(Frequencies(t), |t|, lo)
  }

  /** The loop that fills frequency: each token adds one to its key. */
  method Tally(tokens: seq<string>) returns (freq: seq<nat>)
    requires AllKeys(tokens)
    ensures freq == Frequencies(tokens)
  {
    freq := seq(100, v => 0);
    var n := 0;
    while n < |tokens|
      invariant 0 <= n <= |tokens| && |freq| == 100
      invariant forall v :: 0 <= v < 100 ==> freq[v] == multiset(tokens[..n])[KeyString(v)]
    {
      var num := tokens[n];
      assert tokens[..n + 1] == tokens[..n] + [num];
      KeyStringOfValue(num);
      var v := KeyValue(num);
      freq := freq[v := freq[v] + 1];
      n := n + 1;
    }
    assert tokens[..n] == tokens;
  }

  /** The loop that fills levels (each key appended to the list of its
      frequency, in key order) followed by the walk over the levels from
      hi down to lo. Every list is already in key order, so sorting it by
      int is the identity. */
  method GroupLevels(freq: seq<nat>, hi: nat, lo: nat) returns (result: seq<(nat, seq<string>)>)
    requires |freq| == 100
    ensures result == Levels(freq, hi, lo)
  {
    var levels := LevelMap(freq);
    result := [];
    var l := hi;
    while l >= lo
      invariant l <= hi && (lo - 1 <= l || l == hi)
      invariant result == Levels(freq, hi, l + 1)
    {
      result := AddGroup(freq, hi, l, levels, result);
      l := l - 1;
    }
  }

  /** levels maps each frequency l of a key of value below v to the keys of
      that frequency, in key order. */
  ghost predicate GroupMap(freq: seq<nat>, levels: map<nat, seq<string>>, v: nat)
    requires v <= |freq| <= 100
  {
    (forall l :: l in levels <==> Group(freq, l, v) != []) &&
    (forall l :: l in levels ==> levels[l] == Group(freq, l, v))
  }

  /** The loop over range(100) that fills levels. */
  method LevelMap(freq: seq<nat>) returns (levels: map<nat, seq<string>>)
    requires |freq| == 100
    ensures GroupMap(freq, levels, 100)
  {
    levels := map[];
    var v := 0;
    while v < 100
      invariant 0 <= v <= 100
      invariant GroupMap(freq, levels, v)
    {
      levels := AddKey(freq, v, levels);
      v := v + 1;
    }
  }

  /** One pass: key v goes to the end of the list of its frequency. */
  method AddKey(freq: seq<nat>, v: nat, levels: map<nat, seq<string>>) returns (next: map<nat, seq<string>>)
    requires |freq| == 100 && v < 100
    requires GroupMap(freq, levels, v)
    ensures GroupMap(freq, next, v + 1)
  {
    var f := freq[v];
    next := levels;
    if f !in next {
      next := next[f := []];
    }
    next := next[f := next[f] + [KeyString(v)]];
    forall l ensures (l in next <==> Group(freq, l, v + 1) != []) && (l in next ==> next[l] == Group(freq, l, v + 1)) {
      assert Group(freq, l, v + 1) == Group(freq, l, v) + (if freq[v] == l then [KeyString(v)] else []);
    }
  }

  /** One pass of the walk down the levels: level l, when some key has it. */
  method AddGroup(freq: seq<nat>, hi: nat, l: nat, levels: map<nat, seq<string>>, acc: seq<(nat, seq<string>)>)
    returns (next: seq<(nat, seq<string>)>)
    requires |freq| == 100 && l <= hi
    requires GroupMap(freq, levels, 100)
    requires acc == Levels(freq, hi, l + 1)
    ensures next == Levels(freq, hi, l)
  {
    next := acc;
    if l in levels {
      next := acc + [(l, levels[l])];
    }
  }

  /** calculate_muc_so: tokenises every dan, tallies the tokens and groups
      the 100 keys by frequency. The levels are visited from |all_numbers|
      down, no frequency being larger. */
  method CalculateMucSo(dans: seq<string>) returns (result: seq<(nat, seq<string>)>)
    requires AllKeys(AllTokens(dans))
    ensures result == MucSo(dans)
  {
    var all: seq<string> := [];
    var i := 0;
    while i < |dans|
      invariant 0 <= i <= |dans|
      invariant all == AllTokens(dans[..i])
    {
      assert dans[..i + 1][..i] == dans[..i];
      all := all + Words(dans[i]);
      i := i + 1;
    }
    assert dans[..i] == dans;
    var freq := Tally(all);
    result := GroupLevels(freq, |all|, 0);
  }

  /** Levels lo..hi, strictly from the highest down, each holding the
      non-empty group of keys with that frequency. */
  predicate LevelsShaped(freq: seq<nat>, r: seq<(nat, seq<string>)>, hi: nat, lo: nat)
    requires |freq| == 100
  {
    (forall a :: 0 <= a < |r| ==> lo <= r[a].0 <= hi && r[a].1 == Group(freq, r[a].0, |freq|) && r[a].1 != []) &&
    (forall a, b :: 0 <= a < b < |r| ==> r[a].0 > r[b].0)
  }

  lemma {:induction false} LevelsSpec(freq: seq<nat>, hi: nat, lo: nat)
    requires |freq| == 100
    ensures LevelsShaped(freq, Levels(freq, hi, lo), hi, lo)
    decreases hi + 1 - lo
  {
    if lo <= hi {
      LevelsSpec(freq, hi, lo + 1);
      var p := Levels(freq, hi, lo + 1);
      var g := Group(freq, lo, |freq|);
      var r := Levels(freq, hi, lo);
      assert r == p + (if g != [] then [(lo, g)] else []);
      assert forall a :: 0 <= a < |p| ==> r[a] == p[a];
    }
  }

  /** Every level in lo..hi that some key has appears in Levels, at the
      index returned. */
  lemma {:induction false} LevelsComplete(freq: seq<nat>, hi: nat, lo: nat, l: nat) returns (a: nat)
    requires |freq| == 100
    requires lo <= l <= hi && Group(freq, l, |freq|) != []
    ensures a < |Levels(freq, hi, lo)| && Levels(freq, hi, lo)[a].0 == l
    decreases hi + 1 - lo
  {
    var p := Levels(freq, hi, lo + 1);
    var g := Group(freq, lo, |freq|);
    var r := Levels(freq, hi, lo);
    assert r == p + (if g != [] then [(lo, g)] else []);
    if l == lo {
      a := |p|;
    } else {
      a := LevelsComplete(freq, hi, lo + 1, l);
    }
  }

  /** No key is counted more often than there are tokens. */
  lemma {:induction false} FrequencyBound(t: seq<string>, x: string)
    ensures multiset(t)[x] <= |t|
  {
    if t != [] {
      FrequencyBound(t[..|t| - 1], x);
      assert t == t[..|t| - 1] + [t[|t| - 1]];
    }
  }

  /** The levels of a token list run strictly from the highest down, none
      below lo; each holds, in key order, exactly the keys with that
      frequency, and every key counted at least lo times sits in one. */
  lemma TokenLevelsSpec(t: seq<string>, lo: nat)
    ensures forall a, b :: 0 <= a < b < |TokenLevels(t, lo)| ==> TokenLevels(t, lo)[a].0 > TokenLevels(t, lo)[b].0
    ensures forall a :: 0 <= a < |TokenLevels(t, lo)| ==>
      lo <= TokenLevels(t, lo)[a].0 && TokenLevels(t, lo)[a].1 != [] && Ascending(TokenLevels(t, lo)[a].1)
    ensures forall a, k :: 0 <= a < |TokenLevels(t, lo)| ==>
      (k in TokenLevels(t, lo)[a].1 <==> IsKey(k) && multiset(t)[k] == TokenLevels(t, lo)[a].0)
    ensures forall k :: IsKey(k) && multiset(t)[k] >= lo ==>
      exists a :: 0 <= a < |TokenLevels(t, lo)| && k in TokenLevels(t, lo)[a].1
  {
    var freq := Frequencies(t);
    var r := TokenLevels(t, lo);
    LevelsSpec(freq, |t|, lo);
    forall a | 0 <= a < |r| ensures Ascending(r[a].1)
      ensures forall k :: k in r[a].1 <==> IsKey(k) && multiset(t)[k] == r[a].0
    {
      GroupSpec(freq, r[a].0, |freq|);
      forall k | IsKey(k) ensures freq[KeyValue(k)] == multiset(t)[k] {
        KeyStringOfValue(k);
      }
    }
    forall k | IsKey(k) && multiset(t)[k] >= lo ensures exists a :: 0 <= a < |r| && k in r[a].1 {
      var l := multiset(t)[k];
      FrequencyBound(t, k);
      GroupSpec(freq, l, |freq|);
      KeyStringOfValue(k);
      assert k in Group(freq, l, |freq|);
      var a := LevelsComplete(freq, |t|, lo, l);
      GroupSpec(freq, r[a].0, |freq|);
    }
  }

  /** calculate_muc_so lists its levels strictly from the highest down;
      each level holds, in key order, exactly the keys with that frequency,
      so every key sits in exactly one level (a key that never occurs, in
      level 0). */
  lemma MucSoLevels(dans: seq<string>)
    ensures forall a, b :: 0 <= a < b < |MucSo(dans)| ==> MucSo(dans)[a].0 > MucSo(dans)[b].0
    ensures forall a :: 0 <= a < |MucSo(dans)| ==> MucSo(dans)[a].1 != [] && Ascending(MucSo(dans)[a].1)
    ensures forall a, k :: 0 <= a < |MucSo(dans)| ==>
      (k in MucSo(dans)[a].1 <==> IsKey(k) && multiset(AllTokens(dans))[k] == MucSo(dans)[a].0)
    ensures forall k :: IsKey(k) ==> exists a :: 0 <= a < |MucSo(dans)| && k in MucSo(dans)[a].1
  {
    var t := AllTokens(dans);
    TokenLevelsSpec(t, 0);
    var r := MucSo(dans);
    assert r == TokenLevels(t, 0);
    forall k | IsKey(k) ensures exists a :: 0 <= a < |r| && k in r[a].1 {
      assert multiset(t)[k] >= 0;
    }
  }

  /** The test behind Mức 0: the key was not selected. */
  function NotSelected(selected: seq<string>): string -> bool
  {
    k => k !in selected
  }

  /** muc_0: the keys "00".."99" not among the selected ones, ascending. */
  function MucZero(selected: seq<string>): (r: seq<string>)
    ensures Ascending(r)
    ensures forall k :: k in r <==> IsKey(k) && k !in selected
  {
    KeysWhere(NotSelected(selected))
  }

  /** The summary tab's frequency groups: Counter(all_selected) grouped by
      count, highest first; a Counter holds no zero counts. */
  function FreqGroups(selected: seq<string>): seq<(nat, seq<string>)>
  {
    TokenLevels(selected, 1)
  }

  /** The summary tab: counts the selected keys, groups them by count and
      lists the keys never selected as Mức 0. */
  method FrequencyGroups(selected: seq<string>) returns (groups: seq<(nat, seq<string>)>, muc0: seq<string>)
    requires AllKeys(selected)
    ensures groups == FreqGroups(selected)
    ensures muc0 == MucZero(selected)
  {
    var freq := Tally(selected);
    groups := GroupLevels(freq, |selected|, 1);
    muc0 := MucZero(selected);
  }

  /** The frequency groups followed by Mức 0 are exactly what
      calculate_muc_so gives for the same tokens: every key is either in
      Mức 0 or in the one group of its count. */
  lemma FreqGroupsWithMucZero(selected: seq<string>)
    ensures TokenLevels(selected, 0) ==
      FreqGroups(selected) + (if MucZero(selected) != [] then [(0, MucZero(selected))] else [])
  {
    var freq := Frequencies(selected);
    var g := Group(freq, 0, |freq|);
    GroupSpec(freq, 0, |freq|);
    forall k | IsKey(k) ensures freq[KeyValue(k)] == multiset(selected)[k] {
      KeyStringOfValue(k);
    }
    AscendingUnique(g, MucZero(selected));
  }

  /** The sum of level × number of members over a list of levels. */
  function Weight(r: seq<(nat, seq<string>)>): nat
  {
    if r == [] then 0 else Weight(r[..|r| - 1]) + r[|r| - 1].0 * |r[|r| - 1].1|
  }

  /** The sum of l × |Group(freq, l, i)| for l from lo to hi. */
  function LevelSum(freq: seq<nat>, hi: nat, lo: nat, i: nat): nat
    requires i <= |freq| == 100
    decreases hi + 1 - lo
  {
    if lo > hi then 0 else LevelSum(freq, hi, lo + 1, i) + lo * |Group(freq, lo, i)|
  }

  /** The sum of freq[v] for v below i. */
  function FreqSum(freq: seq<nat>, i: nat): nat
    requires i <= |freq|
  {
    if i == 0 then 0 else FreqSum(freq, i - 1) + freq[i - 1]
  }

  /** The sum over the keys of value below i of their count in t. */
  function KeyCount(t: seq<string>, i: nat): nat
    requires i <= 100
  {
    if i == 0 then 0 else KeyCount(t, i - 1) + multiset(t)[KeyString(i - 1)]
  }

  lemma {:induction false} WeightLevels(freq: seq<nat>, hi: nat, lo: nat)
    requires |freq| == 100
    ensures Weight(Levels(freq, hi, lo)) == LevelSum(freq, hi, lo, |freq|)
    decreases hi + 1 - lo
  {
    if lo <= hi {
      WeightLevels(freq, hi, lo + 1);
      var p := Levels(freq, hi, lo + 1);
      var g := Group(freq, lo, |freq|);
      var r := Levels(freq, hi, lo);
      assert r == p + (if g != [] then [(lo, g)] else []);
      if g != [] {
        assert r[..|r| - 1] == p;
      } else {
        assert r == p;
      }
    }
  }

  /** Adding key i to the groups adds its frequency to the level sum when
      that frequency lies in lo..hi. */
  lemma {:induction false} LevelSumStep(freq: seq<nat>, hi: nat, lo: nat, i: nat)
    requires i < |freq| == 100
    ensures LevelSum(freq, hi, lo, i + 1) == LevelSum(freq, hi, lo, i) + (if lo <= freq[i] <= hi then freq[i] else 0)
    decreases hi + 1 - lo
  {
    if lo <= hi {
      LevelSumStep(freq, hi, lo + 1, i);
      var a := |Group(freq, lo, i)|;
      var d := if freq[i] == lo then 1 else 0;
      assert |Group(freq, lo, i + 1)| == a + d;
      MulAddOne(lo, a, d);
    }
  }

  lemma MulAddOne(x: nat, a: nat, d: nat)
    requires d <= 1
    ensures x * (a + d) == x * a + (if d == 1 then x else 0)
  {
  }

  lemma {:induction false} LevelSumAll(freq: seq<nat>, hi: nat, i: nat)
    requires i <= |freq| == 100
    requires forall v :: 0 <= v < |freq| ==> freq[v] <= hi
    ensures LevelSum(freq, hi, 0, i) == FreqSum(freq, i)
  {
    if i == 0 {
      LevelSumEmpty(freq, hi, 0);
    } else {
      LevelSumAll(freq, hi, i - 1);
      LevelSumStep(freq, hi, 0, i - 1);
    }
  }

  lemma {:induction false} LevelSumEmpty(freq: seq<nat>, hi: nat, lo: nat)
    requires |freq| == 100
    ensures LevelSum(freq, hi, lo, 0) == 0
    decreases hi + 1 - lo
  {
    if lo <= hi {
      LevelSumEmpty(freq, hi, lo + 1);
    }
  }

  lemma {:induction false} FreqSumKeyCount(t: seq<string>, i: nat)
    requires i <= 100
    ensures FreqSum(Frequencies(t), i) == KeyCount(t, i)
  {
    if i > 0 {
      FreqSumKeyCount(t, i - 1);
    }
  }

  /** One more key token adds one to the count of exactly its own key. */
  lemma {:induction false} KeyCountStep(t: seq<string>, x: string, i: nat)
    requires i <= 100 && IsKey(x)
    ensures KeyCount(t + [x], i) == KeyCount(t, i) + (if KeyValue(x) < i then 1 else 0)
  {
    if i > 0 {
      KeyCountStep(t, x, i - 1);
      assert multiset(t + [x]) == multiset(t) + multiset{x};
      assert KeyString(i - 1) == x <==> KeyValue(x) == i - 1 by {
        KeyStringOfValue(x);
      }
    }
  }

  /** When every token is a key, the counts over the 100 keys add up to
      the number of tokens. */
  lemma {:induction false} KeyCountAll(t: seq<string>)
    requires AllKeys(t)
    ensures KeyCount(t, 100) == |t|
  {
    if t == [] {
      KeyCountEmpty(100);
    } else {
      var u := t[..|t| - 1];
      assert t == u + [t[|t| - 1]];
      KeyCountAll(u);
      KeyCountStep(u, t[|t| - 1], 100);
    }
  }

  lemma {:induction false} KeyCountEmpty(i: nat)
    requires i <= 100
    ensures KeyCount([], i) == 0
  {
    if i > 0 {
      KeyCountEmpty(i - 1);
    }
  }

  /** Summing level × number of members over calculate_muc_so's levels
      gives back the number of tokens, when every token is a key. */
  lemma MucSoTotal(dans: seq<string>)
    requires AllKeys(AllTokens(dans))
    ensures Weight(MucSo(dans)) == |AllTokens(dans)|
  {
    var t := AllTokens(dans);
    var freq := Frequencies(t);
    WeightLevels(freq, |t|, 0);
    forall v | 0 <= v < |freq| ensures freq[v] <= |t| {
      FrequencyBound(t, KeyString(v));
    }
    LevelSumAll(freq, |t|, |freq|);
    FreqSumKeyCount(t, |freq|);
    KeyCountAll(t);
  }
}
