/** Classification tables in the shape of the source's dictionaries: an
    ordered list of (label, member list) entries. A member key such as "07"
    is stored by its value, 7; KeyString and KeyValue convert between the
    two, so a lookup of a key string p is a lookup of KeyValue(p), and a
    string that is not a key can match no member. */
module Tables {
  import opened Keys
  import opened Text

  type Table<L> = seq<(L, seq<int>)>

  function OwnerFrom<L>(d: Table<L>, v: int, j: nat): (t: int)
    requires j <= |d|
    ensures t == -1 || j <= t < |d|
    ensures t >= 0 ==> v in d[t].1 && forall u :: j <= u < t ==> v !in d[u].1
    ensures t == -1 ==> forall u :: j <= u < |d| ==> v !in d[u].1
    decreases |d| - j
  {
    if j == |d| then -1
    else if v in d[j].1 then j
    else OwnerFrom(d, v, j + 1)
  }

  /** `for label, vals in d.items(): if v in vals: return label`: the index
      of the first entry whose list holds v, or -1 when none does. */
  function OwnerIndex<L>(d: Table<L>, v: int): (t: int)
    ensures -1 <= t < |d|
    ensures t >= 0 ==> v in d[t].1 && forall u :: 0 <= u < t ==> v !in d[u].1
    ensures t == -1 ==> forall u :: 0 <= u < |d| ==> v !in d[u].1
  {
    OwnerFrom(d, v, 0)
  }

  function LabelFrom<L(==)>(d: Table<L>, l: L, j: nat): (t: int)
    requires j <= |d|
    ensures t == -1 || j <= t < |d|
    ensures t >= 0 ==> d[t].0 == l
    ensures t == -1 ==> forall u :: j <= u < |d| ==> d[u].0 != l
    decreases |d| - j
  {
    if j == |d| then -1
    else if d[j].0 == l then j
    else LabelFrom(d, l, j + 1)
  }

  /** `l in d` / `d.get(l)`: the index of the entry labelled l, or -1. */
  function LabelIndex<L(==)>(d: Table<L>, l: L): (t: int)
    ensures -1 <= t < |d|
    ensures t >= 0 ==> d[t].0 == l
    ensures t == -1 ==> forall u :: 0 <= u < |d| ==> d[u].0 != l
  {
    LabelFrom(d, l, 0)
  }

  /** Every member of entry t is a key value whose class is t. */
  ghost predicate Sound<L>(d: Table<L>, cls: int -> int)
  {
    forall t, p :: 0 <= t < |d| && 0 <= p < |d[t].1| ==> 0 <= d[t].1[p] < 100 && cls(d[t].1[p]) == t
  }

  /** Every key value that has a class lies in that class's entry. */
  ghost predicate Complete<L>(d: Table<L>, cls: int -> int)
  {
    forall v :: 0 <= v < 100 && cls(v) >= 0 ==> cls(v) < |d| && v in d[cls(v)].1
  }

  /** A sound table's lists are pairwise disjoint. */
  lemma Disjoint<L>(d: Table<L>, cls: int -> int, t: int, u: int, v: int)
    requires Sound(d, cls)
    requires 0 <= t < |d| && 0 <= u < |d|
    ensures v in d[t].1 && v in d[u].1 ==> t == u
  {
    if v in d[t].1 && v in d[u].1 {
      var p :| 0 <= p < |d[t].1| && d[t].1[p] == v;
      var q :| 0 <= q < |d[u].1| && d[u].1[q] == v;
    }
  }

  /** In a sound and complete table, the first-match scan finds exactly the
      class of a key, and nothing for a value without one. */
  lemma OwnerIsClass<L>(d: Table<L>, cls: int -> int, v: int)
    requires Sound(d, cls) && Complete(d, cls)
    ensures OwnerIndex(d, v) == if 0 <= v < 100 && cls(v) >= 0 then cls(v) else -1
  {
    var t := OwnerIndex(d, v);
    if t >= 0 {
      var p :| 0 <= p < |d[t].1| && d[t].1[p] == v;
    }
  }

  /** Every member of every entry is a key value. */
  predicate KeyMembers<L>(d: Table<L>)
  {
    forall t, p :: 0 <= t < |d| && 0 <= p < |d[t].1| ==> 0 <= d[t].1[p] < 100
  }

  /** The members of entry t, as key strings. */
  function MemberKeys<L>(d: Table<L>, t: int): (ks: seq<string>)
    requires 0 <= t < |d| && KeyMembers(d)
    ensures |ks| == |d[t].1|
    ensures forall p :: 0 <= p < |ks| ==> IsKey(ks[p]) && KeyValue(ks[p]) == d[t].1[p]
  {
    seq(|d[t].1|, p requires 0 <= p < |d[t].1| => KeyString(d[t].1[p]))
  }

  /** The members of a sound table's entry t are exactly the keys of class t. */
  lemma MemberKeysAreClass<L>(d: Table<L>, cls: int -> int, t: int, k: string)
    requires Sound(d, cls) && Complete(d, cls) && 0 <= t < |d|
    ensures k in MemberKeys(d, t) <==> IsKey(k) && cls(KeyValue(k)) == t
  {
    var ks := MemberKeys(d, t);
    if k in ks {
      var p :| 0 <= p < |ks| && ks[p] == k;
    }
    if IsKey(k) && cls(KeyValue(k)) == t {
      var v := KeyValue(k);
      var p :| 0 <= p < |d[t].1| && d[t].1[p] == v;
      KeyValueInjective(ks[p], k);
    }
  }

  /** `",".join(d.get(l, []))`: the members of the entry labelled l,
      separated by commas, or "" when no entry has that label. */
  function Dan<L(==)>(d: Table<L>, l: L): string
    requires KeyMembers(d)
  {
    var t := LabelIndex(d, l);
    if t >= 0 then Join(',', MemberKeys(d, t)) else ""
  }

  lemma KeyHasNoComma(k: string)
    requires IsKey(k)
    ensures ',' !in k
  {
    assert k == [k[0], k[1]];
  }

  /** Keys hold no comma, so a comma-joined list of keys splits back
      into the same list. */
  lemma SplitKeys(ks: seq<string>)
    requires |ks| >= 1
    requires forall j :: 0 <= j < |ks| ==> IsKey(ks[j])
    ensures Split(Join(',', ks), ',') == ks
  {
    forall j | 0 <= j < |ks| ensures ',' !in ks[j] {
      KeyHasNoComma(ks[j]);
    }
    SplitJoin(',', ks);
  }

  /** Splitting the dan of an entry's label on commas lists that entry's
      members again: exactly the keys of its class, as many as the list. */
  lemma DanMembers<L>(d: Table<L>, cls: int -> int, l: L)
    requires Sound(d, cls) && Complete(d, cls)
    requires LabelIndex(d, l) >= 0 && |d[LabelIndex(d, l)].1| > 0
    ensures KeyMembers(d)
    ensures |Split(Dan(d, l), ',')| == |d[LabelIndex(d, l)].1|
    ensures forall k :: k in Split(Dan(d, l), ',') <==> IsKey(k) && cls(KeyValue(k)) == LabelIndex(d, l)
  {
    var t := LabelIndex(d, l);
    var ks := MemberKeys(d, t);
    SplitKeys(ks);
    forall k ensures k in ks <==> IsKey(k) && cls(KeyValue(k)) == t {
      MemberKeysAreClass(d, cls, t, k);
    }
  }

  /** A table labelled by an injective lab: the label of entry t leads
      back to entry t. */
  lemma LabelIndexOf<L>(d: Table<L>, lab: int -> L, t: int)
    requires LabelsFrom(d, lab, 0) && 0 <= t < |d|
    requires forall u, w :: 0 <= u < w < |d| ==> lab(u) != lab(w)
    ensures LabelIndex(d, d[t].0) == t
  {
    var u := LabelIndex(d, d[t].0);
    LabelsAt(d, lab, 0, t);
    if u >= 0 { LabelsAt(d, lab, 0, u); }
  }

  /** In a sound and complete table with distinct labels, the dàn of the
      label of v's class lists exactly the keys of that class. */
  lemma DanOfClass<L>(d: Table<L>, cls: int -> int, lab: int -> L, v: int)
    requires Sound(d, cls) && Complete(d, cls)
    requires LabelsFrom(d, lab, 0)
    requires forall u, w :: 0 <= u < w < |d| ==> lab(u) != lab(w)
    requires 0 <= v < 100 && cls(v) >= 0
    ensures 0 <= cls(v) < |d| && KeyMembers(d)
    ensures forall x :: x in Split(Dan(d, d[cls(v)].0), ',') <==> IsKey(x) && cls(KeyValue(x)) == cls(v)
  {
    var t := cls(v);
    LabelIndexOf(d, lab, t);
    DanMembers(d, cls, d[t].0);
  }

  /** The reverse index built by `for k, vs in d.items(): for v in vs:
      R[v] = k`; a later entry overwrites an earlier one. */
  function ReverseIndex<L>(d: Table<L>): map<int, L>
    decreases |d|
  {
    if d == [] then map[]
    else ReverseIndex(d[..|d| - 1]) + EntryIndex(d[|d| - 1].0, d[|d| - 1].1)
  }

  function EntryIndex<L>(l: L, vs: seq<int>): (m: map<int, L>)
    ensures forall v :: v in m <==> v in vs
    ensures forall v :: v in m ==> m[v] == l
  {
    map v | v in vs :: l
  }

  /** Looking a value up in the reverse index of a sound table agrees with
      the first-match scan of the table itself. */
  lemma {:induction false} ReverseIndexAgrees<L>(d: Table<L>, cls: int -> int, v: int)
    requires Sound(d, cls)
    ensures v in ReverseIndex(d) <==> OwnerIndex(d, v) >= 0
    ensures v in ReverseIndex(d) ==> ReverseIndex(d)[v] == d[OwnerIndex(d, v)].0
    decreases |d|
  {
    if d != [] {
      var n := |d| - 1;
      var e := d[..n];
      assert Sound(e, cls) by {
        forall t, p | 0 <= t < |e| && 0 <= p < |e[t].1|
          ensures 0 <= e[t].1[p] < 100 && cls(e[t].1[p]) == t
        {
          assert e[t] == d[t];
        }
      }
      ReverseIndexAgrees(e, cls, v);
      var te := OwnerIndex(e, v);
      var td := OwnerIndex(d, v);
      if te >= 0 {
        assert e[te] == d[te];
        assert td == te by {
          if td >= 0 { Disjoint(d, cls, td, te, v); }
        }
      } else {
        assert forall u :: 0 <= u < n ==> e[u] == d[u];
        assert td == -1 || td == n;
      }
    }
  }

  /** The loop that fills the reverse index, entry by entry and member by
      member, so that a later entry overwrites an earlier one. */
  method BuildReverseIndex<L>(d: Table<L>) returns (m: map<int, L>)
    ensures m == ReverseIndex(d)
  {
    m := map[];
    var j := 0;
    while j < |d|
      invariant 0 <= j <= |d|
      invariant m == ReverseIndex(d[..j])
    {
      m := AddEntry(m, d[j].0, d[j].1);
      assert d[..j + 1][..j] == d[..j];
      j := j + 1;
    }
    assert d[..j] == d;
  }

  /** The inner loop: every member of the entry's list maps to its label. */
  method AddEntry<L>(m0: map<int, L>, l: L, vs: seq<int>) returns (m: map<int, L>)
    ensures m == m0 + EntryIndex(l, vs)
  {
    m := m0;
    var p := 0;
    while p < |vs|
      invariant 0 <= p <= |vs|
      invariant m == m0 + EntryIndex(l, vs[..p])
    {
      assert vs[..p + 1] == vs[..p] + [vs[p]];
      m := m[vs[p] := l];
      p := p + 1;
    }
    assert vs[..p] == vs;
  }

  /** Executable checks, evaluated on the literal tables entry by entry and
      row by row, that establish Sound and Complete. */
  predicate EntrySound<L>(d: Table<L>, cls: int -> int, t: nat, p: nat)
    requires t < |d|
    decreases |d[t].1| - p
  {
    p >= |d[t].1| || (var m := d[t].1[p]; 0 <= m < 100 && cls(m) == t && EntrySound(d, cls, t, p + 1))
  }

  predicate RowComplete<L>(d: Table<L>, cls: int -> int, a: nat, b: nat)
    decreases 10 - b
  {
    b >= 10 ||
    ((var c := cls(10 * a + b); c < 0 || (c < |d| && 10 * a + b in d[c].1)) &&
     RowComplete(d, cls, a, b + 1))
  }

  lemma {:induction false} EntrySoundAt<L>(d: Table<L>, cls: int -> int, t: nat, p: nat, q: nat)
    requires t < |d| && EntrySound(d, cls, t, p) && p <= q < |d[t].1|
    ensures 0 <= d[t].1[q] < 100 && cls(d[t].1[q]) == t
    decreases q - p
  {
    if p < q { EntrySoundAt(d, cls, t, p + 1, q); }
  }

  lemma SoundByCheck<L>(d: Table<L>, cls: int -> int)
    requires forall t :: 0 <= t < |d| ==> EntrySound(d, cls, t, 0)
    ensures Sound(d, cls)
  {
    forall t, p | 0 <= t < |d| && 0 <= p < |d[t].1|
      ensures 0 <= d[t].1[p] < 100 && cls(d[t].1[p]) == t
    {
      EntrySoundAt(d, cls, t, 0, p);
    }
  }

  lemma {:induction false} RowCompleteAt<L>(d: Table<L>, cls: int -> int, a: nat, b: nat, c: nat)
    requires RowComplete(d, cls, a, b) && b <= c < 10
    ensures cls(10 * a + c) < 0 || (cls(10 * a + c) < |d| && 10 * a + c in d[cls(10 * a + c)].1)
    decreases c - b
  {
    if b < c { RowCompleteAt(d, cls, a, b + 1, c); }
  }

  lemma CompleteByCheck<L>(d: Table<L>, cls: int -> int)
    requires forall a :: 0 <= a < 10 ==> RowComplete(d, cls, a, 0)
    ensures Complete(d, cls)
  {
    forall v | 0 <= v < 100 && cls(v) >= 0
      ensures cls(v) < |d| && v in d[cls(v)].1
    {
      RowCompleteAt(d, cls, v / 10, 0, v % 10);
    }
  }

  /** Entry t carries label lab(t), for every entry from t on. */
  predicate LabelsFrom<L(==)>(d: Table<L>, lab: int -> L, t: nat)
    decreases |d| - t
  {
    t >= |d| || (d[t].0 == lab(t) && LabelsFrom(d, lab, t + 1))
  }

  lemma {:induction false} LabelsAt<L>(d: Table<L>, lab: int -> L, s: nat, t: nat)
    requires LabelsFrom(d, lab, s) && s <= t < |d|
    ensures d[t].0 == lab(t)
    decreases t - s
  {
    if s < t { LabelsAt(d, lab, s + 1, t); }
  }

  /** No list of entries t.. repeats a member. */
  predicate EntryDistinct<L>(d: Table<L>, t: nat, p: nat)
    requires t < |d|
    decreases |d[t].1| - p
  {
    p >= |d[t].1| || (Absent(d[t].1, d[t].1[p], p + 1) && EntryDistinct(d, t, p + 1))
  }

  /** x is none of l[q..]. */
  predicate Absent(l: seq<int>, x: int, q: nat)
    decreases |l| - q
  {
    q >= |l| || (l[q] != x && Absent(l, x, q + 1))
  }

  lemma {:induction false} AbsentAt(l: seq<int>, x: int, s: nat, q: nat)
    requires Absent(l, x, s) && s <= q < |l|
    ensures l[q] != x
    decreases q - s
  {
    if s < q { AbsentAt(l, x, s + 1, q); }
  }

  ghost predicate Distinct<L>(d: Table<L>)
  {
    forall t, p, q :: 0 <= t < |d| && 0 <= p < q < |d[t].1| ==> d[t].1[p] != d[t].1[q]
  }

  lemma {:induction false} EntryDistinctAt<L>(d: Table<L>, t: nat, s: nat, p: nat, q: nat)
    requires t < |d| && EntryDistinct(d, t, s) && s <= p < q < |d[t].1|
    ensures d[t].1[p] != d[t].1[q]
    decreases p - s
  {
    if s < p {
      EntryDistinctAt(d, t, s + 1, p, q);
    } else {
      AbsentAt(d[t].1, d[t].1[p], p + 1, q);
    }
  }

  lemma DistinctByCheck<L>(d: Table<L>)
    requires forall t :: 0 <= t < |d| ==> EntryDistinct(d, t, 0)
    ensures Distinct(d)
  {
    forall t, p, q | 0 <= t < |d| && 0 <= p < q < |d[t].1|
      ensures d[t].1[p] != d[t].1[q]
    {
      EntryDistinctAt(d, t, 0, p, q);
    }
  }

  /** The number of members of entries j.. counted with repeats. */
  function SizeFrom<L>(d: Table<L>, j: nat): nat
    decreases |d| - j
  {
    if j >= |d| then 0 else |d[j].1| + SizeFrom(d, j + 1)
  }

  /** The total number of members over all entries. */
  function TotalSize<L>(d: Table<L>): nat
  {
    SizeFrom(d, 0)
  }

  /** The members of entries j.. as a set. */
  function MembersFrom<L>(d: Table<L>, j: nat): (m: set<int>)
    ensures forall v :: v in m <==> exists t :: j <= t < |d| && v in d[t].1
    decreases |d| - j
  {
    if j >= |d| then {}
    else
      var rest := MembersFrom(d, j + 1);
      var m := (set x | x in d[j].1) + rest;
      assert forall v :: v in m ==> exists t :: j <= t < |d| && v in d[t].1 by {
        forall v | v in m ensures exists t :: j <= t < |d| && v in d[t].1 {
          if v in d[j].1 { assert j <= j < |d| && v in d[j].1; }
        }
      }
      m
  }

  /** A list without repeats has as many distinct members as entries. */
  lemma {:induction false} ListCard(l: seq<int>)
    requires forall p, q :: 0 <= p < q < |l| ==> l[p] != l[q]
    ensures |set x | x in l| == |l|
    decreases |l|
  {
    if l != [] {
      var n := |l| - 1;
      ListCard(l[..n]);
      assert (set x | x in l) == (set x | x in l[..n]) + {l[n]};
      assert l[n] !in l[..n];
    }
  }

  /** In a sound table without repeats, the members of entries j.. are as
      many as the entries' list lengths add up to. */
  lemma {:induction false} MembersCard<L>(d: Table<L>, cls: int -> int, j: nat)
    requires Sound(d, cls) && Distinct(d)
    ensures |MembersFrom(d, j)| == SizeFrom(d, j)
    decreases |d| - j
  {
    if j < |d| {
      MembersCard(d, cls, j + 1);
      var here := set x | x in d[j].1;
      forall v | v in here ensures v !in MembersFrom(d, j + 1) {
        forall t | j + 1 <= t < |d| ensures v !in d[t].1 {
          Disjoint(d, cls, j, t, v);
        }
      }
      assert here * MembersFrom(d, j + 1) == {};
      ListCard(d[j].1);
    }
  }

  /** [0, 1, .., n - 1] */
  function Upto(n: nat): (s: seq<int>)
    ensures |s| == n && forall i :: 0 <= i < n ==> s[i] == i
  {
    seq(n, i => i)
  }

  lemma SubsetSameCard(u: set<int>, r: set<int>)
    requires u <= r && |u| == |r|
    ensures u == r
  {
    assert |r - u| == |r| - |u|;
  }

  /** Counting in place of a check of every key: a sound table without
      repeats whose lists hold 100 members in all lists every key, when every
      key has a class. */
  lemma CompleteByCount<L>(d: Table<L>, cls: int -> int)
    requires Sound(d, cls) && Distinct(d) && TotalSize(d) == 100
    requires forall v :: 0 <= v < 100 ==> cls(v) >= 0
    ensures Complete(d, cls)
  {
    var u := MembersFrom(d, 0);
    var r := set v | v in Upto(100);
    MembersCard(d, cls, 0);
    ListCard(Upto(100));
    forall v | v in u ensures v in r {
      var t :| 0 <= t < |d| && v in d[t].1;
      var p :| 0 <= p < |d[t].1| && d[t].1[p] == v;
      assert Upto(100)[v] == v;
    }
    SubsetSameCard(u, r);
    forall v | 0 <= v < 100 && cls(v) >= 0 ensures cls(v) < |d| && v in d[cls(v)].1 {
      assert Upto(100)[v] == v;
      assert v in u;
      var t :| 0 <= t < |d| && v in d[t].1;
      var p :| 0 <= p < |d[t].1| && d[t].1[p] == v;
    }
  }
}
