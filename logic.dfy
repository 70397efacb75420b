/** logic.py: the bộ and kép tables with their classifiers, the bệt
    detector and the two expansions of the digits it finds. */
module Logic {
  import opened Keys
  import opened Tables
  import opened Text

  /** BO_DICT: fifteen bộ classes, each labelled by a key and listing its
      members. */
  const BoDict: Table<int> := [
    (00, [00, 55, 05, 50]), (11, [11, 66, 16, 61]), (22, [22, 77, 27, 72]), (33, [33, 88, 38, 83]),
    (44, [44, 99, 49, 94]), (01, [01, 10, 06, 60, 51, 15, 56, 65]), (02, [02, 20, 07, 70, 25, 52, 57, 75]),
    (03, [03, 30, 08, 80, 35, 53, 58, 85]), (04, [04, 40, 09, 90, 45, 54, 59, 95]), (12, [12, 21, 17, 71, 26, 62, 67, 76]),
    (13, [13, 31, 18, 81, 36, 63, 68, 86]), (14, [14, 41, 19, 91, 46, 64, 69, 96]), (23, [23, 32, 28, 82, 73, 37, 78, 87]),
    (24, [24, 42, 29, 92, 74, 47, 79, 97]), (34, [34, 43, 39, 93, 84, 48, 89, 98])
  ]

  function Mod5(d: int): int
  {
    if d >= 5 then d - 5 else d
  }

  /** The rule behind BO_DICT: a key's bộ is the pair of its digits taken
      mod 5, smaller first; the result is the label of its class. */
  function BoLabel(v: int): (l: int)
    requires 0 <= v < 100
    ensures 0 <= l < 100 && Tens(l) <= Units(l) < 5
    ensures Tens(l) == Mod5(Tens(v)) || Tens(l) == Mod5(Units(v))
    ensures {Tens(l), Units(l)} == {Mod5(Tens(v)), Mod5(Units(v))}
  {
    var x, y := Mod5(v / 10), Mod5(v % 10);
    TensUnits(x, y);
    TensUnits(y, x);
    if x <= y then 10 * x + y else 10 * y + x
  }

  lemma TensUnits(a: int, b: int)
    requires 0 <= a < 10 && 0 <= b < 10
    ensures Tens(10 * a + b) == a && Units(10 * a + b) == b
  {
  }

  /** The position of a key's class in BO_DICT, and -1 off the key range. */
  function BoSlot(v: int): int
  {
    if 0 <= v < 100 then
      var x, y := Mod5(v / 10), Mod5(v % 10);
      var lo, hi := if x <= y then x else y, if x <= y then y else x;
      if lo == hi then lo
      else if lo == 0 then 4 + hi
      else if lo == 1 then 7 + hi
      else if lo == 2 then 9 + hi
      else 14
    else -1
  }

  /** The label that BO_DICT gives its t-th entry. */
  function BoSlotLabel(t: int): int
  {
    if t < 5 then 11 * t
    else if t < 9 then t - 4
    else if t < 12 then t + 3
    else if t < 14 then t + 11
    else 34
  }

  lemma BoSlotHasLabel(v: int)
    requires 0 <= v < 100
    ensures 0 <= BoSlot(v) < 15 && BoSlotLabel(BoSlot(v)) == BoLabel(v)
  {
  }

  /** Different entries of BO_DICT carry different labels. */
  lemma BoSlotLabelInjective()
    ensures forall u, w :: 0 <= u < w < 15 ==> BoSlotLabel(u) != BoSlotLabel(w)
  {
  }

  /** A key whose digits are below 5 and in order is its own bộ. */
  lemma BoLabelFixed(l: int)
    requires 0 <= l < 100 && l / 10 <= l % 10 < 5
    ensures BoLabel(l) == l
  {
  }

  /** Each label is its own bộ. */
  lemma BoLabelOfLabel(t: int)
    requires 0 <= t < 15
    ensures 0 <= BoSlotLabel(t) < 100 && BoLabel(BoSlotLabel(t)) == BoSlotLabel(t)
  {
    var l := BoSlotLabel(t);
    assert 0 <= l < 100 && l / 10 <= l % 10 < 5;
    BoLabelFixed(l);
  }

  lemma BoEntry0() ensures EntrySound(BoDict, BoSlot, 0, 0) && EntryDistinct(BoDict, 0, 0) {}
  lemma BoEntry1() ensures EntrySound(BoDict, BoSlot, 1, 0) && EntryDistinct(BoDict, 1, 0) {}
  lemma BoEntry2() ensures EntrySound(BoDict, BoSlot, 2, 0) && EntryDistinct(BoDict, 2, 0) {}
  lemma BoEntry3() ensures EntrySound(BoDict, BoSlot, 3, 0) && EntryDistinct(BoDict, 3, 0) {}
  lemma BoEntry4() ensures EntrySound(BoDict, BoSlot, 4, 0) && EntryDistinct(BoDict, 4, 0) {}
  lemma BoEntry5() ensures EntrySound(BoDict, BoSlot, 5, 0) && EntryDistinct(BoDict, 5, 0) {}
  lemma BoEntry6() ensures EntrySound(BoDict, BoSlot, 6, 0) && EntryDistinct(BoDict, 6, 0) {}
  lemma BoEntry7() ensures EntrySound(BoDict, BoSlot, 7, 0) && EntryDistinct(BoDict, 7, 0) {}
  lemma BoEntry8() ensures EntrySound(BoDict, BoSlot, 8, 0) && EntryDistinct(BoDict, 8, 0) {}
  lemma BoEntry9() ensures EntrySound(BoDict, BoSlot, 9, 0) && EntryDistinct(BoDict, 9, 0) {}
  lemma BoEntry10() ensures EntrySound(BoDict, BoSlot, 10, 0) && EntryDistinct(BoDict, 10, 0) {}
  lemma BoEntry11() ensures EntrySound(BoDict, BoSlot, 11, 0) && EntryDistinct(BoDict, 11, 0) {}
  lemma BoEntry12() ensures EntrySound(BoDict, BoSlot, 12, 0) && EntryDistinct(BoDict, 12, 0) {}
  lemma BoEntry13() ensures EntrySound(BoDict, BoSlot, 13, 0) && EntryDistinct(BoDict, 13, 0) {}
  lemma BoEntry14() ensures EntrySound(BoDict, BoSlot, 14, 0) && EntryDistinct(BoDict, 14, 0) {}

  lemma BoEntries()
    ensures forall t :: 0 <= t < |BoDict| ==> EntrySound(BoDict, BoSlot, t, 0) && EntryDistinct(BoDict, t, 0)
  {
    forall t | 0 <= t < |BoDict| ensures EntrySound(BoDict, BoSlot, t, 0) && EntryDistinct(BoDict, t, 0) {
      if t == 0 { BoEntry0();
      } else if t == 1 { BoEntry1();
      } else if t == 2 { BoEntry2();
      } else if t == 3 { BoEntry3();
      } else if t == 4 { BoEntry4();
      } else if t == 5 { BoEntry5();
      } else if t == 6 { BoEntry6();
      } else if t == 7 { BoEntry7();
      } else if t == 8 { BoEntry8();
      } else if t == 9 { BoEntry9();
      } else if t == 10 { BoEntry10();
      } else if t == 11 { BoEntry11();
      } else if t == 12 { BoEntry12();
      } else if t == 13 { BoEntry13();
      } else { BoEntry14(); }
    }
  }

  lemma BoSize0() ensures SizeFrom(BoDict, 10) == 40 {}
  lemma BoSize1() ensures SizeFrom(BoDict, 5) == 80 { BoSize0(); }
  lemma BoSize() ensures TotalSize(BoDict) == 100 { BoSize1(); }

  lemma BoLabels0() ensures LabelsFrom(BoDict, BoSlotLabel, 8) {}
  lemma BoLabels1() ensures LabelsFrom(BoDict, BoSlotLabel, 0) { BoLabels0(); }

  /** BO_DICT is sound and complete for BoSlot and repeats no key. */
  lemma BoDictChecked()
    ensures Sound(BoDict, BoSlot) && Complete(BoDict, BoSlot) && Distinct(BoDict)
  {
    BoEntries();
    SoundByCheck(BoDict, BoSlot);
    DistinctByCheck(BoDict);
    BoSize();
    CompleteByCount(BoDict, BoSlot);
  }

  /** The fifteen lists of BO_DICT partition the hundred keys without
      repeats (100 members in all), and every key lies in exactly the list
      whose label is its BoLabel. */
  lemma BoDictPartition()
    ensures Sound(BoDict, BoSlot) && Complete(BoDict, BoSlot) && Distinct(BoDict)
    ensures TotalSize(BoDict) == 100
    ensures forall t, v :: 0 <= t < |BoDict| ==> (v in BoDict[t].1 <==> 0 <= v < 100 && BoSlot(v) == t)
    ensures forall v :: 0 <= v < 100 ==> 0 <= BoSlot(v) < |BoDict| && BoDict[BoSlot(v)].0 == BoLabel(v)
  {
    BoDictChecked();
    BoSize();
    BoLabels1();
    forall v | 0 <= v < 100 ensures 0 <= BoSlot(v) < |BoDict| && BoDict[BoSlot(v)].0 == BoLabel(v) {
      BoSlotHasLabel(v);
      LabelsAt(BoDict, BoSlotLabel, 0, BoSlot(v));
    }
    forall t, v | 0 <= t < |BoDict| && v in BoDict[t].1 ensures 0 <= v < 100 && BoSlot(v) == t {
      var p :| 0 <= p < |BoDict[t].1| && BoDict[t].1[p] == v;
    }
  }

  /** The first BO_DICT list holding a key is the one of its class, and it
      is labelled with the key's bộ. */
  lemma BoOwner(v: int)
    requires 0 <= v < 100
    ensures OwnerIndex(BoDict, v) == BoSlot(v)
    ensures 0 <= BoSlot(v) < |BoDict| && BoDict[BoSlot(v)].0 == BoLabel(v)
  {
    BoDictPartition();
    OwnerIsClass(BoDict, BoSlot, v);
  }

  /** Two keys have the same bộ exactly when they share a BO_DICT entry. */
  lemma BoSameSlot(v: int, w: int)
    requires 0 <= v < 100 && 0 <= w < 100
    ensures BoLabel(v) == BoLabel(w) <==> BoSlot(v) == BoSlot(w)
  {
    BoSlotHasLabel(v);
    BoSlotHasLabel(w);
    BoSlotLabelInjective();
  }

  /** REVERSE_BO, the reverse index that the module-level loop builds from
      BO_DICT (Tables.BuildReverseIndex is that loop). */
  const ReverseBo: map<int, int> := ReverseIndex(BoDict)

  /** REVERSE_BO is total on the key values and maps each to its bộ label. */
  lemma ReverseBoTotal(v: int)
    ensures v in ReverseBo <==> 0 <= v < 100
    ensures v in ReverseBo ==> ReverseBo[v] == BoLabel(v)
  {
    BoDictPartition();
    ReverseIndexAgrees(BoDict, BoSlot, v);
    OwnerIsClass(BoDict, BoSlot, v);
  }

  /** bo(db): REVERSE_BO.get(db.zfill(2), "44"). */
  function Bo(db: string): (r: string)
    ensures IsKey(ZFill2(db)) ==> r == KeyString(BoLabel(KeyValue(ZFill2(db))))
    ensures !IsKey(ZFill2(db)) ==> r == "44"
  {
    var p := ZFill2(db);
    if IsKey(p) then
      ReverseBoTotal(KeyValue(p));
      KeyString(ReverseBo[KeyValue(p)])
    else "44"
  }
  /** Bộ of a key: the label of the one BO_DICT list holding it, which is
      its digits mod 5 with the smaller first; "44" comes back only for the
      keys of bộ 44, never as the fallback. */
  lemma BoOfKey(k: string)
    requires IsKey(k)
    ensures 0 <= BoSlot(KeyValue(k)) < |BoDict|
    ensures KeyValue(k) in BoDict[BoSlot(KeyValue(k))].1
    ensures Bo(k) == KeyString(BoDict[BoSlot(KeyValue(k))].0)
    ensures Bo(k) == "44" <==> Mod5(Tens(KeyValue(k))) == 4 && Mod5(Units(KeyValue(k))) == 4
  {
    ZFill2Key(k);
    BoDictPartition();
    var v := KeyValue(k);
    assert KeyValue("44") == 44;
    if Bo(k) == "44" {
      KeyValueInjective(Bo(k), "44");
    }
  }

  /** KEP_DICT: four kép classes; 50 keys belong to none of them. */
  const KepDict: Table<string> := [
    ("K.AM", [07, 70, 14, 41, 29, 92, 36, 63, 58, 85]),
    ("K.BANG", [00, 11, 22, 33, 44, 55, 66, 77, 88, 99]),
    ("K.LECH", [05, 50, 16, 61, 27, 72, 38, 83, 49, 94]),
    ("S.KEP", [01, 10, 12, 21, 23, 32, 34, 43, 45, 54, 56, 65, 67, 76, 78, 87, 89, 98, 09, 90])
  ]

  /** The âm (shadow) digit: 0-7, 1-4, 2-9, 3-6 and 5-8 pair up. */
  function Shadow(d: int): (s: int)
    requires 0 <= d < 10
    ensures 0 <= s < 10 && s != d
  {
    if d == 0 then 7 else if d == 7 then 0
    else if d == 1 then 4 else if d == 4 then 1
    else if d == 2 then 9 else if d == 9 then 2
    else if d == 3 then 6 else if d == 6 then 3
    else if d == 5 then 8 else 5
  }

  /** The rule behind KEP_DICT: the position of a key's kép class, or -1.
      Âm: the digits are shadows; bằng: equal digits; lệch: digits five
      apart; sát kép: neighbouring digits, 9 and 0 included. */
  function KepClass(v: int): int
  {
    if 0 <= v < 100 then
      var a, b := v / 10, v % 10;
      if Shadow(a) == b then 0
      else if a == b then 1
      else if (a - b) % 10 == 5 then 2
      else if (a - b) % 10 == 1 || (a - b) % 10 == 9 then 3
      else -1
    else -1
  }

  lemma KepEntry0() ensures EntrySound(KepDict, KepClass, 0, 0) && EntryDistinct(KepDict, 0, 0) {}
  lemma KepEntry1() ensures EntrySound(KepDict, KepClass, 1, 0) && EntryDistinct(KepDict, 1, 0) {}
  lemma KepEntry2() ensures EntrySound(KepDict, KepClass, 2, 0) && EntryDistinct(KepDict, 2, 0) {}
  lemma KepEntry3a() ensures EntrySound(KepDict, KepClass, 3, 10) {}
  lemma KepEntry3b() ensures EntryDistinct(KepDict, 3, 10) {}
  lemma KepEntry3c() ensures EntrySound(KepDict, KepClass, 3, 0) { KepEntry3a(); }
  lemma KepAbsent0() ensures Absent(KepDict[3].1, KepDict[3].1[0], 1) { assert Absent(KepDict[3].1, KepDict[3].1[0], 10); }
  lemma KepAbsent1() ensures Absent(KepDict[3].1, KepDict[3].1[1], 2) { assert Absent(KepDict[3].1, KepDict[3].1[1], 10); }
  lemma KepAbsent2() ensures Absent(KepDict[3].1, KepDict[3].1[2], 3) { assert Absent(KepDict[3].1, KepDict[3].1[2], 10); }
  lemma KepAbsent3() ensures Absent(KepDict[3].1, KepDict[3].1[3], 4) { assert Absent(KepDict[3].1, KepDict[3].1[3], 10); }
  lemma KepAbsent4() ensures Absent(KepDict[3].1, KepDict[3].1[4], 5) { assert Absent(KepDict[3].1, KepDict[3].1[4], 10); }
  lemma KepAbsent5() ensures Absent(KepDict[3].1, KepDict[3].1[5], 6) { assert Absent(KepDict[3].1, KepDict[3].1[5], 10); }
  lemma KepAbsent6() ensures Absent(KepDict[3].1, KepDict[3].1[6], 7) { assert Absent(KepDict[3].1, KepDict[3].1[6], 10); }
  lemma KepAbsent7() ensures Absent(KepDict[3].1, KepDict[3].1[7], 8) { assert Absent(KepDict[3].1, KepDict[3].1[7], 10); }
  lemma KepAbsent8() ensures Absent(KepDict[3].1, KepDict[3].1[8], 9) { assert Absent(KepDict[3].1, KepDict[3].1[8], 10); }
  lemma KepAbsent9() ensures Absent(KepDict[3].1, KepDict[3].1[9], 10) { assert Absent(KepDict[3].1, KepDict[3].1[9], 10); }
  lemma KepEntry3d() ensures EntryDistinct(KepDict, 3, 0) { KepEntry3b(); KepAbsent0(); KepAbsent1(); KepAbsent2(); KepAbsent3(); KepAbsent4(); KepAbsent5(); KepAbsent6(); KepAbsent7(); KepAbsent8(); KepAbsent9(); }
  lemma KepEntry3() ensures EntrySound(KepDict, KepClass, 3, 0) && EntryDistinct(KepDict, 3, 0) { KepEntry3c(); KepEntry3d(); }
  lemma KepRow0() ensures RowComplete(KepDict, KepClass, 0, 0) {}
  lemma KepRow1() ensures RowComplete(KepDict, KepClass, 1, 0) {}
  lemma KepRow2() ensures RowComplete(KepDict, KepClass, 2, 0) {}
  lemma KepRow3() ensures RowComplete(KepDict, KepClass, 3, 0) {}
  lemma KepRow4() ensures RowComplete(KepDict, KepClass, 4, 0) {}
  lemma KepRow5() ensures RowComplete(KepDict, KepClass, 5, 0) {}
  lemma KepRow6() ensures RowComplete(KepDict, KepClass, 6, 0) {}
  lemma KepRow7() ensures RowComplete(KepDict, KepClass, 7, 0) {}
  lemma KepRow8() ensures RowComplete(KepDict, KepClass, 8, 0) {}
  lemma KepRow9() ensures RowComplete(KepDict, KepClass, 9, 0) {}

  /** The four KEP_DICT lists hold, without repeats and without overlap,
      exactly the keys that KepClass classifies: 50 keys in all. */
  lemma KepDictPartition()
    ensures Sound(KepDict, KepClass) && Complete(KepDict, KepClass) && Distinct(KepDict)
    ensures TotalSize(KepDict) == 50
    ensures forall t, v :: 0 <= t < |KepDict| ==> (v in KepDict[t].1 <==> 0 <= v < 100 && KepClass(v) == t)
  {
    forall t | 0 <= t < |KepDict| ensures EntrySound(KepDict, KepClass, t, 0) && EntryDistinct(KepDict, t, 0) {
      if t == 0 { KepEntry0(); } else if t == 1 { KepEntry1(); } else if t == 2 { KepEntry2(); } else { KepEntry3(); }
    }
    SoundByCheck(KepDict, KepClass);
    DistinctByCheck(KepDict);
    forall a | 0 <= a < 10 ensures RowComplete(KepDict, KepClass, a, 0) {
      if a == 0 { KepRow0();
      } else if a == 1 { KepRow1();
      } else if a == 2 { KepRow2();
      } else if a == 3 { KepRow3();
      } else if a == 4 { KepRow4();
      } else if a == 5 { KepRow5();
      } else if a == 6 { KepRow6();
      } else if a == 7 { KepRow7();
      } else if a == 8 { KepRow8();
      } else { KepRow9(); }
    }
    CompleteByCheck(KepDict, KepClass);
    forall t, v | 0 <= t < |KepDict| && v in KepDict[t].1 ensures 0 <= v < 100 && KepClass(v) == t {
      var p :| 0 <= p < |KepDict[t].1| && KepDict[t].1[p] == v;
    }
  }

  /** kep(db): the label of the first KEP_DICT list holding db.zfill(2),
      or "-". */
  function Kep(db: string): (r: string)
    ensures !IsKey(ZFill2(db)) ==> r == "-"
  {
    var p := ZFill2(db);
    var t := if IsKey(p) then OwnerIndex(KepDict, KeyValue(p)) else -1;
    if t >= 0 then KepDict[t].0 else "-"
  }

  /** The KEP_DICT label of class c, and "-" for no class. */
  function KepName(c: int): string
  {
    if c == 0 then "K.AM" else if c == 1 then "K.BANG" else if c == 2 then "K.LECH"
    else if c == 3 then "S.KEP" else "-"
  }

  lemma KepNameOfKey(k: string)
    requires IsKey(k)
    ensures Kep(k) == KepName(KepClass(KeyValue(k)))
  {
    ZFill2Key(k);
    KepDictPartition();
    OwnerIsClass(KepDict, KepClass, KeyValue(k));
  }

  /** kep classifies a key by the relation between its digits, and the
      doubles are exactly the K.BANG keys. */
  lemma KepOfKey(k: string)
    requires IsKey(k)
    ensures var a, b := DigitValue(k[0]), DigitValue(k[1]);
      && (Kep(k) == "K.AM" <==> Shadow(a) == b)
      && (Kep(k) == "K.BANG" <==> a == b)
      && (Kep(k) == "K.LECH" <==> (a - b) % 10 == 5)
      && (Kep(k) == "S.KEP" <==> (a - b) % 10 == 1 || (a - b) % 10 == 9)
      && (Kep(k) == "-" <==> KepClass(KeyValue(k)) == -1)
  {
    KepNameOfKey(k);
    var v := KeyValue(k);
    assert v / 10 == DigitValue(k[0]) && v % 10 == DigitValue(k[1]);
  }
  /** The names of the three positional rules of tim_chu_so_bet. */
  const BetRight: string := "Bệt Phải"
  const Straight: string := "Thẳng"
  const BetLeft: string := "Bệt trái"

  /** Position i of d1 is a bệt under rule kieu: d1[i] meets d2[i + 1]
      (bệt phải), d2[i] (thẳng) or d2[i - 1] (bệt trái), within the shorter
      string; no position is a bệt under any other name. */
  predicate BetAt(d1: string, d2: string, kieu: string, i: int)
  {
    var n := Min(|d1|, |d2|);
    if kieu == BetRight then 0 <= i < n - 1 && d1[i] == d2[i + 1]
    else if kieu == Straight then 0 <= i < n && d1[i] == d2[i]
    else if kieu == BetLeft then 1 <= i < n && d1[i] == d2[i - 1]
    else false
  }

  /** The list `bet` once positions 0..i-1 have been scanned: the
      characters d1[j] of the bệt positions j < i, in order. */
  function BetList(d1: string, d2: string, kieu: string, i: nat): (bet: seq<char>)
    requires i <= |d1|
    ensures forall c :: c in bet <==> exists j :: 0 <= j < i && BetAt(d1, d2, kieu, j) && d1[j] == c
    ensures (forall j :: 0 <= j < i ==> !BetAt(d1, d2, kieu, j)) ==> bet == []
  {
    if i == 0 then []
    else
      var rest := BetList(d1, d2, kieu, i - 1);
      var bet := rest + if BetAt(d1, d2, kieu, i - 1) then [d1[i - 1]] else [];
      assert forall c :: c in bet ==> exists j :: 0 <= j < i && BetAt(d1, d2, kieu, j) && d1[j] == c by {
        forall c | c in bet ensures exists j :: 0 <= j < i && BetAt(d1, d2, kieu, j) && d1[j] == c {
          if c !in rest { assert BetAt(d1, d2, kieu, i - 1) && d1[i - 1] == c; }
        }
      }
      bet
  }

  /** What tim_chu_so_bet(d1, d2, kieu) returns: the bệt characters,
      sorted and without repeats. Each comes from d1, under thẳng also from
      d2, and an unknown rule finds none. */
  function BetDigits(d1: string, d2: string, kieu: string): (r: string)
    ensures Increasing(r)
    ensures forall c :: c in r <==> exists i :: BetAt(d1, d2, kieu, i) && d1[i] == c
    ensures forall c :: c in r ==> c in d1
    ensures kieu == Straight ==> forall c :: c in r ==> c in d2
    ensures kieu != BetRight && kieu != Straight && kieu != BetLeft ==> r == []
  {
    SortedSet(BetList(d1, d2, kieu, Min(|d1|, |d2|)))
  }

  /** tim_chu_so_bet: appends d1[i] for each bệt position i, then returns
      sorted(set(bet)). */
  method FindBetDigits(d1: string, d2: string, kieu: string) returns (r: string)
    ensures r == BetDigits(d1, d2, kieu)
  {
    var bet: seq<char> := [];
    var n := Min(|d1|, |d2|);
    if kieu == BetRight {
      var i := 0;
      while i < n - 1
        invariant 0 <= i <= n
        invariant bet == BetList(d1, d2, kieu, i)
      {
        if d1[i] == d2[i + 1] { bet := bet + [d1[i]]; }
        i := i + 1;
      }
      if i < n {
        assert BetList(d1, d2, kieu, i + 1) == bet + [];
      }
      assert bet == BetList(d1, d2, kieu, n);
    } else if kieu == Straight {
      var i := 0;
      while i < n
        invariant 0 <= i <= n
        invariant bet == BetList(d1, d2, kieu, i)
      {
        if d1[i] == d2[i] { bet := bet + [d1[i]]; }
        i := i + 1;
      }
      assert bet == BetList(d1, d2, kieu, n);
    } else if kieu == BetLeft {
      var i := 1;
      while i < n
        invariant 1 <= i
        invariant bet == BetList(d1, d2, kieu, Min(i, n))
      {
        if d1[i] == d2[i - 1] { bet := bet + [d1[i]]; }
        i := i + 1;
      }
      assert bet == BetList(d1, d2, kieu, n);
    } else {
      assert forall j :: !BetAt(d1, d2, kieu, j);
    }
    r := SortedSet(bet);
  }

  /** A worked case of the bệt phải rule: "123" against "912" matches
      1 and 2. */
  lemma BetRightExample()
    ensures BetDigits("123", "912", BetRight) == "12"
  {
    var d1, d2 := "123", "912";
    assert BetAt(d1, d2, BetRight, 0) && BetAt(d1, d2, BetRight, 1);
    assert forall i :: BetAt(d1, d2, BetRight, i) ==> i == 0 || i == 1;
    var r := BetDigits(d1, d2, BetRight);
    assert forall c :: c in r <==> c == '1' || c == '2';
    IncreasingUnique(r, "12");
  }
  /** Some character of cham occurs in key k. */
  predicate Touches(cham: string, k: string)
  {
    exists j :: 0 <= j < |cham| && cham[j] in k
  }

  /** What lay_dan_cham(cham) returns: the keys holding a character of
      cham, ascending; none for an empty cham. */
  function DanChamKeys(cham: string): (r: seq<string>)
    ensures Ascending(r)
    ensures forall k :: k in r <==> IsKey(k) && Touches(cham, k)
    ensures cham == "" ==> r == []
  {
    var r := KeysWhere(k => Touches(cham, k));
    assert r != [] ==> r[0] in r;
    r
  }

  /** lay_dan_cham: for each key "00".."99", adds it to the set res at the
      first character of cham it holds, then returns sorted(res). */
  method DanCham(cham: string) returns (r: seq<string>)
    ensures r == DanChamKeys(cham)
  {
    var res: set<string> := {};
    var i := 0;
    while i < 100
      invariant 0 <= i <= 100
      invariant forall k :: k in res <==> IsKey(k) && KeyValue(k) < i && Touches(cham, k)
    {
      var pair := KeyString(i);
      ghost var before := res;
      var j := 0;
      while j < |cham|
        invariant 0 <= j <= |cham|
        invariant res == before
        invariant forall l :: 0 <= l < j ==> cham[l] !in pair
      {
        if cham[j] in pair {
          res := res + {pair};
          break;
        }
        j := j + 1;
      }
      assert res == before + (if Touches(cham, pair) then {pair} else {});
      forall k | IsKey(k) && KeyValue(k) == i ensures k == pair {
        KeyStringOfValue(k);
      }
      i := i + 1;
    }
    r := SortedKeys(res);
    AscendingUnique(r, DanChamKeys(cham));
  }

  /** Within row a (keys 10a..10a+9) from column b on, the keys holding
      digit c: all of them in c's own row, else only column c. */
  lemma {:induction false} DigitRowCount(f: string -> bool, c: char, a: nat, b: nat)
    requires IsDigit(c) && a < 10 && b <= 10
    requires forall k :: IsKey(k) ==> (f(k) <==> k[0] == c || k[1] == c)
    ensures CountFrom(f, 10 * a + b) == CountFrom(f, 10 * a + 10) +
      (if a == DigitValue(c) then 10 - b else if b <= DigitValue(c) then 1 else 0)
    decreases 10 - b
  {
    if b < 10 {
      DigitRowCount(f, c, a, b + 1);
      KeyDigits(a, b);
    }
  }

  /** From row a on, the keys holding digit c number one per row plus nine
      more in c's own row. */
  lemma {:induction false} DigitRowsCount(f: string -> bool, c: char, a: nat)
    requires IsDigit(c) && a <= 10
    requires forall k :: IsKey(k) ==> (f(k) <==> k[0] == c || k[1] == c)
    ensures CountFrom(f, 10 * a) == (10 - a) + (if a <= DigitValue(c) then 9 else 0)
    decreases 10 - a
  {
    if a < 10 {
      DigitRowCount(f, c, a, 0);
      DigitRowsCount(f, c, a + 1);
      assert 10 * a + 0 == 10 * a && 10 * a + 10 == 10 * (a + 1);
      RowsArith(a, DigitValue(c), CountFrom(f, 10 * a), CountFrom(f, 10 * (a + 1)));
    }
  }

  lemma RowsArith(a: nat, d: nat, x: int, y: int)
    requires a < 10
    requires x == y + (if a == d then 10 else if 0 <= d then 1 else 0)
    requires y == (10 - (a + 1)) + (if a + 1 <= d then 9 else 0)
    ensures x == (10 - a) + (if a <= d then 9 else 0)
  {
  }

  /** A single digit expands to the 19 keys that hold it. */
  lemma DanChamOneDigit(c: char)
    requires IsDigit(c)
    ensures |DanChamKeys([c])| == 19
  {
    var f := (k: string) => Touches([c], k);
    forall k | IsKey(k) ensures f(k) <==> k[0] == c || k[1] == c {
      if c in k { assert [c][0] in k; }
    }
    DigitRowsCount(f, c, 0);
    KeysFromCount(f, 0);
  }

  lemma {:induction false} AllKeysCount(f: string -> bool, lo: nat)
    requires lo <= 100
    requires forall k :: IsKey(k) ==> f(k)
    ensures CountFrom(f, lo) == 100 - lo
    decreases 100 - lo
  {
    if lo < 100 { AllKeysCount(f, lo + 1); }
  }

  /** All ten digits expand to all 100 keys. */
  lemma DanChamAllDigits(cham: string)
    requires forall d :: 0 <= d < 10 ==> DigitChar(d) in cham
    ensures |DanChamKeys(cham)| == 100
  {
    var f := (k: string) => Touches(cham, k);
    forall k | IsKey(k) ensures f(k) {
      var c := DigitChar(DigitValue(k[0]));
      assert c == k[0];
      var j :| 0 <= j < |cham| && cham[j] == c;
    }
    AllKeysCount(f, 0);
    KeysFromCount(f, 0);
  }

  /** Two-character strings in strictly increasing lexicographic order,
      which is how Python's sorted orders them. */
  predicate PairLess(p: string, q: string)
    requires |p| == 2 && |q| == 2
  {
    p[0] < q[0] || (p[0] == q[0] && p[1] < q[1])
  }

  predicate LexIncreasing(ps: seq<string>)
  {
    (forall k :: 0 <= k < |ps| ==> |ps[k]| == 2) &&
    (forall k, l :: 0 <= k < l < |ps| ==> PairLess(ps[k], ps[l]))
  }

  /** p is a pair u[a] u[b] at or after position (i, j) in row order. */
  predicate PairAtOrAfter(u: seq<char>, i: nat, j: nat, p: string)
  {
    exists a, b :: i <= a < |u| && 0 <= b < |u| && (a > i || b >= j) && p == [u[a], u[b]]
  }

  /** Every pair after (u[i], u[j]) in row order is lexicographically
      larger. */
  lemma PairAfterIsLarger(u: seq<char>, i: nat, j: nat, p: string)
    requires Increasing(u) && i < |u| && j < |u|
    requires PairAtOrAfter(u, i, j + 1, p)
    ensures |p| == 2 && PairLess([u[i], u[j]], p)
  {
    var a, b :| i <= a < |u| && 0 <= b < |u| && (a > i || b >= j + 1) && p == [u[a], u[b]];
  }

  lemma PairStep(u: seq<char>, i: nat, j: nat, p: string)
    requires i < |u| && j < |u|
    ensures PairAtOrAfter(u, i, j, p) <==> p == [u[i], u[j]] || PairAtOrAfter(u, i, j + 1, p)
  {
    if PairAtOrAfter(u, i, j, p) && p != [u[i], u[j]] {
      var a, b :| i <= a < |u| && 0 <= b < |u| && (a > i || b >= j) && p == [u[a], u[b]];
      assert a > i || b >= j + 1;
    }
    if p == [u[i], u[j]] {
      assert i <= i < |u| && 0 <= j < |u| && p == [u[i], u[j]];
    }
  }

  lemma RowEnd(u: seq<char>, i: nat, p: string)
    requires i < |u|
    ensures PairAtOrAfter(u, i, |u|, p) <==> PairAtOrAfter(u, i + 1, 0, p)
  {
  }

  /** A pair smaller than every pair of a lexicographically increasing list
      may be put in front of it. */
  lemma LexCons(h: string, rest: seq<string>)
    requires |h| == 2 && LexIncreasing(rest)
    requires forall p :: p in rest ==> |p| == 2 && PairLess(h, p)
    ensures LexIncreasing([h] + rest)
  {
    var r := [h] + rest;
    assert forall k :: 0 < k < |r| ==> r[k] == rest[k - 1];
  }

  /** The pairs of s over the alphabet u, from the pair (u[i], u[j]) on,
      visited row by row: sorted(s) when every pair of s is over u. */
  function PairsFrom(u: seq<char>, s: set<string>, i: nat, j: nat): (r: seq<string>)
    requires Increasing(u) && i <= |u| && j <= |u|
    ensures LexIncreasing(r)
    ensures forall p :: p in r <==> p in s && PairAtOrAfter(u, i, j, p)
    decreases |u| - i, |u| - j
  {
    if i == |u| then []
    else if j == |u| then
      var r := PairsFrom(u, s, i + 1, 0);
      forall p ensures PairAtOrAfter(u, i, j, p) <==> PairAtOrAfter(u, i + 1, 0, p) {
        RowEnd(u, i, p);
      }
      r
    else
      var rest := PairsFrom(u, s, i, j + 1);
      var h: string := [u[i], u[j]];
      forall p | p in rest ensures |p| == 2 && PairLess(h, p) {
        PairAfterIsLarger(u, i, j, p);
      }
      LexCons(h, rest);
      forall p ensures PairAtOrAfter(u, i, j, p) <==> p == h || PairAtOrAfter(u, i, j + 1, p) {
        PairStep(u, i, j, p);
      }
      (if h in s then [h] else []) + rest
  }

  /** A pair of lay_nhi_hop: two different characters of digits, at least
      one of them a bệt digit. */
  predicate IsNhiHop(bet: string, digits: string, p: string)
  {
    |p| == 2 && p[0] != p[1] && p[0] in digits && p[1] in digits && (p[0] in bet || p[1] in bet)
  }

  /** The pair set nh once the combinations (u[a], u[b]), a < b, before
      (i, j) have been visited. */
  ghost predicate NhiHopBefore(u: seq<char>, bet: string, i: int, j: int, p: string)
  {
    exists a, b :: 0 <= a < b < |u| && (a < i || (a == i && b < j)) && (u[a] in bet || u[b] in bet) &&
      (p == [u[a], u[b]] || p == [u[b], u[a]])
  }

  /** The ordered pairs of different characters of u holding a bệt digit. */
  function NhiHopSet(u: seq<char>, bet: string): set<string>
  {
    set a, b | a in u && b in u && a != b && (a in bet || b in bet) :: [a, b]
  }

  /** What lay_nhi_hop(bet, digits) returns: the nhị hợp pairs, sorted. */
  function NhiHop(bet: string, digits: string): (r: seq<string>)
    ensures LexIncreasing(r)
    ensures forall p :: p in r <==> IsNhiHop(bet, digits, p)
  {
    var u := SortedSet(digits);
    var r := PairsFrom(u, NhiHopSet(u, bet), 0, 0);
    assert forall p :: IsNhiHop(bet, digits, p) ==> p in r by {
      forall p | IsNhiHop(bet, digits, p) ensures p in r {
        assert p == [p[0], p[1]];
        var a :| 0 <= a < |u| && u[a] == p[0];
        var b :| 0 <= b < |u| && u[b] == p[1];
      }
    }
    r
  }

  /** p is one order of the combination u[i], u[j], which holds a bệt digit. */
  predicate NhiHopAt(u: seq<char>, bet: string, i: nat, j: nat, p: string)
    requires i < |u| && j < |u|
  {
    (u[i] in bet || u[j] in bet) && (p == [u[i], u[j]] || p == [u[j], u[i]])
  }

  lemma NhiHopInner(u: seq<char>, bet: string, i: nat, j: nat, p: string)
    requires i < j < |u|
    ensures NhiHopBefore(u, bet, i, j + 1, p) <==> NhiHopBefore(u, bet, i, j, p) || NhiHopAt(u, bet, i, j, p)
  {
    if NhiHopAt(u, bet, i, j, p) {
      assert 0 <= i < j < |u| && i == i && j < j + 1;
    }
  }

  lemma NhiHopRowStart(u: seq<char>, bet: string, i: nat, p: string)
    requires i < |u|
    ensures NhiHopBefore(u, bet, i, i + 1, p) <==> NhiHopBefore(u, bet, i, 0, p)
  {
  }

  lemma NhiHopRowEnd(u: seq<char>, bet: string, i: nat, p: string)
    requires i < |u|
    ensures NhiHopBefore(u, bet, i, |u|, p) <==> NhiHopBefore(u, bet, i + 1, 0, p)
  {
  }

  /** Once every combination is visited, nh is NhiHopSet. */
  lemma NhiHopDone(u: seq<char>, bet: string, p: string)
    requires Increasing(u)
    ensures NhiHopBefore(u, bet, |u|, 0, p) <==> p in NhiHopSet(u, bet)
  {
    if p in NhiHopSet(u, bet) {
      var x, y :| x in u && y in u && x != y && (x in bet || y in bet) && p == [x, y];
      var a :| 0 <= a < |u| && u[a] == x;
      var b :| 0 <= b < |u| && u[b] == y;
      if a < b {
        assert 0 <= a < b < |u| && (u[a] in bet || u[b] in bet) && p == [u[a], u[b]];
      } else {
        assert 0 <= b < a < |u| && (u[b] in bet || u[a] in bet) && p == [u[a], u[b]];
      }
    }
    if NhiHopBefore(u, bet, |u|, 0, p) {
      var a, b :| 0 <= a < b < |u| && (u[a] in bet || u[b] in bet) && (p == [u[a], u[b]] || p == [u[b], u[a]]);
      assert u[a] < u[b];
    }
  }

  /** lay_nhi_hop: over the sorted distinct characters u of digits, adds
      both orders of each combination u[i], u[j] (i < j) that holds a bệt
      digit to the set nh, then returns sorted(nh). */
  method NhiHopPairs(bet: string, digits: string) returns (r: seq<string>)
    ensures r == NhiHop(bet, digits)
  {
    var u := SortedSet(digits);
    var nh: set<string> := {};
    var i := 0;
    while i < |u|
      invariant 0 <= i <= |u|
      invariant forall p :: p in nh <==> NhiHopBefore(u, bet, i, 0, p)
    {
      nh := NhiHopRow(u, bet, i, nh);
      i := i + 1;
    }
    forall p ensures p in nh <==> p in NhiHopSet(u, bet) {
      NhiHopDone(u, bet, p);
    }
    assert nh == NhiHopSet(u, bet);
    r := PairsFrom(u, nh, 0, 0);
  }

  /** One pass of the outer loop: the combinations (u[i], u[j]), j > i. */
  method NhiHopRow(u: seq<char>, bet: string, i: nat, nh: set<string>) returns (next: set<string>)
    requires i < |u|
    requires forall p :: p in nh <==> NhiHopBefore(u, bet, i, 0, p)
    ensures forall p :: p in next <==> NhiHopBefore(u, bet, i + 1, 0, p)
  {
    forall p ensures NhiHopBefore(u, bet, i, i + 1, p) <==> NhiHopBefore(u, bet, i, 0, p) {
      NhiHopRowStart(u, bet, i, p);
    }
    next := nh;
    var j := i + 1;
    while j < |u|
      invariant i + 1 <= j <= |u|
      invariant forall p :: p in next <==> NhiHopBefore(u, bet, i, j, p)
    {
      next := NhiHopPair(u, bet, i, j, next);
      j := j + 1;
    }
    forall p ensures NhiHopBefore(u, bet, i, |u|, p) <==> NhiHopBefore(u, bet, i + 1, 0, p) {
      NhiHopRowEnd(u, bet, i, p);
    }
  }

  /** One pass of the inner loop: both orders of (u[i], u[j]) when one of
      them is a bệt digit. */
  method NhiHopPair(u: seq<char>, bet: string, i: nat, j: nat, nh: set<string>) returns (next: set<string>)
    requires i < j < |u|
    requires forall p :: p in nh <==> NhiHopBefore(u, bet, i, j, p)
    ensures forall p :: p in next <==> NhiHopBefore(u, bet, i, j + 1, p)
  {
    forall p ensures NhiHopBefore(u, bet, i, j + 1, p) <==> NhiHopBefore(u, bet, i, j, p) || NhiHopAt(u, bet, i, j, p) {
      NhiHopInner(u, bet, i, j, p);
    }
    next := nh;
    if u[i] in bet || u[j] in bet {
      next := nh + {[u[i], u[j]], [u[j], u[i]]};
    }
  }

  /** lay_nhi_hop never yields a double, takes both digits from digits_2_dong
      and one of them from the bệt digits, and lists each pair together with
      its reverse. */
  lemma NhiHopShape(bet: string, digits: string, p: string)
    requires p in NhiHop(bet, digits)
    ensures |p| == 2 && p[0] != p[1]
    ensures p[0] in digits && p[1] in digits
    ensures p[0] in bet || p[1] in bet
    ensures [p[1], p[0]] in NhiHop(bet, digits)
  {
    assert IsNhiHop(bet, digits, p);
    assert IsNhiHop(bet, digits, [p[1], p[0]]);
  }
}
