/** The classifiers of streamlit_app.py (bo, kep, hieu, zodiac) over its own
    copies of the tables, and the member listers get_bo_dan, get_hieu_dan,
    get_zodiac_dan and get_tong_dan. */
module App {
  import opened Keys
  import opened Tables
  import opened Text
  import Logic

  /** streamlit_app.py repeats logic.py's BO_DICT entry for entry, in the
      same order; the model shares the one table. */
  const BoDict: Table<int> := Logic.BoDict

  /** Entry t of BO_DICT is labelled BoSlotLabel(t), a label that is its
      own bộ. */
  lemma BoLabels()
    ensures LabelsFrom(BoDict, Logic.BoSlotLabel, 0)
    ensures forall t :: 0 <= t < |BoDict| ==> 0 <= BoDict[t].0 < 100 && Logic.BoLabel(BoDict[t].0) == BoDict[t].0
  {
    Logic.BoLabels1();
    forall t | 0 <= t < |BoDict| ensures 0 <= BoDict[t].0 < 100 && Logic.BoLabel(BoDict[t].0) == BoDict[t].0 {
      LabelsAt(BoDict, Logic.BoSlotLabel, 0, t);
      Logic.BoLabelOfLabel(t);
    }
  }

  lemma BoKeyMembers()
    ensures KeyMembers(BoDict)
  {
    Logic.BoDictChecked();
  }

  /** bo(db): db.zfill(2) itself when it is a BO_DICT label, else the label
      of the first BO_DICT list holding it, else "44". */
  function Bo(db: string): (r: string)
    ensures IsKey(r)
  {
    var p := ZFill2(db);
    if !IsKey(p) then "44"
    else if LabelIndex(BoDict, KeyValue(p)) >= 0 then p
    else
      var t := OwnerIndex(BoDict, KeyValue(p));
      if t >= 0 then BoLabels(); KeyString(BoDict[t].0) else "44"
  }

  /** The two bo functions agree on every string: the label check and the
      list scan give what the reverse index of logic.py gives. */
  lemma BoAgrees(db: string)
    ensures Bo(db) == Logic.Bo(db)
  {
    var p := ZFill2(db);
    if IsKey(p) {
      var v := KeyValue(p);
      var l := LabelIndex(BoDict, v);
      if l >= 0 {
        BoLabels();
        KeyStringOfValue(p);
      } else {
            Logic.BoOwner(v);
      }
    }
  }

  /** bo is idempotent: a bộ label is its own bộ. */
  lemma BoIdempotent(db: string)
    ensures Bo(Bo(db)) == Bo(db)
  {
    var r := Bo(db);
    BoAgrees(db);
    BoAgrees(r);
    ZFill2Key(r);
    var p := ZFill2(db);
    if IsKey(p) {
      var l := Logic.BoLabel(KeyValue(p));
      assert KeyValue(r) == l;
    } else {
      assert KeyValue("44") == 44;
    }
  }

  /** get_bo_dan(bo_key) */
  function GetBoDan(boKey: string): string
  {
    BoKeyMembers();
    if IsKey(boKey) then Dan(BoDict, KeyValue(boKey)) else ""
  }

  /** The dàn of a key's bộ lists exactly the keys of the same bộ, the key
      itself among them. */
  lemma BoDanOfKey(k: string)
    requires IsKey(k)
    ensures k in Split(GetBoDan(Bo(k)), ',')
    ensures forall x :: x in Split(GetBoDan(Bo(k)), ',') <==> IsKey(x) && Bo(x) == Bo(k)
  {
    var v := KeyValue(k);
    BoAgrees(k);
    ZFill2Key(k);
    var b := Bo(k);
    assert IsKey(b) && KeyValue(b) == Logic.BoLabel(v);
    BoDanOfLabel(v);
    assert GetBoDan(b) == Dan(BoDict, Logic.BoLabel(v));
    forall x | IsKey(x) ensures Bo(x) == b <==> Logic.BoSlot(KeyValue(x)) == Logic.BoSlot(v) {
      BoSameBo(k, x);
    }
  }

  /** The dàn of the bộ of v lists exactly the keys of v's class. */
  lemma BoDanOfLabel(v: int)
    requires 0 <= v < 100
    ensures KeyMembers(BoDict)
    ensures forall x :: x in Split(Dan(BoDict, Logic.BoLabel(v)), ',') <==>
      IsKey(x) && Logic.BoSlot(KeyValue(x)) == Logic.BoSlot(v)
  {
    Logic.BoOwner(v);
    Logic.BoDictChecked();
    Logic.BoLabels1();
    Logic.BoSlotLabelInjective();
    DanOfClass(BoDict, Logic.BoSlot, Logic.BoSlotLabel, v);
  }

  /** Two keys have the same bo exactly when they share a BO_DICT entry. */
  lemma BoSameBo(k: string, x: string)
    requires IsKey(k) && IsKey(x)
    ensures Bo(x) == Bo(k) <==> Logic.BoSlot(KeyValue(x)) == Logic.BoSlot(KeyValue(k))
  {
    BoAgrees(k);
    BoAgrees(x);
    ZFill2Key(k);
    ZFill2Key(x);
    var v, w := KeyValue(k), KeyValue(x);
    Logic.BoSameSlot(v, w);
    var a, b := Bo(k), Bo(x);
    assert a == KeyString(Logic.BoLabel(v)) && b == KeyString(Logic.BoLabel(w));
    if a == b {
      assert KeyValue(a) == KeyValue(b);
    }
  }

  /** The four sets that kep tests in turn. */
  const KepAm: set<int> := {07, 70, 14, 41, 29, 92, 36, 63, 58, 85}
  const KepBang: set<int> := {00, 55, 11, 66, 22, 77, 33, 88, 44, 99}
  const KepLech: set<int> := {05, 50, 16, 61, 27, 72, 38, 83, 49, 94}
  const SatKep: set<int> := {01, 10, 12, 21, 23, 32, 34, 43, 45, 54, 56, 65, 67, 76, 78, 87, 89, 98, 09, 90}

  /** kep(db): the label of the first of the four sets holding db.zfill(2),
      or "KHÔNG". */
  function Kep(db: string): (r: string)
    ensures !IsKey(ZFill2(db)) ==> r == "KHÔNG"
  {
    var p := ZFill2(db);
    var v := if IsKey(p) then KeyValue(p) else -1;
    if v in KepAm then "K.ÂM"
    else if v in KepBang then "K.BẰNG"
    else if v in KepLech then "K.LỆCH"
    else if v in SatKep then "S.KÉP"
    else "KHÔNG"
  }

  /** streamlit_app.py's name for a KEP_DICT label of logic.py, and "KHÔNG"
      for logic.py's "-". */
  function KepLabel(l: string): string
  {
    if l == "K.AM" then "K.ÂM" else if l == "K.BANG" then "K.BẰNG"
    else if l == "K.LECH" then "K.LỆCH" else if l == "S.KEP" then "S.KÉP" else "KHÔNG"
  }

  /** The four sets are the four KEP_DICT lists of logic.py. */
  lemma KepSetsAreLists(v: int)
    ensures v in KepAm <==> v in Logic.KepDict[0].1
    ensures v in KepBang <==> v in Logic.KepDict[1].1
    ensures v in KepLech <==> v in Logic.KepDict[2].1
    ensures v in SatKep <==> v in Logic.KepDict[3].1
  {
  }

  /** The two kep functions agree on every string, up to the spelling of
      the labels. */
  lemma KepAgrees(db: string)
    ensures Kep(db) == KepLabel(Logic.Kep(db))
  {
    var p := ZFill2(db);
    if IsKey(p) {
      var v := KeyValue(p);
      KepSetsAreLists(v);
      Logic.KepDictPartition();
      ZFill2Key(p);
      Logic.KepNameOfKey(p);
      assert Logic.Kep(db) == Logic.Kep(p);
    }
  }

  /** kep on a key: the doubles are K.BẰNG, digits five apart are K.LỆCH,
      and so on; each key gets exactly one label, so the four sets are
      pairwise disjoint. */
  lemma KepOfKey(k: string)
    requires IsKey(k)
    ensures var a, b := DigitValue(k[0]), DigitValue(k[1]);
      && (Kep(k) == "K.ÂM" <==> Logic.Shadow(a) == b)
      && (Kep(k) == "K.BẰNG" <==> a == b)
      && (Kep(k) == "K.LỆCH" <==> (a - b) % 10 == 5)
      && (Kep(k) == "S.KÉP" <==> (a - b) % 10 == 1 || (a - b) % 10 == 9)
      && (Kep(k) == "KHÔNG" <==> Logic.KepClass(KeyValue(k)) == -1)
  {
    KepAgrees(k);
    Logic.KepOfKey(k);
  }

  /** HIEU_MAP: for each difference 0..9, the ten keys having it. */
  const HieuMap: Table<int> := [
    (0, [00, 11, 22, 33, 44, 55, 66, 77, 88, 99]),
    (1, [09, 10, 21, 32, 43, 54, 65, 76, 87, 98]),
    (2, [08, 19, 20, 31, 42, 53, 64, 75, 86, 97]),
    (3, [07, 18, 29, 30, 41, 52, 63, 74, 85, 96]),
    (4, [06, 17, 28, 39, 40, 51, 62, 73, 84, 95]),
    (5, [05, 16, 27, 38, 49, 50, 61, 72, 83, 94]),
    (6, [04, 15, 26, 37, 48, 59, 60, 71, 82, 93]),
    (7, [03, 14, 25, 36, 47, 58, 69, 70, 81, 92]),
    (8, [02, 13, 24, 35, 46, 57, 68, 79, 80, 91]),
    (9, [01, 12, 23, 34, 45, 56, 67, 78, 89, 90])
  ]

  /** The rule behind HIEU_MAP: tens digit minus units digit, mod 10. */
  function HieuClass(v: int): int
  {
    if 0 <= v < 100 then (v / 10 - v % 10) % 10 else -1
  }

  /** Entry t of HIEU_MAP is labelled t. */
  function HieuLabel(t: int): int
  {
    t
  }

  lemma HieuEntry0() ensures EntrySound(HieuMap, HieuClass, 0, 0) && EntryDistinct(HieuMap, 0, 0) {}
  lemma HieuEntry1() ensures EntrySound(HieuMap, HieuClass, 1, 0) && EntryDistinct(HieuMap, 1, 0) {}
  lemma HieuEntry2() ensures EntrySound(HieuMap, HieuClass, 2, 0) && EntryDistinct(HieuMap, 2, 0) {}
  lemma HieuEntry3() ensures EntrySound(HieuMap, HieuClass, 3, 0) && EntryDistinct(HieuMap, 3, 0) {}
  lemma HieuEntry4() ensures EntrySound(HieuMap, HieuClass, 4, 0) && EntryDistinct(HieuMap, 4, 0) {}
  lemma HieuEntry5() ensures EntrySound(HieuMap, HieuClass, 5, 0) && EntryDistinct(HieuMap, 5, 0) {}
  lemma HieuEntry6() ensures EntrySound(HieuMap, HieuClass, 6, 0) && EntryDistinct(HieuMap, 6, 0) {}
  lemma HieuEntry7() ensures EntrySound(HieuMap, HieuClass, 7, 0) && EntryDistinct(HieuMap, 7, 0) {}
  lemma HieuEntry8() ensures EntrySound(HieuMap, HieuClass, 8, 0) && EntryDistinct(HieuMap, 8, 0) {}
  lemma HieuEntry9() ensures EntrySound(HieuMap, HieuClass, 9, 0) && EntryDistinct(HieuMap, 9, 0) {}

  lemma HieuSize0() ensures SizeFrom(HieuMap, 5) == 50 {}
  lemma HieuSize() ensures TotalSize(HieuMap) == 100 { HieuSize0(); }
  lemma HieuLabels() ensures LabelsFrom(HieuMap, HieuLabel, 0) {}

  /** The ten lists of HIEU_MAP partition the hundred keys by difference,
      ten keys each, without repeats. */
  lemma HieuMapPartition()
    ensures Sound(HieuMap, HieuClass) && Complete(HieuMap, HieuClass) && Distinct(HieuMap)
    ensures TotalSize(HieuMap) == 100
    ensures LabelsFrom(HieuMap, HieuLabel, 0)
    ensures forall t :: 0 <= t < |HieuMap| ==> |HieuMap[t].1| == 10
  {
    forall t | 0 <= t < |HieuMap| ensures EntrySound(HieuMap, HieuClass, t, 0) && EntryDistinct(HieuMap, t, 0) {
      if t == 0 { HieuEntry0();
      } else if t == 1 { HieuEntry1();
      } else if t == 2 { HieuEntry2();
      } else if t == 3 { HieuEntry3();
      } else if t == 4 { HieuEntry4();
      } else if t == 5 { HieuEntry5();
      } else if t == 6 { HieuEntry6();
      } else if t == 7 { HieuEntry7();
      } else if t == 8 { HieuEntry8();
      } else { HieuEntry9(); }
    }
    SoundByCheck(HieuMap, HieuClass);
    DistinctByCheck(HieuMap);
    HieuSize();
    CompleteByCount(HieuMap, HieuClass);
    HieuLabels();
  }

  /** hieu(pair): the label of the first HIEU_MAP list holding
      pair.zfill(2), or -1. */
  function Hieu(pair: string): (r: int)
    ensures !IsKey(ZFill2(pair)) ==> r == -1
  {
    var p := ZFill2(pair);
    var t := if IsKey(p) then OwnerIndex(HieuMap, KeyValue(p)) else -1;
    if t >= 0 then HieuMap[t].0 else -1
  }

  /** The first HIEU_MAP list holding a key is the one of its difference,
      and it is labelled with that difference. */
  lemma HieuOwner(v: int)
    requires 0 <= v < 100
    ensures OwnerIndex(HieuMap, v) == HieuClass(v)
    ensures HieuMap[HieuClass(v)].0 == HieuClass(v)
  {
    HieuMapPartition();
    OwnerIsClass(HieuMap, HieuClass, v);
    LabelsAt(HieuMap, HieuLabel, 0, HieuClass(v));
  }

  /** hieu is total on keys: the tens digit minus the units digit, mod 10,
      and never -1. */
  lemma HieuOfKey(k: string)
    requires IsKey(k)
    ensures Hieu(k) == (DigitValue(k[0]) - DigitValue(k[1])) % 10
    ensures 0 <= Hieu(k) < 10
  {
    ZFill2Key(k);
    var v := KeyValue(k);
    HieuOwner(v);
    assert v / 10 == DigitValue(k[0]) && v % 10 == DigitValue(k[1]);
  }

  /** get_hieu_dan(h): the HIEU_MAP list of int(h), joined by commas. */
  function GetHieuDan(h: int): string
  {
    HieuMapPartition();
    Dan(HieuMap, h)
  }

  /** The dàn of a difference 0..9 lists exactly the ten keys having it;
      any other h gets "". */
  lemma HieuDan(h: int)
    ensures 0 <= h < 10 ==> |Split(GetHieuDan(h), ',')| == 10
    ensures 0 <= h < 10 ==> forall k :: k in Split(GetHieuDan(h), ',') <==> IsKey(k) && Hieu(k) == h
    ensures !(0 <= h < 10) ==> GetHieuDan(h) == ""
  {
    if 0 <= h < 10 {
      HieuDanOfClass(h);
      assert GetHieuDan(h) == Dan(HieuMap, h);
      forall k | IsKey(k) ensures Hieu(k) == h <==> HieuClass(KeyValue(k)) == h {
        HieuIsClass(k);
      }
    } else {
      HieuDanOther(h);
    }
  }

  lemma HieuIsClass(k: string)
    requires IsKey(k)
    ensures Hieu(k) == HieuClass(KeyValue(k))
  {
    HieuOfKey(k);
    var w := KeyValue(k);
    assert w / 10 == DigitValue(k[0]) && w % 10 == DigitValue(k[1]);
  }

  lemma HieuDanOther(h: int)
    requires !(0 <= h < 10)
    ensures GetHieuDan(h) == ""
  {
    HieuMapPartition();
    forall t | 0 <= t < |HieuMap| ensures HieuMap[t].0 != h {
      LabelsAt(HieuMap, HieuLabel, 0, t);
    }
  }

  lemma HieuDanOfClass(h: int)
    requires 0 <= h < 10
    ensures KeyMembers(HieuMap)
    ensures |Split(Dan(HieuMap, h), ',')| == 10
    ensures forall k :: k in Split(Dan(HieuMap, h), ',') <==> IsKey(k) && HieuClass(KeyValue(k)) == h
  {
    HieuMapPartition();
    LabelsAt(HieuMap, HieuLabel, 0, h);
    LabelIndexOf(HieuMap, HieuLabel, h);
    DanMembers(HieuMap, HieuClass, h);
  }

  /** ZODIAC_DICT: the twelve con giáp, each listing the keys whose value
      leaves its position as remainder mod 12. */
  const ZodiacDict: Table<string> := [
    ("Tý", [00, 12, 24, 36, 48, 60, 72, 84, 96]),
    ("Sửu", [01, 13, 25, 37, 49, 61, 73, 85, 97]),
    ("Dần", [02, 14, 26, 38, 50, 62, 74, 86, 98]),
    ("Mão", [03, 15, 27, 39, 51, 63, 75, 87, 99]),
    ("Thìn", [04, 16, 28, 40, 52, 64, 76, 88]),
    ("Tỵ", [05, 17, 29, 41, 53, 65, 77, 89]),
    ("Ngọ", [06, 18, 30, 42, 54, 66, 78, 90]),
    ("Mùi", [07, 19, 31, 43, 55, 67, 79, 91]),
    ("Thân", [08, 20, 32, 44, 56, 68, 80, 92]),
    ("Dậu", [09, 21, 33, 45, 57, 69, 81, 93]),
    ("Tuất", [10, 22, 34, 46, 58, 70, 82, 94]),
    ("Hợi", [11, 23, 35, 47, 59, 71, 83, 95])
  ]

  /** The rule behind ZODIAC_DICT: a key's value mod 12. */
  function ZodiacClass(v: int): int
  {
    if 0 <= v < 100 then v % 12 else -1
  }

  /** The name of the t-th con giáp. */
  function ZodiacName(t: int): string
  {
    if t == 0 then "Tý" else if t == 1 then "Sửu" else if t == 2 then "Dần"
    else if t == 3 then "Mão" else if t == 4 then "Thìn" else if t == 5 then "Tỵ"
    else if t == 6 then "Ngọ" else if t == 7 then "Mùi" else if t == 8 then "Thân"
    else if t == 9 then "Dậu" else if t == 10 then "Tuất" else "Hợi"
  }

  /** The twelve names are pairwise different. */
  lemma ZodiacNamesDistinct()
    ensures forall u, w :: 0 <= u < w < 12 ==> ZodiacName(u) != ZodiacName(w)
  {
  }

  lemma ZodiacEntries0()
    ensures forall t :: 0 <= t < 3 ==> EntrySound(ZodiacDict, ZodiacClass, t, 0) && EntryDistinct(ZodiacDict, t, 0)
  {
  }

  lemma ZodiacEntries1()
    ensures forall t :: 3 <= t < 6 ==> EntrySound(ZodiacDict, ZodiacClass, t, 0) && EntryDistinct(ZodiacDict, t, 0)
  {
  }

  lemma ZodiacEntries2()
    ensures forall t :: 6 <= t < 9 ==> EntrySound(ZodiacDict, ZodiacClass, t, 0) && EntryDistinct(ZodiacDict, t, 0)
  {
  }

  lemma ZodiacEntries3()
    ensures forall t :: 9 <= t < 12 ==> EntrySound(ZodiacDict, ZodiacClass, t, 0) && EntryDistinct(ZodiacDict, t, 0)
  {
  }

  lemma ZodiacSize0() ensures SizeFrom(ZodiacDict, 6) == 48 {}
  lemma ZodiacSize() ensures TotalSize(ZodiacDict) == 100 { ZodiacSize0(); }
  lemma ZodiacLabels0() ensures LabelsFrom(ZodiacDict, ZodiacName, 6) {}
  lemma ZodiacLabels() ensures LabelsFrom(ZodiacDict, ZodiacName, 0) { ZodiacLabels0(); }

  /** The twelve lists of ZODIAC_DICT partition the hundred keys by value
      mod 12 without repeats: nine keys for Tý..Mão, eight for the rest. */
  lemma ZodiacDictPartition()
    ensures Sound(ZodiacDict, ZodiacClass) && Complete(ZodiacDict, ZodiacClass) && Distinct(ZodiacDict)
    ensures TotalSize(ZodiacDict) == 100
    ensures LabelsFrom(ZodiacDict, ZodiacName, 0)
    ensures forall t :: 0 <= t < |ZodiacDict| ==> |ZodiacDict[t].1| == if t < 4 then 9 else 8
  {
    ZodiacEntries0();
    ZodiacEntries1();
    ZodiacEntries2();
    ZodiacEntries3();
    SoundByCheck(ZodiacDict, ZodiacClass);
    DistinctByCheck(ZodiacDict);
    ZodiacSize();
    CompleteByCount(ZodiacDict, ZodiacClass);
    ZodiacLabels();
  }

  lemma ZodiacOwner(v: int)
    requires 0 <= v < 100
    ensures OwnerIndex(ZodiacDict, v) == v % 12
    ensures ZodiacDict[v % 12].0 == ZodiacName(v % 12)
  {
    ZodiacDictPartition();
    OwnerIsClass(ZodiacDict, ZodiacClass, v);
    LabelsAt(ZodiacDict, ZodiacName, 0, v % 12);
  }

  /** zodiac(pair): the name of the first ZODIAC_DICT list holding
      pair.zfill(2), or "Không xác định". */
  function Zodiac(pair: string): (r: string)
    ensures !IsKey(ZFill2(pair)) ==> r == "Không xác định"
  {
    var p := ZFill2(pair);
    var t := if IsKey(p) then OwnerIndex(ZodiacDict, KeyValue(p)) else -1;
    if t >= 0 then ZodiacDict[t].0 else "Không xác định"
  }

  /** zodiac is total on keys: the con giáp of int(k) mod 12. */
  lemma ZodiacOfKey(k: string)
    requires IsKey(k)
    ensures Zodiac(k) == ZodiacName(KeyValue(k) % 12)
    ensures Zodiac(k) != "Không xác định"
  {
    ZFill2Key(k);
    ZodiacOwner(KeyValue(k));
  }

  /** get_zodiac_dan(z): the ZODIAC_DICT list of z, joined by commas. */
  function GetZodiacDan(z: string): string
  {
    ZodiacDictPartition();
    Dan(ZodiacDict, z)
  }

  /** The dàn of a key's con giáp lists exactly the keys of the same con
      giáp: nine for Tý..Mão, eight for the others. */
  lemma ZodiacDan(k: string)
    requires IsKey(k)
    ensures k in Split(GetZodiacDan(Zodiac(k)), ',')
    ensures |Split(GetZodiacDan(Zodiac(k)), ',')| == if KeyValue(k) % 12 < 4 then 9 else 8
    ensures forall x :: x in Split(GetZodiacDan(Zodiac(k)), ',') <==> IsKey(x) && Zodiac(x) == Zodiac(k)
  {
    var t := KeyValue(k) % 12;
    ZodiacOfKey(k);
    ZodiacDanOfClass(t);
    assert GetZodiacDan(Zodiac(k)) == Dan(ZodiacDict, ZodiacName(t));
    forall x | IsKey(x) ensures Zodiac(x) == Zodiac(k) <==> ZodiacClass(KeyValue(x)) == t {
      ZodiacOfKey(x);
      ZodiacNamesDistinct();
    }
  }

  lemma ZodiacDanOfClass(t: int)
    requires 0 <= t < 12
    ensures KeyMembers(ZodiacDict)
    ensures |Split(Dan(ZodiacDict, ZodiacName(t)), ',')| == if t < 4 then 9 else 8
    ensures forall x :: x in Split(Dan(ZodiacDict, ZodiacName(t)), ',') <==> IsKey(x) && ZodiacClass(KeyValue(x)) == t
  {
    ZodiacDictPartition();
    ZodiacNamesDistinct();
    LabelsAt(ZodiacDict, ZodiacName, 0, t);
    LabelIndexOf(ZodiacDict, ZodiacName, t);
    DanMembers(ZodiacDict, ZodiacClass, ZodiacName(t));
  }

  /** The tổng of a key: the sum of its digits, mod 10. */
  function Tong(k: string): int
    requires IsKey(k)
  {
    (DigitValue(k[0]) + DigitValue(k[1])) % 10
  }

  predicate HasTong(tong: int, k: string)
  {
    IsKey(k) && Tong(k) == tong
  }

  /** The test that get_tong_dan applies to each key. */
  function TongTest(tong: int): string -> bool
  {
    k => HasTong(tong, k)
  }

  /** The keys of tổng tong, ascending. */
  function TongKeys(tong: int): (r: seq<string>)
    ensures Ascending(r)
    ensures forall k :: k in r <==> HasTong(tong, k)
  {
    KeysWhere(TongTest(tong))
  }

  /** get_tong_dan(tong): appends, in order, each key "00".."99" whose digit
      sum mod 10 is int(tong), then joins them with commas. */
  method GetTongDan(tong: int) returns (r: string)
    ensures r == Join(',', TongKeys(tong))
  {
    var d: seq<string> := [];
    var i := 0;
    while i < 100
      invariant 0 <= i <= 100
      invariant Ascending(d)
      invariant forall k :: k in d <==> IsKey(k) && KeyValue(k) < i && HasTong(tong, k)
    {
      var num := KeyString(i);
      if HasTong(tong, num) {
        d := d + [num];
      }
      forall k | IsKey(k) && KeyValue(k) == i ensures k == num {
        KeyStringOfValue(k);
      }
      i := i + 1;
    }
    AscendingUnique(d, TongKeys(tong));
    r := Join(',', d);
  }

  /** Two columns of one row with the same tổng are the same column. */
  lemma TongColumn(a: nat, b: nat, col: nat)
    requires a < 10 && b < 10 && col < 10
    ensures (a + b) % 10 == (a + col) % 10 <==> b == col
  {
    if a + b < 10 { assert (a + b) % 10 == a + b; } else { assert (a + b) % 10 == a + b - 10; }
    if a + col < 10 { assert (a + col) % 10 == a + col; } else { assert (a + col) % 10 == a + col - 10; }
  }

  /** The column of row a whose tổng is tong. */
  lemma TongColumnOf(tong: int, a: nat) returns (col: nat)
    requires 0 <= tong < 10 && a < 10
    ensures col < 10 && (a + col) % 10 == tong
  {
    col := if a <= tong then tong - a else tong + 10 - a;
  }

  /** Within row a, from column b on, exactly the one column col whose
      tổng is tong qualifies. */
  lemma {:induction false} TongRowCount(f: string -> bool, tong: int, a: nat, b: nat, col: nat)
    requires a < 10 && b <= 10 && col < 10 && (a + col) % 10 == tong
    requires forall k :: IsKey(k) ==> (f(k) <==> Tong(k) == tong)
    ensures CountFrom(f, 10 * a + b) == CountFrom(f, 10 * a + 10) + (if b <= col then 1 else 0)
    decreases 10 - b
  {
    if b < 10 {
      TongRowCount(f, tong, a, b + 1, col);
      KeyDigits(a, b);
      var k := KeyString(10 * a + b);
      assert Tong(k) == (a + b) % 10;
      TongColumn(a, b, col);
    }
  }

  lemma {:induction false} TongRowsCount(f: string -> bool, tong: int, a: nat)
    requires 0 <= tong < 10 && a <= 10
    requires forall k :: IsKey(k) ==> (f(k) <==> Tong(k) == tong)
    ensures CountFrom(f, 10 * a) == 10 - a
    decreases 10 - a
  {
    if a < 10 {
      var col := TongColumnOf(tong, a);
      TongRowCount(f, tong, a, 0, col);
      TongRowsCount(f, tong, a + 1);
    }
  }

  lemma TongTestSpec(tong: int)
    ensures forall k :: IsKey(k) ==> (TongTest(tong)(k) <==> Tong(k) == tong)
  {
  }

  /** Each tổng 0..9 has exactly ten keys; any other tong has none. */
  lemma TongSize(tong: int)
    ensures 0 <= tong < 10 ==> |TongKeys(tong)| == 10
    ensures !(0 <= tong < 10) ==> TongKeys(tong) == []
  {
    var ks := TongKeys(tong);
    if 0 <= tong < 10 {
      var f := TongTest(tong);
      TongTestSpec(tong);
      TongRowsCount(f, tong, 0);
      KeysFromCount(f, 0);
      assert ks == KeysFrom(f, 0);
    } else {
      assert ks != [] ==> HasTong(tong, ks[0]);
    }
  }

  /** Splitting get_tong_dan(tong) at the commas gives back exactly the
      keys of tổng tong, for tong in 0..9. */
  lemma TongDan(tong: int)
    requires 0 <= tong < 10
    ensures forall k :: k in Split(Join(',', TongKeys(tong)), ',') <==> HasTong(tong, k)
  {
    var ks := TongKeys(tong);
    TongSize(tong);
    SplitKeys(ks);
  }
}
