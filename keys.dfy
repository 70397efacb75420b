/** Two-digit keys "00".."99" and the string helpers the Python source
    applies to them: f"{i:02d}", int(k), s.zfill(2) and s[-2:]. */
module Keys {

  predicate IsDigit(c: char) { '0' <= c <= '9' }

  function DigitValue(c: char): (d: int)
    requires IsDigit(c)
    ensures 0 <= d < 10
  {
    c as int - '0' as int
  }

  function DigitChar(d: int): (c: char)
    requires 0 <= d < 10
    ensures IsDigit(c) && DigitValue(c) == d
  {
    (d + '0' as int) as char
  }

  /** A key: exactly two decimal digit characters, such as "07". */
  predicate IsKey(s: string)
  {
    |s| == 2 && IsDigit(s[0]) && IsDigit(s[1])
  }

  /** int(k) for a key k. */
  function KeyValue(k: string): (v: int)
    requires IsKey(k)
    ensures 0 <= v < 100
  {
    10 * DigitValue(k[0]) + DigitValue(k[1])
  }

  /** f"{v:02d}" for 0 <= v < 100; the inverse of KeyValue. */
  function KeyString(v: int): (k: string)
    requires 0 <= v < 100
    ensures IsKey(k) && KeyValue(k) == v
  {
    [DigitChar(v / 10), DigitChar(v % 10)]
  }

  lemma KeyStringOfValue(k: string)
    requires IsKey(k)
    ensures KeyString(KeyValue(k)) == k
  {
    var v := KeyValue(k);
    assert v / 10 == DigitValue(k[0]) && v % 10 == DigitValue(k[1]);
  }

  lemma KeyValueInjective(k: string, l: string)
    requires IsKey(k) && IsKey(l) && KeyValue(k) == KeyValue(l)
    ensures k == l
  {
    KeyStringOfValue(k);
    KeyStringOfValue(l);
  }

  /** The tens digit of the key with value v. */
  function Tens(v: int): (d: int)
    requires 0 <= v < 100
    ensures 0 <= d < 10 && DigitValue(KeyString(v)[0]) == d
  {
    v / 10
  }

  /** The units digit of the key with value v. */
  function Units(v: int): (d: int)
    requires 0 <= v < 100
    ensures 0 <= d < 10 && DigitValue(KeyString(v)[1]) == d && 10 * Tens(v) + d == v
  {
    v % 10
  }

  /** The digits of the key with value 10 * a + b are a and b. */
  lemma KeyDigits(a: int, b: int)
    requires 0 <= a < 10 && 0 <= b < 10
    ensures (10 * a + b) / 10 == a && (10 * a + b) % 10 == b
    ensures var k := KeyString(10 * a + b); DigitValue(k[0]) == a && DigitValue(k[1]) == b
  {
  }

  function Min(a: int, b: int): int
  {
    if a < b then a else b
  }

  function Max(a: int, b: int): int
  {
    if a < b then b else a
  }

  /** s.zfill(2): a string shorter than two characters is padded with '0'
      on the left, after a leading '+' or '-'; a longer one is unchanged. */
  function ZFill2(s: string): (r: string)
    ensures |r| == if |s| < 2 then 2 else |s|
  {
    if |s| >= 2 then s
    else if |s| == 1 && (s[0] == '+' || s[0] == '-') then s + "0"
    else if |s| == 1 then "0" + s
    else "00"
  }

  /** zfill(2) yields a key exactly from a key, a single digit or the empty
      string, and it keeps the value of the digits. */
  lemma ZFill2Key(s: string)
    ensures IsKey(ZFill2(s)) <==> IsKey(s) || (|s| == 1 && IsDigit(s[0])) || s == ""
    ensures IsKey(s) ==> ZFill2(s) == s
    ensures |s| == 1 && IsDigit(s[0]) ==> KeyValue(ZFill2(s)) == DigitValue(s[0])
    ensures s == "" ==> KeyValue(ZFill2(s)) == 0
  {
  }

  /** s[-2:]: the last two characters, or all of s when it is shorter. */
  function Last2(s: string): (r: string)
    ensures |r| == if |s| < 2 then |s| else 2
    ensures forall j :: 0 <= j < |r| ==> r[j] == s[|s| - |r| + j]
  {
    if |s| < 2 then s else s[|s| - 2..]
  }

  /** Keys listed in strictly increasing numeric order, which for two-digit
      strings is also their lexicographic order. */
  predicate Ascending(ks: seq<string>)
  {
    (forall j :: 0 <= j < |ks| ==> IsKey(ks[j])) &&
    (forall j, l :: 0 <= j < l < |ks| ==> KeyValue(ks[j]) < KeyValue(ks[l]))
  }

  /** [f"{i:02d}" for i in range(lo, 100) if f(f"{i:02d}")] */
  function KeysFrom(f: string -> bool, lo: nat): seq<string>
    requires lo <= 100
    decreases 100 - lo
  {
    if lo == 100 then [] else (if f(KeyString(lo)) then [KeyString(lo)] else []) + KeysFrom(f, lo + 1)
  }

  /** KeysFrom lists, ascending, exactly the keys from lo on that satisfy f. */
  lemma {:induction false} KeysFromSpec(f: string -> bool, lo: nat)
    requires lo <= 100
    ensures forall k :: k in KeysFrom(f, lo) <==> IsKey(k) && lo <= KeyValue(k) && f(k)
    ensures Ascending(KeysFrom(f, lo))
    decreases 100 - lo
  {
    if lo < 100 {
      KeysFromSpec(f, lo + 1);
      forall k | IsKey(k) && KeyValue(k) == lo ensures k == KeyString(lo) {
        KeyStringOfValue(k);
      }
    }
  }

  /** The number of keys from lo on that satisfy f. */
  function CountFrom(f: string -> bool, lo: nat): nat
    requires lo <= 100
    decreases 100 - lo
  {
    if lo == 100 then 0 else (if f(KeyString(lo)) then 1 else 0) + CountFrom(f, lo + 1)
  }

  lemma {:induction false} KeysFromCount(f: string -> bool, lo: nat)
    requires lo <= 100
    ensures |KeysFrom(f, lo)| == CountFrom(f, lo)
    decreases 100 - lo
  {
    if lo < 100 { KeysFromCount(f, lo + 1); }
  }

  /** The keys "00".."99" that satisfy f, in ascending order. */
  function KeysWhere(f: string -> bool): (r: seq<string>)
    ensures forall k :: k in r <==> IsKey(k) && f(k)
    ensures Ascending(r)
  {
    KeysFromSpec(f, FirstKey());
    KeysFrom(f, FirstKey())
  }

  /** The value of "00". Named rather than written as a literal, so that a
      scan from it is unfolded only as far as a proof asks. */
  function FirstKey(): nat
  {
    0
  }

  /** sorted(s) for a set of keys: its members in ascending order. */
  function SortedKeys(s: set<string>): (r: seq<string>)
    ensures (forall k :: k in s ==> IsKey(k)) ==> forall k :: k in r <==> k in s
    ensures Ascending(r)
  {
    KeysWhere(k => k in s)
  }

  /** An ascending sequence has no repeated key. */
  lemma AscendingDistinct(ks: seq<string>, j: int, l: int)
    requires Ascending(ks) && 0 <= j < |ks| && 0 <= l < |ks| && j != l
    ensures ks[j] != ks[l]
  {
  }

  /** In an ascending sequence the first key is the smallest member and
      the rest holds every other member. */
  lemma AscendingHead(a: seq<string>)
    requires Ascending(a) && a != []
    ensures forall k :: k in a ==> KeyValue(a[0]) <= KeyValue(k)
    ensures forall k :: k in a[1..] <==> k in a && k != a[0]
  {
    forall k | k in a && k != a[0] ensures k in a[1..] {
      var z :| 0 <= z < |a| && a[z] == k;
      assert a[z] == a[1..][z - 1];
    }
  }

  /** Two ascending sequences with the same members are equal, so an
      ascending listing of a set is unique. */
  lemma {:induction false} AscendingUnique(a: seq<string>, b: seq<string>)
    requires Ascending(a) && Ascending(b)
    requires forall k :: k in a <==> k in b
    ensures a == b
    decreases |a|
  {
    assert a != [] ==> a[0] in b;
    assert b != [] ==> b[0] in a;
    if a != [] && b != [] {
      AscendingHead(a);
      AscendingHead(b);
      assert a[0] in b && b[0] in a;
      KeyValueInjective(a[0], b[0]);
      AscendingTail(a);
      AscendingTail(b);
      forall k ensures k in a[1..] <==> k in b[1..] {
      }
      AscendingUnique(a[1..], b[1..]);
      assert a == [a[0]] + a[1..] && b == [b[0]] + b[1..];
    }
  }

  lemma AscendingTail(a: seq<string>)
    requires Ascending(a) && a != []
    ensures Ascending(a[1..])
  {
    assert forall j :: 0 <= j < |a| - 1 ==> a[1..][j] == a[j + 1];
  }
}
