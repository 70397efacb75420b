/** The Python string operations the statistics helpers rely on:
    sep.join(xs), s.split(sep), s.split() and s.count(p). */
module Text {

  /** sep.join(xs) for a one-character separator. */
  function Join(sep: char, xs: seq<string>): string
  {
    if |xs| == 0 then ""
    else if |xs| == 1 then xs[0]
    else xs[0] + [sep] + Join(sep, xs[1..])
  }

  /** s.split(sep): the pieces between separators, always at least one;
      joining them back gives s, and no piece holds the separator. */
  function Split(s: string, sep: char): (r: seq<string>)
    ensures |r| >= 1
    ensures Join(sep, r) == s
    ensures forall j :: 0 <= j < |r| ==> sep !in r[j]
    decreases |s|
  {
    if |s| == 0 then [""]
    else
      var rest := Split(s[1..], sep);
      if s[0] == sep then
        assert Join(sep, [""] + rest) == [sep] + Join(sep, rest) by {
          assert ([""] + rest)[1..] == rest;
        }
        [""] + rest
      else
        var r := [[s[0]] + rest[0]] + rest[1..];
        assert Join(sep, r) == [s[0]] + Join(sep, rest) by {
          if |rest| > 1 {
            assert r[1..] == rest[1..];
          }
        }
        assert forall j :: 1 <= j < |r| ==> r[j] == rest[j];
        r
  }

  /** In a join of separator-free pieces the first piece runs up to the
      first separator, and a separator occurs only when there are two pieces
      or more. */
  lemma {:induction false} JoinShape(sep: char, xs: seq<string>)
    requires |xs| >= 1
    requires forall j :: 0 <= j < |xs| ==> sep !in xs[j]
    ensures (sep in Join(sep, xs)) == (|xs| > 1)
    ensures |xs| > 1 ==> Join(sep, xs) == xs[0] + [sep] + Join(sep, xs[1..])
    decreases |xs|
  {
    if |xs| > 1 {
      var s := Join(sep, xs);
      assert s[|xs[0]|] == sep;
    }
  }

  /** Two separator-free listings with the same join are the same listing. */
  lemma {:induction false} JoinInjective(sep: char, xs: seq<string>, ys: seq<string>)
    requires |xs| >= 1 && |ys| >= 1
    requires forall j :: 0 <= j < |xs| ==> sep !in xs[j]
    requires forall j :: 0 <= j < |ys| ==> sep !in ys[j]
    requires Join(sep, xs) == Join(sep, ys)
    ensures xs == ys
    decreases |xs|
  {
    var s := Join(sep, xs);
    JoinShape(sep, xs);
    JoinShape(sep, ys);
    assert (|xs| > 1) == (|ys| > 1);
    if |xs| > 1 {
      var a, b := xs[0], ys[0];
      assert s == a + [sep] + Join(sep, xs[1..]);
      assert s == b + [sep] + Join(sep, ys[1..]);
      assert forall i :: 0 <= i < |a| ==> s[i] == a[i] != sep;
      assert forall i :: 0 <= i < |b| ==> s[i] == b[i] != sep;
      assert s[|a|] == sep && s[|b|] == sep;
      assert a == s[..|a|] == b;
      assert Join(sep, xs[1..]) == s[|a| + 1..] == Join(sep, ys[1..]);
      JoinInjective(sep, xs[1..], ys[1..]);
      assert xs == [a] + xs[1..] && ys == [b] + ys[1..];
    }
  }

  /** Splitting a join gives the pieces back when none holds the separator;
      "".join([]) == "" is the one listing this misses, since "".split(sep)
      is [""]. */
  lemma SplitJoin(sep: char, xs: seq<string>)
    requires |xs| >= 1
    requires forall j :: 0 <= j < |xs| ==> sep !in xs[j]
    ensures Split(Join(sep, xs), sep) == xs
  {
    JoinInjective(sep, Split(Join(sep, xs), sep), xs);
  }

  /** str.isspace for one character. */
  predicate IsSpace(c: char)
  {
    ('\t' <= c <= '\r') || ('\U{1C}' <= c <= ' ') || c == '\U{85}' || c == '\U{A0}' ||
    c == '\U{1680}' || ('\U{2000}' <= c <= '\U{200A}') || c == '\U{2028}' || c == '\U{2029}' ||
    c == '\U{202F}' || c == '\U{205F}' || c == '\U{3000}'
  }

  predicate IsWord(w: string)
  {
    |w| > 0 && forall j :: 0 <= j < |w| ==> !IsSpace(w[j])
  }

  /** s.split() with no argument: the maximal runs of non-space characters. */
  function Words(s: string): (r: seq<string>)
    ensures forall j :: 0 <= j < |r| ==> IsWord(r[j])
    ensures |s| > 0 && !IsSpace(s[0]) ==> |r| > 0 && IsWord(r[0]) && r[0][0] == s[0]
    decreases |s|
  {
    if |s| == 0 then []
    else
      var rest := Words(s[1..]);
      if IsSpace(s[0]) then rest
      else if |s| > 1 && !IsSpace(s[1]) then
        var r := [[s[0]] + rest[0]] + rest[1..];
        assert forall j :: 1 <= j < |r| ==> r[j] == rest[j];
        r
      else [[s[0]]] + rest
  }

  /** A word followed by nothing or by a space opens the word list. */
  lemma {:induction false} WordsPrefix(w: string, t: string)
    requires IsWord(w)
    requires t == [] || IsSpace(t[0])
    ensures Words(w + t) == [w] + Words(t)
    decreases |w|
  {
    var s := w + t;
    if |w| == 1 {
      assert s[1..] == t;
      assert [s[0]] == w;
    } else {
      assert s[1..] == w[1..] + t;
      WordsPrefix(w[1..], t);
      assert [w[0]] + w[1..] == w;
    }
  }

  /** Splitting on spaces undoes a " ".join of words. */
  lemma {:induction false} WordsJoin(xs: seq<string>)
    requires forall j :: 0 <= j < |xs| ==> IsWord(xs[j])
    ensures Words(Join(' ', xs)) == xs
    decreases |xs|
  {
    if |xs| == 1 {
      WordsPrefix(xs[0], "");
      assert xs[0] + "" == xs[0];
    } else if |xs| > 1 {
      var rest := Join(' ', xs[1..]);
      WordsPrefix(xs[0], [' '] + rest);
      assert Join(' ', xs) == xs[0] + ([' '] + rest);
      assert Words([' '] + rest) == Words(rest) by {
        assert ([' '] + rest)[1..] == rest;
      }
      WordsJoin(xs[1..]);
      assert xs == [xs[0]] + xs[1..];
    }
  }

  /** s.count(p): occurrences of p in s that do not overlap, taken left to
      right (so "000".count("00") == 1); the empty p occurs |s| + 1 times. */
  function Count(s: string, p: string): (n: nat)
    ensures |p| > 0 ==> n * |p| <= |s|
    decreases |s|
  {
    if |p| == 0 then |s| + 1
    else if |s| < |p| then 0
    else if s[..|p|] == p then 1 + Count(s[|p|..], p)
    else Count(s[1..], p)
  }

  predicate OccursAt(s: string, p: string, i: int)
  {
    0 <= i && i + |p| <= |s| && s[i..i + |p|] == p
  }

  /** p is counted at least once exactly when it occurs somewhere in s. */
  lemma {:induction false} CountPositive(s: string, p: string)
    requires |p| > 0
    ensures Count(s, p) > 0 <==> exists i :: OccursAt(s, p, i)
    decreases |s|
  {
    if |s| < |p| {
      assert forall i :: !OccursAt(s, p, i);
    } else if s[..|p|] == p {
      assert OccursAt(s, p, 0);
    } else {
      CountPositive(s[1..], p);
      if exists i :: OccursAt(s[1..], p, i) {
        var i :| OccursAt(s[1..], p, i);
        assert s[i + 1..i + 1 + |p|] == s[1..][i..i + |p|];
        assert OccursAt(s, p, i + 1);
      }
      if exists i :: OccursAt(s, p, i) {
        var i :| OccursAt(s, p, i);
        assert i != 0;
        assert s[1..][i - 1..i - 1 + |p|] == s[i..i + |p|];
        assert OccursAt(s[1..], p, i - 1);
      }
    }
  }

  lemma CountExample()
    ensures Count("000", "00") == 1
    ensures Count("0000", "00") == 2
  {
  }

  /** sum(s.count(p) for s in rng) */
  function TotalCount(rng: seq<string>, p: string): nat
  {
    if |rng| == 0 then 0 else TotalCount(rng[..|rng| - 1], p) + Count(rng[|rng| - 1], p)
  }
  /** Characters in strictly increasing order: sorted and free of repeats. */
  predicate Increasing(s: seq<char>)
  {
    forall i, j :: 0 <= i < j < |s| ==> s[i] < s[j]
  }

  /** Adds c to an increasing sequence, keeping it increasing. */
  function Insert(xs: seq<char>, c: char): (r: seq<char>)
    requires Increasing(xs)
    ensures Increasing(r)
    ensures forall x :: x in r <==> x in xs || x == c
    decreases |xs|
  {
    if xs == [] then [c]
    else if c < xs[0] then
      IncreasingHead(xs);
      IncreasingCons(c, xs);
      [c] + xs
    else if c == xs[0] then xs
    else
      IncreasingHead(xs);
      IncreasingTail(xs);
      var rest := Insert(xs[1..], c);
      assert forall x :: x in rest ==> xs[0] < x;
      IncreasingCons(xs[0], rest);
      [xs[0]] + rest
  }

  lemma IncreasingTail(a: seq<char>)
    requires Increasing(a) && a != []
    ensures Increasing(a[1..])
  {
    assert forall i :: 0 <= i < |a| - 1 ==> a[1..][i] == a[i + 1];
  }

  /** A character below every member of an increasing sequence can go in
      front of it. */
  lemma IncreasingCons(x: char, s: seq<char>)
    requires Increasing(s)
    requires forall y :: y in s ==> x < y
    ensures Increasing([x] + s)
  {
    var t := [x] + s;
    forall i, j | 0 <= i < j < |t| ensures t[i] < t[j] {
      assert t[j] == s[j - 1];
      assert s[j - 1] in s;
      if i > 0 {
        assert t[i] == s[i - 1];
      }
    }
  }

  /** sorted(set(cs)): the distinct characters of cs in increasing order. */
  function SortedSet(cs: seq<char>): (r: seq<char>)
    ensures Increasing(r)
    ensures forall x :: x in r <==> x in cs
  {
    if cs == [] then [] else Insert(SortedSet(cs[..|cs| - 1]), cs[|cs| - 1])
  }

  /** The head of an increasing sequence is its least member, and the rest
      holds every other member. */
  lemma IncreasingHead(a: seq<char>)
    requires Increasing(a) && a != []
    ensures forall x :: x in a ==> a[0] <= x
    ensures forall x :: x in a[1..] <==> x in a && x != a[0]
  {
    forall x | x in a && x != a[0] ensures x in a[1..] {
      var z :| 0 <= z < |a| && a[z] == x;
      assert a[z] == a[1..][z - 1];
    }
  }

  /** An increasing listing of a set of characters is unique. */
  lemma {:induction false} IncreasingUnique(a: seq<char>, b: seq<char>)
    requires Increasing(a) && Increasing(b)
    requires forall x :: x in a <==> x in b
    ensures a == b
    decreases |a|
  {
    assert a != [] ==> a[0] in b;
    assert b != [] ==> b[0] in a;
    if a != [] && b != [] {
      IncreasingHead(a);
      IncreasingHead(b);
      assert a[0] in b && b[0] in a;
      IncreasingUnique(a[1..], b[1..]);
      assert a == [a[0]] + a[1..] && b == [b[0]] + b[1..];
    }
  }
}
