/** Filtering by index: the list of entry(i), in order, for the indexes
    i < n that a test accepts. Several loops of streamlit_app.py append to
    a list under a test in this way. */
module Filter {
  import opened Keys

  /** The entries entry(i), in order, of the indexes i < n that keep
      accepts: the shape of a loop that appends to a list under a test. */
  function Kept<T>(keep: nat -> bool, entry: nat -> T, n: nat): seq<T>
  {
    if n == 0 then [] else Kept(keep, entry, n - 1) + (if keep(n - 1) then [entry(n - 1)] else [])
  }

  lemma KeptStep<T>(keep: nat -> bool, entry: nat -> T, n: nat)
    ensures keep(n) ==> Kept(keep, entry, n + 1) == Kept(keep, entry, n) + [entry(n)]
    ensures !keep(n) ==> Kept(keep, entry, n + 1) == Kept(keep, entry, n)
  {
  }

  /** One pass of such a loop: append entry(n) when keep accepts n. */
  method KeepStep<T>(keep: nat -> bool, entry: nat -> T, n: nat, acc: seq<T>, accepted: bool, x: T)
    returns (next: seq<T>)
    requires acc == Kept(keep, entry, n)
    requires accepted == keep(n) && x == entry(n)
    ensures next == Kept(keep, entry, n + 1)
  {
    KeptStep(keep, entry, n);
    next := acc;
    if accepted {
      next := acc + [x];
    }
  }

  lemma {:induction false} KeptMembers<T>(keep: nat -> bool, entry: nat -> T, n: nat)
    ensures forall x :: x in Kept(keep, entry, n) ==> exists i :: 0 <= i < n && keep(i) && x == entry(i)
    ensures forall i :: 0 <= i < n && keep(i) ==> entry(i) in Kept(keep, entry, n)
  {
    if n > 0 {
      KeptMembers(keep, entry, n - 1);
      var prev := Kept(keep, entry, n - 1);
      assert Kept(keep, entry, n) == prev + (if keep(n - 1) then [entry(n - 1)] else []);
      forall x | x in Kept(keep, entry, n)
        ensures exists i :: 0 <= i < n && keep(i) && x == entry(i)
      {
        if x !in prev {
          assert keep(n - 1) && x == entry(n - 1);
        }
      }
    }
  }

  /** What a stricter test accepts, a looser one accepts too. */
  lemma {:induction false} KeptSubset<T>(keep1: nat -> bool, keep2: nat -> bool, entry: nat -> T, n: nat)
    requires forall i :: 0 <= i < n && keep2(i) ==> keep1(i)
    ensures forall x :: x in Kept(keep2, entry, n) ==> x in Kept(keep1, entry, n)
    ensures |Kept(keep2, entry, n)| <= |Kept(keep1, entry, n)|
  {
    if n > 0 {
      KeptSubset(keep1, keep2, entry, n - 1);
    }
  }

  /** No index from m on is accepted, so at most min(n, m) entries. */
  lemma {:induction false} KeptLength<T>(keep: nat -> bool, entry: nat -> T, n: nat, m: nat)
    requires forall i :: m <= i < n ==> !keep(i)
    ensures |Kept(keep, entry, n)| <= Min(n, m)
  {
    if n > 0 {
      KeptLength(keep, entry, n - 1, m);
    }
  }

  /** a is b with some entries left out, order kept: the list built by
      appending at the end, compared entry by entry from the back. */
  predicate Subsequence<T(==)>(a: seq<T>, b: seq<T>)
    decreases |b|
  {
    a == [] ||
    (b != [] &&
     ((a[|a| - 1] == b[|b| - 1] && Subsequence(a[..|a| - 1], b[..|b| - 1])) ||
      Subsequence(a, b[..|b| - 1])))
  }

  /** What a stricter test keeps is a subsequence of what a looser one
      keeps: the same entries, in the same order. */
  lemma {:induction false} KeptSubsequence<T>(keep1: nat -> bool, keep2: nat -> bool, entry: nat -> T, n: nat)
    requires forall i :: 0 <= i < n && keep2(i) ==> keep1(i)
    ensures Subsequence(Kept(keep2, entry, n), Kept(keep1, entry, n))
  {
    if n > 0 {
      KeptSubsequence(keep1, keep2, entry, n - 1);
      var a, b := Kept(keep2, entry, n - 1), Kept(keep1, entry, n - 1);
      KeptStep(keep1, entry, n - 1);
      KeptStep(keep2, entry, n - 1);
      if keep2(n - 1) {
        var a1, b1 := a + [entry(n - 1)], b + [entry(n - 1)];
        assert a1[..|a1| - 1] == a && b1[..|b1| - 1] == b;
      } else if keep1(n - 1) {
        var b1 := b + [entry(n - 1)];
        assert b1[..|b1| - 1] == b;
      }
    }
  }
}
