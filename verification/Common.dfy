/** Notions that several modules share. */
module Common {
  // No record, where records are named by number.
  const NULL: int := -1

  const PAGE_SIZE := 4096

  datatype Option<T> = None | Some(value: T)

  // Every number of the sequence names one of `n` records.
  predicate InRange(q: seq<nat>, n: nat) { forall i :: 0 <= i < |q| ==> q[i] < n }

  predicate Distinct<T(==)>(q: seq<T>) { forall i, j :: 0 <= i < j < |q| ==> q[i] != q[j] }

  /** The numbers below `n`. */
  function UpTo(n: nat): (r: set<nat>)
    ensures |r| == n && forall i :: i in r <==> 0 <= i < n
  {
    if n == 0 then {} else UpTo(n - 1) + {n - 1}
  }

  function Elements<T(==)>(s: seq<T>): set<T> { set x | x in s }

  lemma {:induction false} DistinctSize<T>(s: seq<T>)
    requires Distinct(s)
    ensures |Elements(s)| == |s|
  {
    if s != [] {
      var front, last := s[..|s| - 1], s[|s| - 1];
      DistinctSize(front);
      assert last !in Elements(front);
      assert s == front + [last];
      assert Elements(s) == Elements(front) + {last};
    }
  }

  lemma {:induction false} DistinctBounded(s: seq<nat>, n: nat)
    requires Distinct(s) && forall x :: x in s ==> x < n
    ensures |s| <= n
  {
    DistinctSize(s);
    var all := UpTo(n);
    assert Elements(s) <= all && all == Elements(s) + (all - Elements(s));
  }

  lemma {:induction false} CoversRange(s: seq<nat>, n: nat)
    requires Distinct(s) && forall x :: x in s <==> 0 <= x < n
    ensures |s| == n
  {
    DistinctSize(s);
    assert Elements(s) == UpTo(n);
  }

  /** Distinct numbers below `n`, `n` of them, are all the numbers below `n`. */
  lemma {:induction false} Pigeonhole(s: seq<nat>, n: nat, x: nat)
    requires Distinct(s) && InRange(s, n) && |s| == n && x < n
    ensures x in s
  {
    if x !in s { DistinctBounded(s + [x], n); }
  }
}
