/** Doubly linked lists threaded through records that are named by number. */
module Links {
  import opened Common

  function At(q: seq<nat>, k: int): int { if 0 <= k < |q| then q[k] else NULL }

  ghost predicate Linked(next: seq<int>, prev: seq<int>, head: int, q: seq<nat>) {
    && |next| == |prev| && InRange(q, |next|) && Distinct(q) && head == At(q, 0)
    && (forall i {:trigger next[q[i]]} :: 0 <= i < |q| ==> next[q[i]] == At(q, i + 1))
    && forall i {:trigger prev[q[i]]} :: 0 <= i < |q| ==> prev[q[i]] == At(q, i - 1)
  }

  lemma {:induction false} Neighbours(next: seq<int>, prev: seq<int>, head: int, q: seq<nat>, k: nat)
    requires Linked(next, prev, head, q) && k < |q|
    ensures |prev| == |next| && InRange(q, |next|) && q[k] < |next|
    ensures next[q[k]] == At(q, k + 1) && prev[q[k]] == At(q, k - 1)
    ensures k + 1 < |q| ==> q[k + 1] < |next| && q[k + 1] != q[k]
    ensures k > 0 ==> q[k - 1] < |next| && q[k - 1] != q[k]
  {
  }

  function InsertAt<T>(q: seq<T>, k: nat, n: T): seq<T>
    requires k <= |q|
  {
    q[..k] + [n] + q[k..]
  }

  function RemoveAt<T>(q: seq<T>, k: nat): seq<T>
    requires k < |q|
  {
    q[..k] + q[k + 1..]
  }

  lemma {:induction false} Grown(next: seq<int>, prev: seq<int>, head: int, q: seq<nat>)
    requires Linked(next, prev, head, q)
    ensures Linked(next + [NULL], prev + [NULL], head, q)
    ensures |next| !in q
  {
  }

  lemma {:induction false} InsertedAt<T>(q: seq<T>, k: nat, n: T)
    requires k <= |q|
    ensures |InsertAt(q, k, n)| == |q| + 1
    ensures forall i :: 0 <= i < |q| + 1 ==>
              InsertAt(q, k, n)[i] == if i < k then q[i] else if i == k then n else q[i - 1]
    ensures k > 0 ==> InsertAt(q, k, n)[k - 1] == q[k - 1]
    ensures forall x :: x in InsertAt(q, k, n) <==> x == n || x in q
  {
    assert q == q[..k] + q[k..];
    assert forall x :: x in q <==> x in q[..k] || x in q[k..];
  }

  /** Linking record `n` in at position `k`, given what the links around it become. */
  lemma {:induction false} Insert(next: seq<int>, prev: seq<int>, head: int, q: seq<nat>, k: nat, n: nat,
                                  next': seq<int>, prev': seq<int>, head': int)
    requires Linked(next, prev, head, q) && k <= |q| && n < |next| && n !in q
    requires |next'| == |prev'| == |next| && head' == if k == 0 then n else head
    requires next'[n] == At(q, k) && prev'[n] == At(q, k - 1)
    requires forall x :: 0 <= x < |next| && x != n && x != At(q, k - 1) ==> next'[x] == next[x]
    requires forall x :: 0 <= x < |next| && x != n && x != At(q, k) ==> prev'[x] == prev[x]
    requires k > 0 ==> next'[q[k - 1]] == n
    requires k < |q| ==> prev'[q[k]] == n
    ensures Linked(next', prev', head', InsertAt(q, k, n))
  {
    var q' := InsertAt(q, k, n);
    InsertedAt(q, k, n);
    InsertDistinct(q, k, n);
    hide InsertAt;
    forall i | 0 <= i < |q'|
      ensures q'[i] < |next| && next'[q'[i]] == At(q', i + 1) && prev'[q'[i]] == At(q', i - 1)
    {
      if i < k {
        Neighbours(next, prev, head, q, i);
        assert q'[i] == q[i] && q[i] in q;
        assert i < k - 1 ==> q[i] != q[k - 1];
        assert k < |q| ==> q[i] != q[k];
      } else if i > k {
        Neighbours(next, prev, head, q, i - 1);
        assert q'[i] == q[i - 1] && q[i - 1] in q;
        assert k > 0 ==> q[i - 1] != q[k - 1];
        assert i > k + 1 ==> q[i - 1] != q[k];
      }
    }
  }

  lemma {:induction false} InsertDistinct(q: seq<nat>, k: nat, n: nat)
    requires Distinct(q) && k <= |q| && n !in q
    ensures Distinct(InsertAt(q, k, n))
  {
    var q' := InsertAt(q, k, n);
    InsertedAt(q, k, n);
    assert forall i :: 0 <= i < |q| ==> q[i] in q;
  }

  /** Taking the record at position `k` out. */
  lemma {:induction false} Remove(next: seq<int>, prev: seq<int>, head: int, q: seq<nat>, k: nat,
                                  next': seq<int>, prev': seq<int>, head': int)
    requires Linked(next, prev, head, q) && k < |q|
    requires |next'| == |prev'| == |next| && head' == if k == 0 then At(q, 1) else head
    requires forall x :: 0 <= x < |next| && x != At(q, k - 1) ==> next'[x] == next[x]
    requires forall x :: 0 <= x < |next| && x != At(q, k + 1) ==> prev'[x] == prev[x]
    requires k > 0 ==> next'[q[k - 1]] == At(q, k + 1)
    requires k + 1 < |q| ==> prev'[q[k + 1]] == At(q, k - 1)
    ensures Linked(next', prev', head', RemoveAt(q, k))
  {
    var q' := RemoveAt(q, k);
    RemovedAt(q, k);
    forall i | 0 <= i < |q'|
      ensures next'[q'[i]] == At(q', i + 1) && prev'[q'[i]] == At(q', i - 1)
    {
      if i < k {
        Neighbours(next, prev, head, q, i);
        assert q'[i] == q[i];
        assert i < k - 1 ==> q[i] != q[k - 1];
        assert k + 1 < |q| ==> q[i] != q[k + 1];
      } else {
        Neighbours(next, prev, head, q, i + 1);
        assert q'[i] == q[i + 1];
        assert k > 0 ==> q[i + 1] != q[k - 1];
        assert i > k ==> q[i + 1] != q[k + 1];
      }
    }
  }

  lemma {:induction false} RemovedAt(q: seq<nat>, k: nat)
    requires k < |q|
    ensures |RemoveAt(q, k)| == |q| - 1
    ensures forall i :: 0 <= i < |q| - 1 ==> RemoveAt(q, k)[i] == if i < k then q[i] else q[i + 1]
    ensures Distinct(q) ==> Distinct(RemoveAt(q, k))
  {
  }
}
