/** The driver load order solver of `buildscripts/create_driver_data.py`: a queue-driven
topological sort over LOAD_BEFORE pairs, which may repeat. */
module DriverOrder {
  import opened Common

  datatype Name = Name(file: string)

  // (A, B): A must load before B.
  type Constraint = (Name, Name)

  datatype Result = Solved(order: seq<Name>) | Impossible | KeyError(name: Name)

  // ---------- specification ----------

  // Every constrained driver in the order has its predecessors earlier in the order.
  predicate Respects(order: seq<Name>, cs: seq<Constraint>) {
    forall c, j :: c in cs && 0 <= j < |order| && order[j] == c.1 ==> c.0 in order[..j]
  }

  // A walk along constraints.
  ghost predicate Walk(w: seq<Name>, cs: seq<Constraint>) {
    |w| <= 1 || ((w[|w| - 2], w[|w| - 1]) in cs && Walk(w[..|w| - 1], cs))
  }

  ghost predicate IsCycle(w: seq<Name>, cs: seq<Constraint>) { |w| >= 2 && w[0] == w[|w| - 1] && Walk(w, cs) }

  ghost predicate HasCycle(cs: seq<Constraint>) {
    exists w: seq<Name> :: IsCycle(w, cs)
  }

  /** The targets of the constraints that start at `d`, in order and with repetition. */
  function Neighbors(cs: seq<Constraint>, d: Name): seq<Name> {
    if cs == [] then []
    else Neighbors(cs[..|cs| - 1], d) + if cs[|cs| - 1].0 == d then [cs[|cs| - 1].1] else []
  }

  /** How many constraints into `d` start outside `done`. */
  function Pending(cs: seq<Constraint>, done: set<Name>, d: Name): nat {
    if cs == [] then 0
    else Pending(cs[..|cs| - 1], done, d) + if cs[|cs| - 1].1 == d && cs[|cs| - 1].0 !in done then 1 else 0
  }

  // ---------- counting ----------

  /** Finishing a driver lowers each in-degree by that driver's constraints on it. */
  lemma {:induction false} PendingFinish(cs: seq<Constraint>, done: set<Name>, d: Name, n: Name)
    requires d !in done
    ensures Pending(cs, done + {d}, n) + multiset(Neighbors(cs, d))[n] == Pending(cs, done, n)
  {
    if cs != [] { PendingFinish(cs[..|cs| - 1], done, d, n); }
  }

  /** A pending constraint can be named. */
  lemma {:induction false} PendingWitness(cs: seq<Constraint>, done: set<Name>, d: Name)
    ensures Pending(cs, done, d) > 0 <==> exists c :: c in cs && c.1 == d && c.0 !in done
  {
    if cs != [] {
      PendingWitness(cs[..|cs| - 1], done, d);
      assert cs == cs[..|cs| - 1] + [cs[|cs| - 1]];
      assert cs[|cs| - 1] in cs;
    }
  }

  // ---------- order and cycles ----------

  /** Along a walk, an order that respects the constraints only goes forward. */
  lemma {:induction false} WalkGoesForward(order: seq<Name>, cs: seq<Constraint>, w: seq<Name>, j: nat) returns (i: nat)
    requires Respects(order, cs) && Walk(w, cs) && |w| >= 1
    requires j < |order| && order[j] == w[|w| - 1]
    ensures i + |w| - 1 <= j && order[i] == w[0]
  {
    if |w| == 1 {
      i := j;
    } else {
      var c := (w[|w| - 2], w[|w| - 1]);
      assert c in cs;
      assert c.0 in order[..j];
      var k :| 0 <= k < j && order[k] == c.0;
      i := WalkGoesForward(order, cs, w[..|w| - 1], k);
    }
  }

  lemma {:induction false} OrderExcludesCycle(order: seq<Name>, cs: seq<Constraint>)
    requires Distinct(order) && Respects(order, cs)
    requires forall c :: c in cs ==> c.1 in order
    ensures !HasCycle(cs)
  {
    if HasCycle(cs) {
      var w: seq<Name> :| IsCycle(w, cs);
      assert (w[|w| - 2], w[|w| - 1]) in cs;
      var j :| 0 <= j < |order| && order[j] == w[|w| - 1];
      var i := WalkGoesForward(order, cs, w, j);
    }
  }

  lemma {:induction false} SubsetSize(a: set<Name>, b: set<Name>)
    requires a <= b
    ensures |a| <= |b| && (|a| == |b| ==> a == b)
  {
    assert |b| == |a| + |b - a| by { assert b == a + (b - a); }
  }

  ghost predicate WaitsFor(cs: seq<Constraint>, x: Name, rest: set<Name>) {
    exists c :: c in cs && c.1 == x && c.0 in rest
  }

  // Every driver of `rest` must come after another one of `rest`.
  ghost predicate Stuck(cs: seq<Constraint>, rest: set<Name>) {
    forall x {:trigger WaitsFor(cs, x, rest)} :: x in rest ==> WaitsFor(cs, x, rest)
  }

  /** Among stuck drivers, walks of every length lead to any one of them. */
  lemma {:induction false} WalkBackFrom(cs: seq<Constraint>, rest: set<Name>, d: Name, n: nat) returns (w: seq<Name>)
    requires d in rest && Stuck(cs, rest)
    ensures |w| == n + 1 && w[n] == d && Walk(w, cs) && Elements(w) <= rest
    decreases n
  {
    if n == 0 {
      w := [d];
    } else {
      assert WaitsFor(cs, d, rest);
      var c :| c in cs && c.1 == d && c.0 in rest;
      var front := WalkBackFrom(cs, rest, c.0, n - 1);
      w := front + [d];
      assert c == (c.0, c.1);
    }
  }

  lemma {:induction false} WalkPart(cs: seq<Constraint>, w: seq<Name>, i: nat, j: nat)
    requires Walk(w, cs) && i <= j <= |w|
    ensures Walk(w[i..j], cs)
    decreases |w|
  {
    if j < |w| {
      assert w[..|w| - 1][i..j] == w[i..j];
      WalkPart(cs, w[..|w| - 1], i, j);
    } else if j - i >= 2 {
      assert w[..|w| - 1][i..j - 1] == w[i..j][..j - i - 1];
      WalkPart(cs, w[..|w| - 1], i, j - 1);
    }
  }

  lemma {:induction false} RepeatMeansCycle(cs: seq<Constraint>, w: seq<Name>, i: nat, j: nat)
    requires Walk(w, cs) && i < j < |w| && w[i] == w[j]
    ensures HasCycle(cs)
  {
    WalkPart(cs, w, i, j + 1);
    assert IsCycle(w[i..j + 1], cs);
  }

  /** Drivers that all wait for one another contain a cycle. */
  lemma {:induction false} StuckMeansCycle(cs: seq<Constraint>, rest: set<Name>)
    requires rest != {} && Stuck(cs, rest)
    ensures HasCycle(cs)
  {
    var d :| d in rest;
    var w := WalkBackFrom(cs, rest, d, |rest|);
    if Distinct(w) {
      DistinctSize(w);
      SubsetSize(Elements(w), rest);
    } else {
      var i, j :| 0 <= i < j < |w| && w[i] == w[j];
      RepeatMeansCycle(cs, w, i, j);
    }
  }

  // ---------- the solver ----------

  // In-degrees count what is still pending; whatever has nothing pending is ordered or queued, once.
  ghost predicate Progress(ds: seq<Name>, cs: seq<Constraint>, inDegree: map<Name, int>,
                           queue: seq<Name>, ordered: seq<Name>)
  {
    && inDegree.Keys == Elements(ds)
    && Distinct(ordered) && Distinct(queue) && (forall d :: d in queue ==> d !in ordered)
    && (forall d :: d in inDegree ==> inDegree[d] == Pending(cs, Elements(ordered), d))
    && (forall d :: d in ordered || d in queue <==> d in inDegree && inDegree[d] == 0)
    && Respects(ordered, cs)
  }

  /** Taking the head of the queue and releasing its neighbors keeps the solver's progress. */
  lemma {:induction false} ProgressStep(ds: seq<Name>, cs: seq<Constraint>, inDegree: map<Name, int>, queue: seq<Name>,
                     ordered: seq<Name>, inDegree': map<Name, int>, added: seq<Name>)
    requires Progress(ds, cs, inDegree, queue, ordered) && queue != []
    requires inDegree'.Keys == inDegree.Keys && Distinct(added)
    requires forall d :: d in inDegree ==> inDegree'[d] == inDegree[d] - multiset(Neighbors(cs, queue[0]))[d]
    requires forall d :: d in added <==> d in inDegree && inDegree[d] > 0 && inDegree'[d] == 0
    ensures Progress(ds, cs, inDegree', queue[1..] + added, ordered + [queue[0]])
  {
    hide Distinct, Respects, Pending, Neighbors;
    var driver, done := queue[0], Elements(ordered);
    assert driver in queue;
    assert Elements(ordered + [driver]) == done + {driver};
    assert forall d :: d in queue <==> d == driver || d in queue[1..];
    forall d | d in inDegree ensures inDegree'[d] == Pending(cs, done + {driver}, d) {
      PendingFinish(cs, done, driver, d);
    }
    DistinctTail(queue);
    DistinctConcat(queue[1..], added);
    OnlyOne(driver);
    DistinctConcat(ordered, [driver]);
    PendingWitness(cs, done, driver);
    RespectsAppend(ordered, driver, cs);
  }

  lemma {:induction false} OnlyOne(d: Name)
    ensures Distinct([d])
  {
  }

  lemma {:induction false} DistinctTail(queue: seq<Name>)
    requires Distinct(queue) && queue != []
    ensures Distinct(queue[1..]) && queue[0] !in queue[1..]
  {
  }

  lemma {:induction false} DistinctConcat(a: seq<Name>, b: seq<Name>)
    requires Distinct(a) && Distinct(b) && forall d :: d in a ==> d !in b
    ensures Distinct(a + b)
  {
    assert forall i :: 0 <= i < |a| ==> a[i] in a;
    assert forall i :: 0 <= i < |b| ==> b[i] in b;
  }

  lemma {:induction false} RespectsAppend(ordered: seq<Name>, driver: Name, cs: seq<Constraint>)
    requires Respects(ordered, cs) && forall c :: c in cs && c.1 == driver ==> c.0 in ordered
    ensures Respects(ordered + [driver], cs)
  {
    forall c, j | c in cs && 0 <= j < |ordered + [driver]| && (ordered + [driver])[j] == c.1
      ensures c.0 in (ordered + [driver])[..j]
    {
      assert (ordered + [driver])[..j] == if j == |ordered| then ordered else ordered[..j];
    }
  }

  /** The in-degrees are lowered by `nbrs`, and `added` lists once each driver that thereby reached zero. */
  ghost predicate Released(nbrs: seq<Name>, inDegree: map<Name, int>, inDegree': map<Name, int>, added: seq<Name>) {
    && inDegree'.Keys == inDegree.Keys && Distinct(added)
    && (forall d :: d in inDegree ==> inDegree'[d] == inDegree[d] - multiset(nbrs)[d])
    && forall d :: d in added <==> d in inDegree && inDegree[d] > 0 && inDegree'[d] == 0
  }

  lemma {:induction false} ReleasedNone(nbrs: seq<Name>, inDegree: map<Name, int>)
    requires nbrs == []
    ensures Released(nbrs, inDegree, inDegree, [])
  {
  }

  lemma {:induction false} ReleasedOne(nbrs: seq<Name>, i: nat, inDegree: map<Name, int>, inDegree': map<Name, int>,
                                       added: seq<Name>)
    requires i < |nbrs| && nbrs[i] in inDegree && multiset(nbrs)[nbrs[i]] <= inDegree[nbrs[i]]
    requires Released(nbrs[..i], inDegree, inDegree', added)
    ensures var n := nbrs[i];
            && n in inDegree'
            && Released(nbrs[..i + 1], inDegree, inDegree'[n := inDegree'[n] - 1],
                        if inDegree'[n] == 1 then added + [n] else added)
  {
    var n := nbrs[i];
    assert nbrs[..i + 1] == nbrs[..i] + [n];
    PrefixCount(nbrs, i + 1, n);
    DistinctConcat(added, if inDegree'[n] == 1 then [n] else []);
    assert added + [] == added;
    hide Distinct;
  }

  /** The inner loop: lower the in-degree of each neighbor, queueing those that reach zero. */
  method Release(nbrs: seq<Name>, inDegree: map<Name, int>, queue: seq<Name>)
    returns (inDegree': map<Name, int>, queue': seq<Name>, ghost added: seq<Name>)
    requires forall d :: d in nbrs ==> d in inDegree
    requires forall d :: d in inDegree ==> multiset(nbrs)[d] <= inDegree[d]
    ensures Released(nbrs, inDegree, inDegree', added) && queue' == queue + added
  {
    hide Released;
    inDegree', queue', added := inDegree, queue, [];
    ReleasedNone(nbrs[..0], inDegree);
    for i := 0 to |nbrs|
      invariant Released(nbrs[..i], inDegree, inDegree', added) && queue' == queue + added
    {
      var n := nbrs[i];
      assert n in nbrs;
      ReleasedOne(nbrs, i, inDegree, inDegree', added);
      inDegree' := inDegree'[n := inDegree'[n] - 1];
      if inDegree'[n] == 0 {
        queue', added := queue' + [n], added + [n];
      }
    }
    assert nbrs[..|nbrs|] == nbrs;
  }

  lemma {:induction false} PrefixCount(s: seq<Name>, i: nat, d: Name)
    requires i <= |s|
    ensures multiset(s[..i])[d] <= multiset(s)[d]
  {
    assert s == s[..i] + s[i..];
  }

  /** Count the constraints into each driver; the first unknown target is a KeyError. */
  method Tally(ds: seq<Name>, cs: seq<Constraint>)
    returns (graph: map<Name, seq<Name>>, inDegree: map<Name, int>, missing: Result)
    ensures missing.KeyError? || missing.Impossible?
    ensures missing.KeyError? <==> exists c :: c in cs && c.1 !in ds
    ensures !missing.KeyError? ==> inDegree.Keys == Elements(ds)
    ensures !missing.KeyError? ==> forall d :: d in ds ==> inDegree[d] == Pending(cs, {}, d)
    ensures !missing.KeyError? ==>
              forall d :: (if d in graph then graph[d] else []) == Neighbors(cs, d)
  {
    graph := map[];
    inDegree := map d | d in ds :: 0;
    missing := Impossible;
    for i := 0 to |cs|
      invariant forall c :: c in cs[..i] ==> c.1 in ds
      invariant inDegree.Keys == Elements(ds)
      invariant forall d :: d in ds ==> inDegree[d] == Pending(cs[..i], {}, d)
      invariant forall d :: (if d in graph then graph[d] else []) == Neighbors(cs[..i], d)
    {
      var (before, after) := cs[i];
      assert cs[..i + 1][..i] == cs[..i];
      graph := graph[before := (if before in graph then graph[before] else []) + [after]];
      if after !in inDegree {
        missing := KeyError(after);
        assert cs[i] in cs;
        return;
      }
      inDegree := inDegree[after := inDegree[after] + 1];
    }
    assert cs[..|cs|] == cs;
  }

  // A constraint starts at a driver that is not to be loaded.
  ghost predicate HasStranger(ds: seq<Name>, cs: seq<Constraint>) { exists c :: c in cs && c.0 !in ds }

  /** A finished order has every driver, or leaves drivers that wait for one another or for a stranger. */
  lemma {:induction false} Finished(ds: seq<Name>, cs: seq<Constraint>, inDegree: map<Name, int>, ordered: seq<Name>)
    requires Progress(ds, cs, inDegree, [], ordered) && Distinct(ds)
    requires forall c :: c in cs ==> c.1 in ds
    ensures |ordered| == |ds| ==> multiset(ordered) == multiset(ds) && !HasCycle(cs) && !HasStranger(ds, cs)
    ensures |ordered| != |ds| ==> HasCycle(cs) || HasStranger(ds, cs)
  {
    DistinctSize(ordered);
    DistinctSize(ds);
    SubsetSize(Elements(ordered), Elements(ds));
    if |ordered| == |ds| {
      assert forall d :: d in ordered <==> d in Elements(ds);
      SamePermutation(ordered, ds);
      OrderExcludesCycle(ordered, cs);
      forall c | c in cs ensures c.0 in ds {
        var j :| 0 <= j < |ordered| && ordered[j] == c.1;
        assert c.0 in ordered[..j];
      }
    } else if !HasStranger(ds, cs) {
      var rest := Elements(ds) - Elements(ordered);
      assert rest + Elements(ordered) == Elements(ds);
      forall d | d in rest ensures WaitsFor(cs, d, rest) {
        PendingWitness(cs, Elements(ordered), d);
      }
      StuckMeansCycle(cs, rest);
    }
  }

  lemma {:induction false} SamePermutation(a: seq<Name>, b: seq<Name>)
    requires Distinct(a) && Distinct(b) && forall d :: d in a <==> d in b
    ensures multiset(a) == multiset(b)
  {
    forall d ensures multiset(a)[d] == multiset(b)[d] {
      DistinctOnce(a, d);
      DistinctOnce(b, d);
    }
  }

  lemma {:induction false} DistinctOnce(s: seq<Name>, d: Name)
    requires Distinct(s)
    ensures multiset(s)[d] == if d in s then 1 else 0
  {
    if s != [] {
      assert s == s[..|s| - 1] + [s[|s| - 1]];
      DistinctOnce(s[..|s| - 1], d);
    }
  }

  /** The drivers whose in-degree is zero, in the given order. */
  method Unconstrained(ds: seq<Name>, inDegree: map<Name, int>) returns (queue: seq<Name>)
    requires Distinct(ds) && forall d :: d in ds ==> d in inDegree
    ensures Distinct(queue) && forall d :: d in queue <==> d in ds && inDegree[d] == 0
  {
    queue := [];
    for i := 0 to |ds|
      invariant Distinct(queue)
      invariant forall d :: d in queue <==> d in ds[..i] && inDegree[d] == 0
    {
      if inDegree[ds[i]] == 0 { queue := queue + [ds[i]]; }
    }
    assert ds[..|ds|] == ds;
  }

  /** solve_driver_constraints on distinct file names.  The result is a permutation of the drivers that
      respects every constraint, and there is one exactly when the constraints have no cycle and start at
      known drivers only. */
  method Solve(ds: seq<Name>, cs: seq<Constraint>) returns (r: Result)
    requires Distinct(ds)
    ensures r.KeyError? <==> exists c :: c in cs && c.1 !in ds
    ensures r.Solved? ==> multiset(r.order) == multiset(ds) && Respects(r.order, cs)
    ensures !r.KeyError? ==> (r.Impossible? <==> HasCycle(cs) || HasStranger(ds, cs))
  {
    var graph, inDegree, missing := Tally(ds, cs);
    if missing.KeyError? { return missing; }
    var queue := Unconstrained(ds, inDegree);
    var ordered: seq<Name> := [];
    assert Elements(ordered) == {};
    while queue != []
      invariant Progress(ds, cs, inDegree, queue, ordered)
      decreases Pool(ds, ordered)
    {
      var driver := queue[0];
      var nbrs := if driver in graph then graph[driver] else [];
      NeighborsBounded(ds, cs, inDegree, ordered, queue);
      var inDegree', queue', added := Release(nbrs, inDegree, queue[1..]);
      ProgressStep(ds, cs, inDegree, queue, ordered, inDegree', added);
      PoolShrinks(ds, ordered, driver);
      inDegree, queue, ordered := inDegree', queue', ordered + [driver];
    }
    Finished(ds, cs, inDegree, ordered);
    if |ordered| != |ds| { return Impossible; }
    return Solved(ordered);
  }

  ghost function Pool(ds: seq<Name>, ordered: seq<Name>): nat { |Elements(ds) - Elements(ordered)| }

  lemma {:induction false} PoolShrinks(ds: seq<Name>, ordered: seq<Name>, driver: Name)
    requires driver !in ordered && driver in ds
    ensures Pool(ds, ordered + [driver]) < Pool(ds, ordered)
  {
    assert Elements(ds) - Elements(ordered + [driver]) == (Elements(ds) - Elements(ordered)) - {driver};
  }

  /** The head of the queue still accounts for every constraint that starts at it. */
  lemma {:induction false} NeighborsBounded(ds: seq<Name>, cs: seq<Constraint>, inDegree: map<Name, int>,
                         ordered: seq<Name>, queue: seq<Name>)
    requires Progress(ds, cs, inDegree, queue, ordered) && queue != []
    requires forall c :: c in cs ==> c.1 in ds
    ensures forall d :: d in Neighbors(cs, queue[0]) ==> d in inDegree
    ensures forall d :: d in inDegree ==> multiset(Neighbors(cs, queue[0]))[d] <= inDegree[d]
    ensures queue[0] in ds
  {
    assert queue[0] in queue;
    NeighborsKnown(cs, queue[0]);
    forall d | d in inDegree ensures multiset(Neighbors(cs, queue[0]))[d] <= inDegree[d] {
      PendingFinish(cs, Elements(ordered), queue[0], d);
    }
  }

  lemma {:induction false} NeighborsKnown(cs: seq<Constraint>, d: Name)
    ensures forall n :: n in Neighbors(cs, d) ==> exists c :: c in cs && c.1 == n
  {
    if cs != [] {
      NeighborsKnown(cs[..|cs| - 1], d);
      assert cs == cs[..|cs| - 1] + [cs[|cs| - 1]];
      assert cs[|cs| - 1] in cs;
    }
  }
}
