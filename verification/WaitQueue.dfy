/** The wait queue of `hexahedron/misc/waitqueue.c`: its singly linked list, and the
handshake between waiters and wakers as a step machine. */

/** The list: `head`, `tail` and the nodes' `next` fields, changed in place. */
module WaitQueueList {

  class WaitNode {
    var next: WaitNode?

    constructor () { next := null; }
  }

  class WaitQueue {
    var head: WaitNode?
    var tail: WaitNode?
    ghost var q: seq<WaitNode>  // the nodes in queue order

    ghost predicate Valid()
      reads this, q
    {
      && (forall i, j :: 0 <= i < j < |q| ==> q[i] != q[j])
      && (forall i {:trigger q[i].next} :: 0 <= i < |q| - 1 ==> q[i].next == q[i + 1])
      && (q != [] ==> q[|q| - 1].next == null)
      && head == (if q == [] then null else q[0])
      && tail == (if q == [] then null else q[|q| - 1])
    }

    constructor ()
      ensures Valid() && q == []
    {
      head, tail, q := null, null, [];
    }

    /** waitqueue_add: append the node. */
    method Add(n: WaitNode)
      requires Valid() && n !in q
      modifies this, q, n
      ensures Valid() && q == old(q) + [n]
    {
      n.next := null;
      if tail == null {
        head := n;
        tail := n;
      } else {
        tail.next := n;
        tail := n;
        n.next := null;
      }
      q := q + [n];
    }

    /** waitqueue_remove: unlink the node wherever it is; the caller must have added it. */
    method Remove(n: WaitNode) returns (ghost k: nat)
      requires Valid() && n in q
      modifies this, q
      ensures Valid() && k < |old(q)| && old(q)[k] == n && q == old(q)[..k] + old(q)[k + 1..]
    {
      k :| 0 <= k < |q| && q[k] == n;
      var iter := head;
      if iter == n {
        assert k == 0;
        RemoveFirst(n);
        assert old(q)[..0] + old(q)[1..] == q;
      } else {
        ghost var i := 0;
        while iter != null
          invariant 0 <= i < k && iter == q[i]
          decreases k - i
        {
          if iter.next == n { break; }
          iter := iter.next;
          i := i + 1;
        }
        assert q[i + 1] == n && i + 1 == k;
        RemoveAfter(iter, n, k);
      }
    }

    method RemoveFirst(n: WaitNode)
      requires Valid() && q != [] && q[0] == n
      modifies this
      ensures Valid() && q == old(q)[1..]
    {
      head := n.next;
      if n == tail { tail := n.next; }
      q := q[1..];
    }

    method RemoveAfter(iter: WaitNode, n: WaitNode, ghost k: nat)
      requires Valid() && 0 < k < |q| && q[k - 1] == iter && q[k] == n
      modifies this, iter
      ensures Valid() && q == old(q)[..k] + old(q)[k + 1..]
    {
      iter.next := n.next;
      if n == tail { tail := iter; }
      ghost var rest := q[..k] + q[k + 1..];
      assert forall j :: 0 <= j < |rest| ==> rest[j] == if j < k then q[j] else q[j + 1];
      q := rest;
    }
  }
}

/** The handshake.  Waiters and wakers take atomic steps in any order; the queue's
spinlock `lck` guards the list and the wakers, but not a waiter's way into and out
of sleep.  A wakeup delivered after the prepare call makes the sleeper return. */
module WaitQueueProtocol {

  datatype NodePc =
    | Out        // not in the queue
    | Ready      // waitqueue_add: fields set, wake lock taken
    | Added      // in the queue
    | Prepared   // waitqueue_wait: sleep_prepare done
    | Checking   // holds lck, about to load ready
    | Releasing  // holds lck, wake lock released
    | Asleep
    | Woken      // sleep_enter returned, about to retake the wake lock
    | Finished   // in the queue, waitqueue_wait has returned

  datatype Node = Node(pc: NodePc, wakeLock: bool, ready: bool, wake: bool)

  /** A waker at queue position `i`.  `limit` is the number of threads it may wake (no limit if negative);
      `snap` remembers the ready flags it found when it took the lock and is never
      read by a step. */
  datatype WakerPc =
    | Idle
    | Scan(i: nat, limit: int, awoken: nat, snap: seq<bool>)
    | TryWake(i: nat, limit: int, awoken: nat, snap: seq<bool>)
    | Waking(i: nat, limit: int, awoken: nat, snap: seq<bool>)

  datatype Lock = Free | ByWaiter(n: nat) | ByWaker(k: nat)

  datatype State = State(lck: Lock, queue: seq<nat>, nodes: seq<Node>, wakers: seq<WakerPc>)

  // ---------- steps ----------

  function SetNode(s: State, n: nat, x: Node): State
    requires n < |s.nodes|
  {
    s.(nodes := s.nodes[n := x])
  }

  /** A step of node `n`'s thread on its own fields and the lock. */
  predicate NodeMove(n: nat, x: Node, lck: Lock, x': Node, lck': Lock) {
    match x.pc
    case Out => x' == Node(Ready, true, false, false) && lck' == lck
    case Ready => false
    case Added => x' == x.(pc := Prepared) && lck' == lck
    case Prepared => lck.Free? && x' == x.(pc := Checking) && lck' == ByWaiter(n)
    case Checking =>
      if x.ready then x' == x.(pc := Finished) && lck' == Free
      else x' == x.(pc := Releasing, wakeLock := false) && lck' == lck
    case Releasing => x' == x.(pc := Asleep) && lck' == Free
    case Asleep => x' == x.(pc := Woken) && lck' == lck  // by a wakeup, a timeout or a signal
    case Woken => x' == x.(pc := Finished, wakeLock := true) && lck' == lck
    case Finished => false
  }

  predicate WaiterStep(s: State, n: nat, s': State) {
    && n < |s.nodes| == |s'.nodes|
    && NodeMove(n, s.nodes[n], s.lck, s'.nodes[n], s'.lck)
    && s' == SetNode(s, n, s'.nodes[n]).(lck := s'.lck)
  }

  /** waitqueue_add appends its initialized node under the lock. */
  predicate Enqueue(s: State, n: nat, s': State) {
    && n < |s.nodes| && s.nodes[n].pc.Ready? && s.lck.Free?
    && s' == SetNode(s, n, s.nodes[n].(pc := Added)).(queue := s.queue + [n])
  }

  /** waitqueue_remove, before waiting or after it. */
  predicate Dequeue(s: State, i: nat, s': State) {
    && i < |s.queue| && s.queue[i] < |s.nodes| && s.lck.Free?
    && (s.nodes[s.queue[i]].pc.Added? || s.nodes[s.queue[i]].pc.Finished?)
    && s' == SetNode(s, s.queue[i], s.nodes[s.queue[i]].(pc := Out)).(queue := s.queue[..i] + s.queue[i + 1..])
  }

  predicate QueueInRange(s: State) { forall i :: 0 <= i < |s.queue| ==> s.queue[i] < |s.nodes| }

  function Flags(s: State): (fs: seq<bool>)
    requires QueueInRange(s)
    ensures |fs| == |s.queue|
  {
    seq(|s.queue|, i requires 0 <= i < |s.queue| => s.nodes[s.queue[i]].ready)
  }

  /** waitqueue_wakeup takes the lock; nthreads 0 stands for INT_MAX, and a negative one never counts down to 0. */
  predicate Begin(s: State, k: nat, nthreads: int, s': State) {
    && k < |s.wakers| && s.wakers[k].Idle? && s.lck.Free? && QueueInRange(s)
    && s' == s.(lck := ByWaker(k),
                wakers := s.wakers[k := Scan(0, if nthreads == 0 then 0x7FFF_FFFF else nthreads, 0, Flags(s))])
  }

  // The waker holds the lock and stands at a queue element.
  predicate AtNode(s: State) {
    && s.lck.ByWaker? && s.lck.k < |s.wakers| && !s.wakers[s.lck.k].Idle?
    && s.wakers[s.lck.k].i < |s.queue| && s.queue[s.wakers[s.lck.k].i] < |s.nodes|
  }

  /** Exchange the node's ready flag with true. */
  predicate Exchange(s: State, s': State) {
    AtNode(s) &&
    var pc := s.wakers[s.lck.k];
    var n := s.queue[pc.i];
    && pc.Scan? && pc.awoken != pc.limit
    && s' == SetNode(s, n, s.nodes[n].(ready := true)).(wakers := s.wakers[s.lck.k :=
         TryWake(pc.i, pc.limit, if s.nodes[n].ready then pc.awoken else pc.awoken + 1, pc.snap)])
  }

  /** Test-and-set the node's wake lock. */
  predicate TestAndSet(s: State, s': State) {
    AtNode(s) &&
    var pc := s.wakers[s.lck.k];
    var n := s.queue[pc.i];
    && pc.TryWake?
    && if s.nodes[n].wakeLock
       then s' == s.(wakers := s.wakers[s.lck.k := Scan(pc.i + 1, pc.limit, pc.awoken, pc.snap)])
       else s' == SetNode(s, n, s.nodes[n].(wakeLock := true)).(wakers :=
              s.wakers[s.lck.k := Waking(pc.i, pc.limit, pc.awoken, pc.snap)])
  }

  predicate Deliver(s: State, s': State) {
    AtNode(s) &&
    var pc := s.wakers[s.lck.k];
    var n := s.queue[pc.i];
    && pc.Waking?
    && s' == SetNode(s, n, s.nodes[n].(wake := true)).(wakers :=
         s.wakers[s.lck.k := Scan(pc.i + 1, pc.limit, pc.awoken, pc.snap)])
  }

  predicate End(s: State, s': State) {
    && s.lck.ByWaker? && s.lck.k < |s.wakers| && s.wakers[s.lck.k].Scan?
    && (s.wakers[s.lck.k].awoken == s.wakers[s.lck.k].limit || s.wakers[s.lck.k].i >= |s.queue|)
    && s' == s.(lck := Free, wakers := s.wakers[s.lck.k := Idle])
  }

  ghost predicate Next(s: State, s': State) {
    || (exists n: nat :: WaiterStep(s, n, s'))
    || (exists n: nat :: Enqueue(s, n, s'))
    || (exists i: nat :: Dequeue(s, i, s'))
    || (exists k: nat, nthreads: int :: Begin(s, k, nthreads, s'))
    || Exchange(s, s') || TestAndSet(s, s') || Deliver(s, s') || End(s, s')
  }

  predicate Init(s: State) {
    && s.lck.Free? && s.queue == []
    && (forall n :: 0 <= n < |s.nodes| ==> s.nodes[n] == Node(Out, false, false, false))
    && (forall k :: 0 <= k < |s.wakers| ==> s.wakers[k] == Idle)
  }

  ghost predicate Run(tr: seq<State>) {
    |tr| > 0 && Init(tr[0]) && forall i :: 0 <= i < |tr| - 1 ==> Next(tr[i], tr[i + 1])
  }

  ghost predicate Reachable(s: State) {
    exists tr: seq<State> :: Run(tr) && tr[|tr| - 1] == s
  }

  // ---------- invariant ----------

  predicate Queued(pc: NodePc) { !pc.Out? && !pc.Ready? }

  // The queue holds each queued node once; the lock's owner is where the lock says.
  ghost predicate Shape(s: State) {
    && QueueInRange(s)
    && (forall i, j :: 0 <= i < j < |s.queue| ==> s.queue[i] != s.queue[j])
    && (forall n :: 0 <= n < |s.nodes| ==> (Queued(s.nodes[n].pc) <==> n in s.queue))
    && (forall n :: 0 <= n < |s.nodes| ==>
          (s.nodes[n].pc.Checking? || s.nodes[n].pc.Releasing? <==> s.lck == ByWaiter(n)))
    && (forall k :: 0 <= k < |s.wakers| ==> (!s.wakers[k].Idle? <==> s.lck == ByWaker(k)))
    && (s.lck.ByWaker? ==> s.lck.k < |s.wakers|)
    && (s.lck.ByWaiter? ==> s.lck.n < |s.nodes|)
  }

  predicate Trying(s: State, n: nat) {
    AtNode(s) && s.wakers[s.lck.k].TryWake? && s.queue[s.wakers[s.lck.k].i] == n
  }

  predicate IsWaking(s: State, n: nat) {
    AtNode(s) && s.wakers[s.lck.k].Waking? && s.queue[s.wakers[s.lck.k].i] == n
  }

  predicate Handshake(s: State, n: nat)
    requires n < |s.nodes|
  {
    var x := s.nodes[n];
    && (x.pc.Ready? || x.pc.Added? || x.pc.Prepared? || x.pc.Checking? ==> x.wakeLock && !x.wake && !IsWaking(s, n))
    && (x.pc.Releasing? ==> !x.wakeLock && !x.ready)
    && (x.pc.Asleep? && x.wakeLock ==> x.wake || IsWaking(s, n))
    && (x.pc.Asleep? && x.ready && !x.wakeLock ==> Trying(s, n))
  }

  function CountClear(fs: seq<bool>): nat {
    if fs == [] then 0 else CountClear(fs[..|fs| - 1]) + if fs[|fs| - 1] then 0 else 1
  }

  // How far the waker has exchanged flags.
  function Visited(pc: WakerPc): nat
    requires !pc.Idle?
  {
    if pc.Scan? then pc.i else pc.i + 1
  }

  // Whether a waker that woke `awoken` threads may go on.
  predicate MayWake(limit: int, awoken: nat) { limit < 0 || awoken < limit }

  // The waker's progress: every visited flag is set, the others are as it found them.
  predicate WakerOk(s: State)
    requires QueueInRange(s)
  {
    s.lck.ByWaker? && s.lck.k < |s.wakers| && !s.wakers[s.lck.k].Idle? ==>
      var pc := s.wakers[s.lck.k];
      && |pc.snap| == |s.queue| && Visited(pc) <= |s.queue|
      && pc.awoken == CountClear(pc.snap[..Visited(pc)]) && (pc.limit >= 0 ==> pc.awoken <= pc.limit)
      && (forall j :: 0 <= j < Visited(pc) ==> s.nodes[s.queue[j]].ready && MayWake(pc.limit, CountClear(pc.snap[..j])))
      && (forall j :: Visited(pc) <= j < |s.queue| ==> s.nodes[s.queue[j]].ready == pc.snap[j])
  }

  ghost predicate Inv(s: State) {
    && Shape(s) && WakerOk(s)
    && forall n :: 0 <= n < |s.nodes| ==> Handshake(s, n)
  }

  // ---------- preservation ----------

  lemma {:induction false} WaiterStepKeepsShape(s: State, n: nat, s': State)
    requires Shape(s) && WaiterStep(s, n, s')
    ensures Shape(s')
    ensures s.lck.ByWaker? || s'.lck.ByWaker? ==> s'.lck == s.lck
  {
    var x, x' := s.nodes[n], s'.nodes[n];
    assert Queued(x'.pc) <==> Queued(x.pc);
    assert (x'.pc.Checking? || x'.pc.Releasing?) <==> s'.lck == ByWaiter(n);
    assert s.lck == s'.lck || s.lck.Free? || s.lck == ByWaiter(n);
  }

  lemma {:induction false} WaiterStepKeepsInv(s: State, n: nat, s': State)
    requires Inv(s) && WaiterStep(s, n, s')
    ensures Inv(s')
  {
    WaiterStepKeepsShape(s, n, s');
    forall m | 0 <= m < |s'.nodes| ensures Handshake(s', m) {
      assert Handshake(s, m);
      assert Trying(s', m) == Trying(s, m) && IsWaking(s', m) == IsWaking(s, m);
    }
    assert s.nodes[n].ready == s'.nodes[n].ready || n !in s.queue;
    assert WakerOk(s');
  }

  lemma {:induction false} EnqueueKeepsInv(s: State, n: nat, s': State)
    requires Inv(s) && Enqueue(s, n, s')
    ensures Inv(s')
  {
    forall m | 0 <= m < |s'.nodes| ensures Handshake(s', m) { assert Handshake(s, m); }
  }

  lemma {:induction false} DequeueKeepsInv(s: State, i: nat, s': State)
    requires Inv(s) && Dequeue(s, i, s')
    ensures Inv(s')
  {
    forall m | 0 <= m < |s'.nodes|
      ensures Handshake(s', m) && (Queued(s'.nodes[m].pc) <==> m in s'.queue)
    {
      assert Handshake(s, m);
      if m in s.queue && m != s.queue[i] {
        var j :| 0 <= j < |s.queue| && s.queue[j] == m;
        assert s'.queue[if j < i then j else j - 1] == m;
      }
    }
  }

  lemma {:induction false} BeginKeepsInv(s: State, k: nat, nthreads: int, s': State)
    requires Inv(s) && Begin(s, k, nthreads, s')
    ensures Inv(s')
  {
    forall m | 0 <= m < |s'.nodes| ensures Handshake(s', m) { assert Handshake(s, m); }
  }

  lemma {:induction false} ExchangeKeepsInv(s: State, s': State)
    requires Inv(s) && Exchange(s, s')
    ensures Inv(s')
  {
    ExchangeShape(s, s');
    ExchangeWaker(s, s');
    hide Shape, WakerOk;
    forall m | 0 <= m < |s'.nodes| ensures Handshake(s', m) { assert Handshake(s, m); }
  }

  lemma {:induction false} ExchangeShape(s: State, s': State)
    requires Shape(s) && Exchange(s, s')
    ensures Shape(s')
  {
  }

  lemma {:induction false} ExchangeWaker(s: State, s': State)
    requires Shape(s) && WakerOk(s) && Exchange(s, s')
    ensures QueueInRange(s') && WakerOk(s')
  {
    hide CountClear;
    var pc := s.wakers[s.lck.k];
    CountOneMore(pc.snap, pc.i);
    forall j | 0 <= j <= pc.i
      ensures s'.nodes[s'.queue[j]].ready && MayWake(pc.limit, CountClear(pc.snap[..j]))
    {
      assert j == pc.i || s.nodes[s.queue[j]].ready;
    }
    forall j | pc.i < j < |s.queue| ensures s'.nodes[s'.queue[j]].ready == pc.snap[j] {
      assert s.queue[j] != s.queue[pc.i] && s.nodes[s.queue[j]].ready == pc.snap[j];
    }
  }

  lemma {:induction false} CountOneMore(fs: seq<bool>, i: nat)
    requires i < |fs|
    ensures CountClear(fs[..i + 1]) == CountClear(fs[..i]) + if fs[i] then 0 else 1
  {
    assert fs[..i + 1][..i] == fs[..i];
  }

  lemma {:induction false} TestAndSetKeepsInv(s: State, s': State)
    requires Inv(s) && TestAndSet(s, s')
    ensures Inv(s')
  {
    forall m | 0 <= m < |s'.nodes| ensures Handshake(s', m) { assert Handshake(s, m); }
  }

  lemma {:induction false} DeliverKeepsInv(s: State, s': State)
    requires Inv(s) && Deliver(s, s')
    ensures Inv(s')
  {
    forall m | 0 <= m < |s'.nodes| ensures Handshake(s', m) { assert Handshake(s, m); }
  }

  lemma {:induction false} EndKeepsInv(s: State, s': State)
    requires Inv(s) && End(s, s')
    ensures Inv(s')
  {
    forall m | 0 <= m < |s'.nodes| ensures Handshake(s', m) { assert Handshake(s, m); }
  }

  lemma {:induction false} RunKeepsInv(tr: seq<State>)
    requires Run(tr)
    ensures Inv(tr[|tr| - 1])
  {
    if |tr| > 1 {
      var s, s' := tr[|tr| - 2], tr[|tr| - 1];
      RunKeepsInv(tr[..|tr| - 1]);
      assert Next(s, s');
      if n: nat :| WaiterStep(s, n, s') { WaiterStepKeepsInv(s, n, s'); }
      else if n: nat :| Enqueue(s, n, s') { EnqueueKeepsInv(s, n, s'); }
      else if i: nat :| Dequeue(s, i, s') { DequeueKeepsInv(s, i, s'); }
      else if k: nat, nthreads: int :| Begin(s, k, nthreads, s') { BeginKeepsInv(s, k, nthreads, s'); }
      else if Exchange(s, s') { ExchangeKeepsInv(s, s'); }
      else if TestAndSet(s, s') { TestAndSetKeepsInv(s, s'); }
      else if Deliver(s, s') { DeliverKeepsInv(s, s'); }
      else { EndKeepsInv(s, s'); }
    }
  }

  // ---------- main results ----------

  /** No wakeup is lost: a sleeper whose ready flag is set has its wakeup delivered, or
      the waker that holds the queue lock is committed to delivering it; with the lock
      free it is always delivered. */
  lemma {:induction false} NoLostWakeup(s: State, n: nat)
    requires Reachable(s) && n < |s.nodes| && s.nodes[n].pc.Asleep? && s.nodes[n].ready
    ensures s.nodes[n].wake || IsWaking(s, n) || (Trying(s, n) && !s.nodes[n].wakeLock)
    ensures !s.lck.ByWaker? ==> s.nodes[n].wake
  {
    var tr: seq<State> :| Run(tr) && tr[|tr| - 1] == s;
    RunKeepsInv(tr);
    assert Handshake(s, n);
  }

  lemma {:induction false} CountClearMonotone(fs: seq<bool>, i: nat, j: nat)
    requires i <= j <= |fs|
    ensures CountClear(fs[..i]) <= CountClear(fs[..j])
  {
    if i < j {
      CountClearMonotone(fs, i, j - 1);
      assert fs[..j][..j - 1] == fs[..j - 1];
    }
  }

  /** A finished wakeup call has readied, in queue order, exactly the first `limit` nodes
      that were not ready when it took the lock, or all of them when `limit` is negative, and
      returns how many those were. */
  lemma {:induction false} WakeupIsFifo(s: State, s': State)
    requires Reachable(s) && End(s, s')
    ensures var pc := s.wakers[s.lck.k];
            && |pc.snap| == |s'.queue| && QueueInRange(s')
            && (forall j :: 0 <= j < |s'.queue| ==>
                  (s'.nodes[s'.queue[j]].ready <==> pc.snap[j] || MayWake(pc.limit, CountClear(pc.snap[..j]))))
            && pc.awoken == if pc.limit < 0 || CountClear(pc.snap) <= pc.limit then CountClear(pc.snap) else pc.limit
  {
    hide Reachable, CountClear;
    ReachableWaker(s);
    var pc := s.wakers[s.lck.k];
    CountedAtEnd(pc);
    forall j | 0 <= j < |s.queue|
      ensures s.nodes[s.queue[j]].ready <==> pc.snap[j] || MayWake(pc.limit, CountClear(pc.snap[..j]))
    {
      if j >= pc.i { CountClearMonotone(pc.snap, pc.i, j); }
    }
  }

  lemma {:induction false} ReachableWaker(s: State)
    requires Reachable(s)
    ensures QueueInRange(s) && WakerOk(s)
  {
    var tr: seq<State> :| Run(tr) && tr[|tr| - 1] == s;
    RunKeepsInv(tr);
  }

  // A waker that is done woke as many as it may of those it found.
  lemma {:induction false} CountedAtEnd(pc: WakerPc)
    requires pc.Scan? && pc.i <= |pc.snap| && pc.awoken == CountClear(pc.snap[..pc.i])
    requires pc.limit >= 0 ==> pc.awoken <= pc.limit
    requires pc.awoken == pc.limit || pc.i == |pc.snap|
    ensures pc.awoken == if pc.limit < 0 || CountClear(pc.snap) <= pc.limit then CountClear(pc.snap) else pc.limit
  {
    hide CountClear;
    CountClearMonotone(pc.snap, pc.i, |pc.snap|);
    assert pc.snap[..|pc.snap|] == pc.snap;
  }

  // ---------- a whole wakeup call ----------

  /** How many of the first `j` queued nodes are not ready. */
  function Unready(s: State, j: nat): nat
    requires QueueInRange(s) && j <= |s.queue|
  {
    if j == 0 then 0 else Unready(s, j - 1) + if s.nodes[s.queue[j - 1]].ready then 0 else 1
  }

  // Waker `k`, which took the lock in `s0` to wake `nthreads`, still holds it in `s`.
  ghost predicate InCall(s0: State, k: nat, nthreads: int, s: State)
    requires QueueInRange(s0)
  {
    && s.lck == ByWaker(k) && k < |s.wakers| && !s.wakers[k].Idle? && s.queue == s0.queue
    && s.wakers[k].limit == (if nthreads == 0 then 0x7FFF_FFFF else nthreads)
    && |s.wakers[k].snap| == |s0.queue|
    && forall j :: 0 <= j < |s0.queue| ==> s.wakers[k].snap[j] == s0.nodes[s0.queue[j]].ready
  }

  lemma {:induction false} CallGoesOn(s0: State, k: nat, nthreads: int, s: State, s': State)
    requires QueueInRange(s0) && InCall(s0, k, nthreads, s) && Shape(s) && Next(s, s') && !End(s, s')
    ensures InCall(s0, k, nthreads, s')
  {
  }

  lemma {:induction false} CallAt(tr: seq<State>, a: nat, n: nat, k: nat, nthreads: int)
    requires Run(tr) && a < n < |tr| && Begin(tr[a], k, nthreads, tr[a + 1])
    requires forall x :: a < x < n ==> !End(tr[x], tr[x + 1])
    ensures QueueInRange(tr[a]) && InCall(tr[a], k, nthreads, tr[n])
    decreases n
  {
    hide Run, Begin, InCall, Next, End, Shape, QueueInRange;
    if n == a + 1 {
      CallBegins(tr[a], k, nthreads, tr[n]);
    } else {
      CallAt(tr, a, n - 1, k, nthreads);
      StepOfRun(tr, n);
      CallGoesOn(tr[a], k, nthreads, tr[n - 1], tr[n]);
    }
  }

  lemma {:induction false} CallBegins(s: State, k: nat, nthreads: int, s': State)
    requires Begin(s, k, nthreads, s')
    ensures QueueInRange(s) && InCall(s, k, nthreads, s')
  {
  }

  // The step that leads to the `n`-th state of a run.
  lemma {:induction false} StepOfRun(tr: seq<State>, n: nat)
    requires Run(tr) && 0 < n < |tr|
    ensures Inv(tr[n - 1]) && Shape(tr[n - 1]) && Next(tr[n - 1], tr[n])
  {
    hide Init, Next, Handshake, WakerOk, Shape;
    var front := tr[..n];
    assert forall i :: 0 <= i < n - 1 ==> Next(tr[i], tr[i + 1]);
    RunKeepsInv(front);
    assert front[|front| - 1] == tr[n - 1] && Next(tr[n - 1], tr[n - 1 + 1]);
  }

  lemma {:induction false} SnapCounts(s0: State, snap: seq<bool>, j: nat)
    requires QueueInRange(s0) && |snap| == |s0.queue| && j <= |snap|
    requires forall i :: 0 <= i < |snap| ==> snap[i] == s0.nodes[s0.queue[i]].ready
    ensures CountClear(snap[..j]) == Unready(s0, j)
  {
    if j > 0 {
      SnapCounts(s0, snap, j - 1);
      assert snap[..j][..j - 1] == snap[..j - 1];
    }
  }

  lemma {:induction false} RunPrefix(tr: seq<State>, n: nat)
    requires Run(tr) && n < |tr|
    ensures Reachable(tr[n])
  {
    var front := tr[..n + 1];
    assert Run(front) && front[|front| - 1] == tr[n];
  }

  /** A whole call of waitqueue_wakeup in any run, from the state in which it takes the lock to the one in which
      it releases it.  Of the nodes queued and not ready at the start exactly the first `nthreads` become ready
      when that is positive, the first 2^31 - 1 when it is 0, and all when it is negative; the call returns how
      many those are; and the queue is as it was. */
  lemma {:induction false} WakeupCall(tr: seq<State>, a: nat, b: nat, k: nat, nthreads: int)
    requires Run(tr) && a < b < |tr| - 1
    requires Begin(tr[a], k, nthreads, tr[a + 1]) && End(tr[b], tr[b + 1])
    requires forall x :: a < x < b ==> !End(tr[x], tr[x + 1])
    ensures QueueInRange(tr[a]) && tr[b + 1].queue == tr[a].queue && QueueInRange(tr[b + 1])
    ensures forall j :: 0 <= j < |tr[a].queue| ==>
              (tr[b + 1].nodes[tr[a].queue[j]].ready <==>
                 || tr[a].nodes[tr[a].queue[j]].ready
                 || (nthreads > 0 && Unready(tr[a], j) < nthreads)
                 || (nthreads == 0 && Unready(tr[a], j) < 0x7FFF_FFFF)
                 || nthreads < 0)
    ensures var all := Unready(tr[a], |tr[a].queue|);
            tr[b].lck == ByWaker(k) && k < |tr[b].wakers| && !tr[b].wakers[k].Idle? &&
            tr[b].wakers[k].awoken ==
            if nthreads > 0 && all > nthreads then nthreads
            else if nthreads == 0 && all > 0x7FFF_FFFF then 0x7FFF_FFFF else all
  {
    var s0, s, s' := tr[a], tr[b], tr[b + 1];
    RunPrefix(tr, b);
    CallAt(tr, a, b, k, nthreads);
    hide Run, Reachable, Unready, CountClear;
    WakeupIsFifo(s, s');
    var pc := s.wakers[k];
    forall j | 0 <= j <= |s0.queue| ensures CountClear(pc.snap[..j]) == Unready(s0, j) { SnapCounts(s0, pc.snap, j); }
    assert pc.snap[..|s0.queue|] == pc.snap;
  }

  /** A node is initialized not ready, and becomes ready only by a waker that holds the lock and stands at it. */
  lemma {:induction false} ReadyByWaker(s: State, s': State, n: nat)
    requires Next(s, s') && n < |s.nodes|
    ensures |s'.nodes| == |s.nodes|
    ensures s'.nodes[n].ready && !s.nodes[n].ready ==>
              AtNode(s) && s.queue[s.wakers[s.lck.k].i] == n && s.wakers[s.lck.k].Scan?
    ensures !s'.nodes[n].ready && s.nodes[n].ready ==> s.nodes[n].pc.Out?
    ensures s'.nodes[n].pc.Ready? && s.nodes[n].pc.Out? ==> !s'.nodes[n].ready && s'.nodes[n].wakeLock
  {
  }

  /** waitqueue_wait returns without sleeping exactly when it finds its node ready, under the queue's lock. */
  lemma {:induction false} WaitsUntilReady(s: State, n: nat, s': State)
    requires Inv(s) && WaiterStep(s, n, s')
    ensures s.nodes[n].pc.Checking? ==>
              s.lck == ByWaiter(n) && (s'.nodes[n].pc.Finished? <==> s.nodes[n].ready) &&
              (s'.nodes[n].pc.Releasing? <==> !s.nodes[n].ready)
    ensures s'.nodes[n].pc.Asleep? ==> s.nodes[n].pc.Releasing? && !s.nodes[n].ready && s.lck == ByWaiter(n)
  {
    hide WakerOk;
    assert Handshake(s, n);
  }

  // ---------- who comes first ----------

  predicate Ahead(s: State, n: nat, m: nat) {
    exists i, j :: 0 <= i < j < |s.queue| && s.queue[i] == n && s.queue[j] == m
  }

  /** A node that is added stands behind every node already queued, and none overtakes another. */
  lemma {:induction false} NoneOvertakes(s: State, s': State, n: nat, m: nat)
    requires Inv(s) && Next(s, s') && n in s'.queue && m in s'.queue && n in s.queue
    ensures m !in s.queue ==> Ahead(s', n, m)
    ensures Ahead(s, n, m) ==> Ahead(s', n, m)
  {
    hide Handshake, WakerOk, Ahead;
    if i: nat :| Dequeue(s, i, s') {
      DequeueKeepsOrder(s, i, s', n, m);
    } else if v: nat :| Enqueue(s, v, s') {
      EnqueueKeepsOrder(s, v, s', n, m);
    } else {
      assert s'.queue == s.queue;
      SameOrder(s, s', n, m);
    }
  }

  lemma {:induction false} SameOrder(s: State, s': State, n: nat, m: nat)
    requires s'.queue == s.queue
    ensures Ahead(s', n, m) == Ahead(s, n, m)
  {
  }

  lemma {:induction false} DequeueKeepsOrder(s: State, i: nat, s': State, n: nat, m: nat)
    requires Shape(s) && Dequeue(s, i, s') && n in s'.queue && m in s'.queue
    ensures m in s.queue && (Ahead(s, n, m) ==> Ahead(s', n, m))
  {
    assert s.queue[i] !in s'.queue;
    if x, y :| 0 <= x < y < |s.queue| && s.queue[x] == n && s.queue[y] == m {
      assert s'.queue[if x < i then x else x - 1] == n && s'.queue[if y < i then y else y - 1] == m;
    }
  }

  lemma {:induction false} EnqueueKeepsOrder(s: State, v: nat, s': State, n: nat, m: nat)
    requires Enqueue(s, v, s') && m in s'.queue && n in s.queue
    ensures m !in s.queue ==> Ahead(s', n, m)
    ensures Ahead(s, n, m) ==> Ahead(s', n, m)
  {
    var i :| 0 <= i < |s.queue| && s.queue[i] == n;
    assert s'.queue[i] == n && s'.queue[|s.queue|] == v;
    if x, y :| 0 <= x < y < |s.queue| && s.queue[x] == n && s.queue[y] == m {
      assert s'.queue[x] == n && s'.queue[y] == m;
    }
  }

  /** Nodes are woken in the order in which they were added: of two nodes that stay queued, the one added first
      stays ahead. */
  lemma {:induction false} ArrivalOrder(tr: seq<State>, a: nat, b: nat, n: nat, m: nat)
    requires Run(tr) && a < b < |tr| && n in tr[a].queue && m !in tr[a].queue && Enqueue(tr[a], m, tr[a + 1])
    requires forall x :: a < x <= b ==> n in tr[x].queue && m in tr[x].queue
    ensures Ahead(tr[b], n, m)
    decreases b
  {
    hide Inv, Init, Enqueue, Ahead;
    StepOfRun(tr, b);
    if b > a + 1 { ArrivalOrder(tr, a, b - 1, n, m); }
    NoneOvertakes(tr[b - 1], tr[b], n, m);
  }
}
