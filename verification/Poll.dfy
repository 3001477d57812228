/** The lock-free handshake between poll waiters and signalers of
`hexahedron/fs/poll.c`, as a step machine.

Any number of waiters, events and signalers take atomic steps in any order.  A
signaler walks an event's waiter list while it holds that event's spinlock; a
waiter never takes the spinlock on its way to sleep, so the flags `ready` and
`lock` are all that stands between it and a lost wakeup.  The sleep interface is
abstract: a wakeup delivered after the prepare call makes the sleeper return. */
module Poll {

  datatype Flag = Hangup | Error | Other(bit: nat)

  type Mask = set<Flag>

  // Hang-up and error are reported whether or not they were asked for.
  predicate Matches(wanted: Mask, raised: Mask) {
    wanted * raised != {} || Hangup in raised || Error in raised
  }

  datatype WaiterPc =
    | Building   // created, adding interests
    | Spinning   // no thread to put to sleep: polling ready with the lock held
    | Prepared   // sleep_prepare done, lock still held
    | Unlocked   // lock released, about to load ready
    | Asleep     // ready was seen clear, sleep_enter called
    | Woken      // sleep_enter returned, about to retake the lock
    | Done

  // `wake` is set when sleep_wakeup reaches this waiter's prepared thread.
  datatype Waiter = Waiter(pc: WaiterPc, lock: bool, ready: bool, wake: bool)

  datatype Node = Node(waiter: nat, mask: Mask)

  datatype Owner = Free | HeldBy(signaler: nat)

  datatype Event = Event(owner: Owner, nodes: seq<Node>)

  // A signaler at list position `i` of event `e`, which it holds locked.
  datatype SignalPc =
    | Idle
    | Scan(e: nat, mask: Mask, i: nat)     // about to look at node i
    | TryLock(e: nat, mask: Mask, i: nat)  // ready stored, about to test-and-set the lock
    | Wake(e: nat, mask: Mask, i: nat)     // lock won, about to call sleep_wakeup

  datatype State = State(waiters: seq<Waiter>, events: seq<Event>, signalers: seq<SignalPc>)

  // ---------- steps ----------

  /** A step that a waiter takes on its own fields. */
  predicate WaiterMove(x: Waiter, x': Waiter) {
    match x.pc
    case Building => x' == x.(ready := true) || x' == x.(pc := Prepared) || x' == x.(pc := Spinning)
    case Spinning => x.ready && x' == x.(pc := Done)
    case Prepared => x' == x.(pc := Unlocked, lock := false)
    case Unlocked => x' == x.(pc := if x.ready then Done else Asleep)
    case Asleep => x' == x.(pc := Woken)  // by a wakeup, a timeout or a signal
    case Woken => x' == x.(pc := Done, lock := true)
    case Done => false
  }

  predicate WaiterStep(s: State, w: nat, s': State) {
    && w < |s.waiters| == |s'.waiters|
    && WaiterMove(s.waiters[w], s'.waiters[w])
    && s' == s.(waiters := s.waiters[w := s'.waiters[w]])
  }

  predicate Create(s: State, s': State) {
    s' == s.(waiters := s.waiters + [Waiter(Building, true, false, false)])
  }

  /** poll_add: push a node on the event's list under the event's lock. */
  predicate Register(s: State, w: nat, e: nat, mask: Mask, s': State) {
    && w < |s.waiters| && e < |s.events| && s.waiters[w].pc.Building? && s.events[e].owner.Free?
    && s' == s.(events := s.events[e := s.events[e].(nodes := [Node(w, mask)] + s.events[e].nodes)])
  }

  /** poll_exit: unlink one of the waiter's nodes under the event's lock, after the wait or instead of it. */
  predicate Unregister(s: State, w: nat, e: nat, i: nat, s': State) {
    && w < |s.waiters| && e < |s.events| && s.events[e].owner.Free?
    && (s.waiters[w].pc.Done? || s.waiters[w].pc.Building?)
    && i < |s.events[e].nodes| && s.events[e].nodes[i].waiter == w
    && s' == s.(events := s.events[e := s.events[e].(nodes := s.events[e].nodes[..i] + s.events[e].nodes[i + 1..])])
  }

  predicate BeginSignal(s: State, k: nat, e: nat, mask: Mask, s': State) {
    && k < |s.signalers| && e < |s.events| && s.signalers[k].Idle? && s.events[e].owner.Free?
    && s' == s.(events := s.events[e := s.events[e].(owner := HeldBy(k))],
                signalers := s.signalers[k := Scan(e, mask, 0)])
  }

  // The signaler is at a node whose waiter exists.
  predicate AtNode(s: State, k: nat) {
    k < |s.signalers| && !s.signalers[k].Idle? && s.signalers[k].e < |s.events| &&
    s.signalers[k].i < |s.events[s.signalers[k].e].nodes| &&
    s.events[s.signalers[k].e].nodes[s.signalers[k].i].waiter < |s.waiters|
  }

  function Target(s: State, k: nat): (w: nat)
    requires AtNode(s, k)
    ensures w < |s.waiters|
  {
    s.events[s.signalers[k].e].nodes[s.signalers[k].i].waiter
  }

  function Advance(pc: SignalPc): SignalPc
    requires !pc.Idle?
  {
    Scan(pc.e, pc.mask, pc.i + 1)
  }

  /** The signaler looks at a node, and stores ready when the node matches. */
  predicate Store(s: State, k: nat, s': State) {
    AtNode(s, k) && s.signalers[k].Scan? &&
    var pc, w := s.signalers[k], Target(s, k);
    if Matches(s.events[pc.e].nodes[pc.i].mask, pc.mask)
    then s' == s.(waiters := s.waiters[w := s.waiters[w].(ready := true)],
                  signalers := s.signalers[k := TryLock(pc.e, pc.mask, pc.i)])
    else s' == s.(signalers := s.signalers[k := Advance(pc)])
  }

  predicate TestAndSet(s: State, k: nat, s': State) {
    AtNode(s, k) && s.signalers[k].TryLock? &&
    var pc, w := s.signalers[k], Target(s, k);
    if s.waiters[w].lock
    then s' == s.(signalers := s.signalers[k := Advance(pc)])
    else s' == s.(waiters := s.waiters[w := s.waiters[w].(lock := true)],
                  signalers := s.signalers[k := Wake(pc.e, pc.mask, pc.i)])
  }

  predicate Deliver(s: State, k: nat, s': State) {
    AtNode(s, k) && s.signalers[k].Wake? &&
    var pc, w := s.signalers[k], Target(s, k);
    s' == s.(waiters := s.waiters[w := s.waiters[w].(wake := true)],
             signalers := s.signalers[k := Advance(pc)])
  }

  predicate EndSignal(s: State, k: nat, s': State) {
    && k < |s.signalers| && s.signalers[k].Scan? && s.signalers[k].e < |s.events|
    && s.signalers[k].i >= |s.events[s.signalers[k].e].nodes|
    && s' == s.(events := s.events[s.signalers[k].e := s.events[s.signalers[k].e].(owner := Free)],
                signalers := s.signalers[k := Idle])
  }

  ghost predicate Next(s: State, s': State) {
    || Create(s, s')
    || (exists w: nat :: WaiterStep(s, w, s'))
    || (exists w: nat, e: nat, mask: Mask :: Register(s, w, e, mask, s'))
    || (exists w: nat, e: nat, i: nat :: Unregister(s, w, e, i, s'))
    || (exists k: nat, e: nat, mask: Mask :: BeginSignal(s, k, e, mask, s'))
    || (exists k: nat :: Store(s, k, s') || TestAndSet(s, k, s') || Deliver(s, k, s') || EndSignal(s, k, s'))
  }

  predicate Init(s: State) {
    && s.waiters == []
    && (forall e :: 0 <= e < |s.events| ==> s.events[e] == Event(Free, []))
    && (forall k :: 0 <= k < |s.signalers| ==> s.signalers[k] == Idle)
  }

  ghost predicate Run(tr: seq<State>) {
    |tr| > 0 && Init(tr[0]) && forall i :: 0 <= i < |tr| - 1 ==> Next(tr[i], tr[i + 1])
  }

  // ---------- invariant ----------

  // Registered nodes name waiters that exist.
  predicate ListsOk(s: State) {
    forall e, i :: 0 <= e < |s.events| && 0 <= i < |s.events[e].nodes| ==>
      s.events[e].nodes[i].waiter < |s.waiters|
  }

  // A busy signaler owns its event and has already marked every matching waiter behind it.
  predicate SignalerOk(s: State, k: nat)
    requires k < |s.signalers| && ListsOk(s)
  {
    var pc := s.signalers[k];
    !pc.Idle? ==>
      && pc.e < |s.events| && s.events[pc.e].owner == HeldBy(k) && pc.i <= |s.events[pc.e].nodes|
      && (!pc.Scan? ==> pc.i < |s.events[pc.e].nodes| && s.waiters[s.events[pc.e].nodes[pc.i].waiter].ready &&
                        Matches(s.events[pc.e].nodes[pc.i].mask, pc.mask))
      && forall j :: 0 <= j < pc.i && Matches(s.events[pc.e].nodes[j].mask, pc.mask) ==>
           s.waiters[s.events[pc.e].nodes[j].waiter].ready
  }

  predicate Trying(s: State, k: nat, w: nat) { AtNode(s, k) && s.signalers[k].TryLock? && Target(s, k) == w }

  predicate Waking(s: State, k: nat, w: nat) { AtNode(s, k) && s.signalers[k].Wake? && Target(s, k) == w }

  ghost predicate SomeTrying(s: State, w: nat) { exists k :: Trying(s, k, w) }

  ghost predicate SomeWaking(s: State, w: nat) { exists k :: Waking(s, k, w) }

  // The handshake, for one waiter.
  ghost predicate Handshake(s: State, w: nat)
    requires w < |s.waiters|
  {
    var x := s.waiters[w];
    && (x.pc.Building? || x.pc.Prepared? || x.pc.Spinning? ==> x.lock && !x.wake && !SomeWaking(s, w))
    && (x.wake ==> x.lock && !SomeWaking(s, w))
    && (SomeWaking(s, w) ==> x.lock)
    && (forall k, k' :: Waking(s, k, w) && Waking(s, k', w) ==> k == k')
    && ((x.pc.Unlocked? || x.pc.Asleep?) && x.lock ==> x.wake || SomeWaking(s, w))
    && (x.pc.Asleep? && x.ready && !x.lock ==> SomeTrying(s, w))
  }

  ghost predicate Inv(s: State) {
    && ListsOk(s)
    && (forall k :: 0 <= k < |s.signalers| ==> SignalerOk(s, k))
    && (forall w :: 0 <= w < |s.waiters| ==> Handshake(s, w))
  }

  // ---------- preservation ----------

  // No signaler changed the node it stands at.
  ghost predicate SameRoles(s: State, s': State) {
    forall k, w :: (Trying(s', k, w) <==> Trying(s, k, w)) && (Waking(s', k, w) <==> Waking(s, k, w))
  }

  lemma {:induction false} HandshakeFrame(s: State, s': State, w: nat)
    requires SameRoles(s, s') && w < |s.waiters| && w < |s'.waiters| && s'.waiters[w] == s.waiters[w]
    requires Handshake(s, w)
    ensures Handshake(s', w)
  {
    assert SomeTrying(s', w) <==> SomeTrying(s, w);
    assert SomeWaking(s', w) <==> SomeWaking(s, w);
  }

  lemma {:induction false} WaiterStepKeepsInv(s: State, w: nat, s': State)
    requires Inv(s) && WaiterStep(s, w, s')
    ensures Inv(s')
  {
    forall k | 0 <= k < |s'.signalers| ensures SignalerOk(s', k) { assert SignalerOk(s, k); }
    assert SameRoles(s, s');
    forall v | 0 <= v < |s'.waiters| ensures Handshake(s', v) {
      assert Handshake(s, v);
      if v == w {
        assert SomeTrying(s', w) <==> SomeTrying(s, w);
        assert SomeWaking(s', w) <==> SomeWaking(s, w);
      } else {
        HandshakeFrame(s, s', v);
      }
    }
  }

  lemma {:induction false} CreateKeepsInv(s: State, s': State)
    requires Inv(s) && Create(s, s')
    ensures Inv(s')
  {
    forall k | 0 <= k < |s'.signalers| ensures SignalerOk(s', k) { assert SignalerOk(s, k); }
    assert SameRoles(s, s');
    forall v | 0 <= v < |s'.waiters| ensures Handshake(s', v) {
      if v < |s.waiters| { assert Handshake(s, v); HandshakeFrame(s, s', v); }
    }
  }

  /** Steps that touch only one event's list or lock, and at most one idle signaler. */
  lemma {:induction false} EventStepKeepsInv(s: State, s': State)
    requires Inv(s) && ListsOk(s') && s'.waiters == s.waiters
    requires forall k :: 0 <= k < |s'.signalers| ==> SignalerOk(s', k)
    requires SameRoles(s, s')
    ensures Inv(s')
  {
    forall v | 0 <= v < |s'.waiters| ensures Handshake(s', v) {
      assert Handshake(s, v);
      HandshakeFrame(s, s', v);
    }
  }

  lemma {:induction false} ListChangeKeepsInv(s: State, e: nat, nodes: seq<Node>, s': State)
    requires Inv(s) && e < |s.events| && s.events[e].owner.Free?
    requires forall i :: 0 <= i < |nodes| ==> nodes[i].waiter < |s.waiters|
    requires s' == s.(events := s.events[e := s.events[e].(nodes := nodes)])
    ensures Inv(s')
  {
    forall k | 0 <= k < |s'.signalers| ensures SignalerOk(s', k) { assert SignalerOk(s, k); }
    forall k: nat, w: nat ensures (Trying(s', k, w) <==> Trying(s, k, w)) && (Waking(s', k, w) <==> Waking(s, k, w)) {
      assert k < |s.signalers| ==> SignalerOk(s, k);
    }
    EventStepKeepsInv(s, s');
  }

  lemma {:induction false} BeginKeepsInv(s: State, k: nat, e: nat, mask: Mask, s': State)
    requires Inv(s) && BeginSignal(s, k, e, mask, s')
    ensures Inv(s')
  {
    forall j | 0 <= j < |s'.signalers| ensures SignalerOk(s', j) { assert SignalerOk(s, j); }
    EventStepKeepsInv(s, s');
  }

  lemma {:induction false} EndKeepsInv(s: State, k: nat, s': State)
    requires Inv(s) && EndSignal(s, k, s')
    ensures Inv(s')
  {
    assert SignalerOk(s, k);
    forall j | 0 <= j < |s'.signalers| ensures SignalerOk(s', j) { assert SignalerOk(s, j); }
    EventStepKeepsInv(s, s');
  }

  // Signaler `k` moved; the others stand where they stood.
  ghost predicate OthersStand(s: State, k: nat, s': State) {
    forall j, w :: j != k ==> (Trying(s', j, w) <==> Trying(s, j, w)) && (Waking(s', j, w) <==> Waking(s, j, w))
  }

  lemma {:induction false} SignalersStayOk(s: State, k: nat, s': State)
    requires Inv(s) && AtNode(s, k) && |s'.signalers| == |s.signalers|
    requires Store(s, k, s') || TestAndSet(s, k, s') || Deliver(s, k, s')
    ensures ListsOk(s') && forall j :: 0 <= j < |s'.signalers| ==> SignalerOk(s', j)
  {
    assert SignalerOk(s, k);
    forall j | 0 <= j < |s'.signalers| ensures SignalerOk(s', j) { assert SignalerOk(s, j); }
  }

  lemma {:induction false} StoreKeepsInv(s: State, k: nat, s': State)
    requires Inv(s) && Store(s, k, s')
    ensures Inv(s')
  {
    SignalersStayOk(s, k, s');
    assert OthersStand(s, k, s');
    forall v | 0 <= v < |s'.waiters| ensures Handshake(s', v) {
      assert Handshake(s, v);
      assert SomeTrying(s, v) ==> exists j :: j != k && Trying(s, j, v);
      assert SomeWaking(s', v) <==> SomeWaking(s, v);
      if s'.waiters[v] != s.waiters[v] { assert Trying(s', k, v); }
    }
  }

  lemma {:induction false} TestAndSetKeepsInv(s: State, k: nat, s': State)
    requires Inv(s) && TestAndSet(s, k, s')
    ensures Inv(s')
  {
    SignalersStayOk(s, k, s');
    assert OthersStand(s, k, s');
    forall v | 0 <= v < |s'.waiters| ensures Handshake(s', v) {
      assert Handshake(s, v);
      if v == Target(s, k) {
        assert !s.waiters[v].lock ==> Waking(s', k, v);
      } else {
        assert SomeTrying(s, v) ==> exists j :: j != k && Trying(s, j, v);
      }
    }
  }

  lemma {:induction false} DeliverKeepsInv(s: State, k: nat, s': State)
    requires Inv(s) && Deliver(s, k, s')
    ensures Inv(s')
  {
    SignalersStayOk(s, k, s');
    assert OthersStand(s, k, s');
    assert Waking(s, k, Target(s, k));
    forall v | 0 <= v < |s'.waiters| ensures Handshake(s', v) {
      assert Handshake(s, v);
      assert SomeTrying(s, v) ==> exists j :: j != k && Trying(s, j, v);
    }
  }

  lemma {:induction false} NextKeepsInv(s: State, s': State)
    requires Inv(s) && Next(s, s')
    ensures Inv(s')
  {
    if Create(s, s') {
      CreateKeepsInv(s, s');
    } else if w: nat :| WaiterStep(s, w, s') {
      WaiterStepKeepsInv(s, w, s');
    } else if w: nat, e: nat, mask :| Register(s, w, e, mask, s') {
      ListChangeKeepsInv(s, e, [Node(w, mask)] + s.events[e].nodes, s');
    } else if w: nat, e: nat, i: nat :| Unregister(s, w, e, i, s') {
      ListChangeKeepsInv(s, e, s.events[e].nodes[..i] + s.events[e].nodes[i + 1..], s');
    } else if k: nat, e: nat, mask :| BeginSignal(s, k, e, mask, s') {
      BeginKeepsInv(s, k, e, mask, s');
    } else {
      var k: nat :| Store(s, k, s') || TestAndSet(s, k, s') || Deliver(s, k, s') || EndSignal(s, k, s');
      if Store(s, k, s') { StoreKeepsInv(s, k, s'); }
      else if TestAndSet(s, k, s') { TestAndSetKeepsInv(s, k, s'); }
      else if Deliver(s, k, s') { DeliverKeepsInv(s, k, s'); }
      else { EndKeepsInv(s, k, s'); }
    }
  }

  lemma {:induction false} RunKeepsInv(tr: seq<State>)
    requires Run(tr)
    ensures Inv(tr[|tr| - 1])
  {
    if |tr| > 1 {
      RunKeepsInv(tr[..|tr| - 1]);
      assert Next(tr[|tr| - 2], tr[|tr| - 1]);
      NextKeepsInv(tr[|tr| - 2], tr[|tr| - 1]);
    }
  }

  // ---------- main results ----------

  ghost predicate Reachable(s: State) {
    exists tr: seq<State> :: Run(tr) && tr[|tr| - 1] == s
  }

  lemma {:induction false} ReachableInv(s: State)
    requires Reachable(s)
    ensures Inv(s)
  {
    var tr: seq<State> :| Run(tr) && tr[|tr| - 1] == s;
    RunKeepsInv(tr);
  }

  /** No wakeup is lost: in every reachable state a waiter that sleeps although its
      ready flag is set has its wakeup delivered, or a signaler that won its lock is
      about to deliver it, or its lock is free and a signaler is about to take it. */
  lemma {:induction false} NoLostWakeup(s: State, w: nat)
    requires Reachable(s) && w < |s.waiters| && s.waiters[w].pc.Asleep? && s.waiters[w].ready
    ensures s.waiters[w].wake || SomeWaking(s, w) || (SomeTrying(s, w) && !s.waiters[w].lock)
  {
    ReachableInv(s);
    assert Handshake(s, w);
  }

  /** When a signaler releases an event, every waiter registered there with a matching
      mask is ready, and if it sleeps its wakeup is delivered or under way; if it spins it can leave. */
  lemma {:induction false} SignalReachesEveryMatch(s: State, k: nat, s': State, i: nat)
    requires Reachable(s) && EndSignal(s, k, s')
    requires i < |s.events[s.signalers[k].e].nodes|
    requires Matches(s.events[s.signalers[k].e].nodes[i].mask, s.signalers[k].mask)
    ensures var w := s.events[s.signalers[k].e].nodes[i].waiter;
            && w < |s'.waiters| && s'.waiters[w].ready
            && (s'.waiters[w].pc.Asleep? ==> s'.waiters[w].wake || SomeTrying(s', w) || SomeWaking(s', w))
            && (s'.waiters[w].pc.Spinning? ==> WaiterMove(s'.waiters[w], s'.waiters[w].(pc := Done)))
  {
    ReachableInv(s);
    assert SignalerOk(s, k);
    EndKeepsInv(s, k, s');
    assert Handshake(s', s.events[s.signalers[k].e].nodes[i].waiter);
  }

  /** sleep_wakeup is called at most once per waiter, and only after the waiter prepared. */
  lemma {:induction false} WakesOnce(s: State, k: nat, s': State)
    requires Reachable(s) && Deliver(s, k, s')
    ensures var w := Target(s, k);
            && !s.waiters[w].wake && s'.waiters[w].wake && !SomeWaking(s', w)
            && !s.waiters[w].pc.Building? && !s.waiters[w].pc.Prepared? && !s.waiters[w].pc.Spinning?
  {
    ReachableInv(s);
    assert Handshake(s, Target(s, k));
    assert Waking(s, k, Target(s, k));
    DeliverKeepsInv(s, k, s');
    assert Handshake(s', Target(s, k));
  }

  // ---------- what a signal means for those who registered ----------

  // Waiter `w` is registered on event `e` for `mask`.
  predicate Registered(s: State, w: nat, e: nat, mask: Mask) {
    e < |s.events| && Node(w, mask) in s.events[e].nodes
  }

  ghost predicate GivesUp(s: State, s': State, w: nat, e: nat) { exists i: nat :: Unregister(s, w, e, i, s') }

  /** A registration lasts until the waiter gives it up. */
  lemma {:induction false} StaysRegistered(s: State, s': State, w: nat, e: nat, mask: Mask)
    requires Registered(s, w, e, mask) && Next(s, s') && !GivesUp(s, s', w, e)
    ensures Registered(s', w, e, mask)
  {
    hide Registered, GivesUp;
    if v: nat, e': nat, i: nat :| Unregister(s, v, e', i, s') {
      OthersStayRegistered(s, v, e', i, s', w, e, mask);
    } else if v: nat, e': nat, m :| Register(s, v, e', m, s') {
      AlsoRegistered(s, v, e', m, s', w, e, mask);
    } else {
      SameNodes(s, s', w, e, mask);
    }
  }

  lemma {:induction false} SameNodes(s: State, s': State, w: nat, e: nat, mask: Mask)
    requires |s'.events| == |s.events| && forall d :: 0 <= d < |s.events| ==> s'.events[d].nodes == s.events[d].nodes
    requires Registered(s, w, e, mask)
    ensures Registered(s', w, e, mask)
  {
  }

  lemma {:induction false} AlsoRegistered(s: State, v: nat, e': nat, m: Mask, s': State, w: nat, e: nat, mask: Mask)
    requires Registered(s, w, e, mask) && Register(s, v, e', m, s')
    ensures Registered(s', w, e, mask)
  {
  }

  lemma {:induction false} OthersStayRegistered(s: State, v: nat, e': nat, i: nat, s': State,
                                                w: nat, e: nat, mask: Mask)
    requires Registered(s, w, e, mask) && Unregister(s, v, e', i, s') && !GivesUp(s, s', w, e)
    ensures Registered(s', w, e, mask)
  {
    var x: nat :| x < |s.events[e].nodes| && s.events[e].nodes[x] == Node(w, mask);
    if e' == e {
      assert v != w && i != x;
      assert s'.events[e].nodes[if x < i then x else x - 1] == Node(w, mask);
    }
  }

  // Signaler `k` is busy on event `e` with `mask`.
  predicate Signaling(s: State, k: nat, e: nat, mask: Mask) {
    k < |s.signalers| && !s.signalers[k].Idle? && s.signalers[k].e == e && s.signalers[k].mask == mask
  }

  lemma {:induction false} StaysSignaling(s: State, s': State, k: nat, e: nat, mask: Mask)
    requires Signaling(s, k, e, mask) && Next(s, s') && !EndSignal(s, k, s')
    ensures Signaling(s', k, e, mask)
  {
  }

  lemma {:induction false} RegisteredAt(tr: seq<State>, r: nat, n: nat, w: nat, e: nat, wanted: Mask)
    requires Run(tr) && r < n < |tr| && Register(tr[r], w, e, wanted, tr[r + 1])
    requires forall x :: r < x < n ==> !GivesUp(tr[x], tr[x + 1], w, e)
    ensures Registered(tr[n], w, e, wanted)
    decreases n
  {
    hide Run, Register, GivesUp, Next, Registered;
    if n == r + 1 {
      NowRegistered(tr[r], w, e, wanted, tr[n]);
    } else {
      RegisteredAt(tr, r, n - 1, w, e, wanted);
      StepOfRun(tr, n);
      StaysRegistered(tr[n - 1], tr[n], w, e, wanted);
    }
  }

  lemma {:induction false} SignalingAt(tr: seq<State>, a: nat, n: nat, k: nat, e: nat, raised: Mask)
    requires Run(tr) && a < n < |tr| && BeginSignal(tr[a], k, e, raised, tr[a + 1])
    requires forall x :: a < x < n ==> !EndSignal(tr[x], k, tr[x + 1])
    ensures Signaling(tr[n], k, e, raised)
    decreases n
  {
    hide Run, BeginSignal, EndSignal, Next, Signaling;
    if n == a + 1 {
      NowSignaling(tr[a], k, e, raised, tr[n]);
    } else {
      SignalingAt(tr, a, n - 1, k, e, raised);
      StepOfRun(tr, n);
      StaysSignaling(tr[n - 1], tr[n], k, e, raised);
    }
  }

  lemma {:induction false} NowSignaling(s: State, k: nat, e: nat, raised: Mask, s': State)
    requires BeginSignal(s, k, e, raised, s')
    ensures Signaling(s', k, e, raised)
  {
  }

  lemma {:induction false} NowRegistered(s: State, w: nat, e: nat, wanted: Mask, s': State)
    requires Register(s, w, e, wanted, s')
    ensures Registered(s', w, e, wanted)
  {
    assert s'.events[e].nodes[0] == Node(w, wanted);
  }

  // The step that leads to the `n`-th state of a run.
  lemma {:induction false} StepOfRun(tr: seq<State>, n: nat)
    requires Run(tr) && 0 < n < |tr|
    ensures Next(tr[n - 1], tr[n])
  {
    hide Init, Next;
    assert Next(tr[n - 1], tr[n - 1 + 1]);
  }

  lemma {:induction false} PrefixReachable(tr: seq<State>, n: nat)
    requires Run(tr) && n < |tr|
    ensures Reachable(tr[n])
  {
    var front := tr[..n + 1];
    assert Run(front) && front[|front| - 1] == tr[n];
  }

  /** A whole call of poll_signal in any run: a waiter that registered before and has not given its registration
      up is ready afterwards if the signal shares a flag with what it wanted, and also if the signal holds
      hang-up or error, whatever it wanted; and if it sleeps, its wakeup is delivered or under way. */
  lemma {:induction false} SignalCallReaches(tr: seq<State>, r: nat, a: nat, b: nat, k: nat, w: nat, e: nat,
                                             wanted: Mask, raised: Mask)
    requires Run(tr) && r < a < b < |tr| - 1
    requires Register(tr[r], w, e, wanted, tr[r + 1])
    requires forall x :: r < x < b ==> !GivesUp(tr[x], tr[x + 1], w, e)
    requires BeginSignal(tr[a], k, e, raised, tr[a + 1]) && EndSignal(tr[b], k, tr[b + 1])
    requires forall x :: a < x < b ==> !EndSignal(tr[x], k, tr[x + 1])
    requires (exists f :: f in wanted && f in raised) || Hangup in raised || Error in raised
    ensures w < |tr[b + 1].waiters| && tr[b + 1].waiters[w].ready
    ensures tr[b + 1].waiters[w].pc.Asleep? ==>
              tr[b + 1].waiters[w].wake || SomeTrying(tr[b + 1], w) || SomeWaking(tr[b + 1], w)
  {
    hide Run, Inv, EndSignal, BeginSignal, Register, GivesUp;
    RegisteredAt(tr, r, b, w, e, wanted);
    SignalingAt(tr, a, b, k, e, raised);
    PrefixReachable(tr, b);
    var nodes := tr[b].events[e].nodes;
    var i: nat :| i < |nodes| && nodes[i] == Node(w, wanted);
    SharedFlag(wanted, raised);
    SignalReachesEveryMatch(tr[b], k, tr[b + 1], i);
  }

  lemma {:induction false} SharedFlag(wanted: Mask, raised: Mask)
    ensures (exists f :: f in wanted && f in raised) <==> wanted * raised != {}
  {
    if f :| f in wanted && f in raised { assert f in wanted * raised; }
    if wanted * raised != {} {
      var f :| f in wanted * raised;
      assert f in wanted && f in raised;
    }
  }

  /** At a node that wants none of the signal's flags, when the signal holds neither hang-up nor error, no step
      of the signaler touches any waiter. */
  lemma {:induction false} PassesOverOthers(s: State, k: nat, s': State)
    requires Reachable(s) && AtNode(s, k)
    requires Store(s, k, s') || TestAndSet(s, k, s') || Deliver(s, k, s')
    requires var pc := s.signalers[k];
             && (forall f :: f in s.events[pc.e].nodes[pc.i].mask ==> f !in pc.mask)
             && Hangup !in pc.mask && Error !in pc.mask
    ensures s'.waiters == s.waiters && s'.signalers[k] == s.signalers[k].(i := s.signalers[k].i + 1)
  {
    ReachableInv(s);
    assert SignalerOk(s, k);
    SharedFlag(s.events[s.signalers[k].e].nodes[s.signalers[k].i].mask, s.signalers[k].mask);
  }

  /** A waiter is created not ready and with its lock held, and becomes ready only while it adds its interests or
      by a signaler at one of its nodes that wants a flag of the signal, or any when that holds hang-up or
      error. */
  lemma {:induction false} ReadyHasCause(s: State, s': State, w: nat)
    requires Next(s, s') && w < |s'.waiters| && s'.waiters[w].ready && (w < |s.waiters| ==> !s.waiters[w].ready)
    ensures w < |s.waiters|
    ensures s.waiters[w].pc.Building? || exists k: nat :: Causes(s, k, w)
  {
    forall k: nat | Store(s, k, s') ensures w < |s.waiters| && (s'.waiters[w] != s.waiters[w] ==> Causes(s, k, w)) {
      SharedFlag(s.events[s.signalers[k].e].nodes[s.signalers[k].i].mask, s.signalers[k].mask);
    }
  }

  ghost predicate Causes(s: State, k: nat, w: nat) {
    && AtNode(s, k) && s.signalers[k].Scan? && Target(s, k) == w
    && var raised := s.signalers[k].mask;
       || (exists f :: f in s.events[s.signalers[k].e].nodes[s.signalers[k].i].mask && f in raised)
       || Hangup in raised || Error in raised
  }

  /** poll_wait returns without sleeping only when the waiter is ready, and goes to sleep only when it is not. */
  lemma {:induction false} WaitsUntilReady(x: Waiter, x': Waiter)
    requires WaiterMove(x, x')
    ensures (x.pc.Spinning? || x.pc.Unlocked?) && x'.pc.Done? ==> x.ready
    ensures x'.pc.Asleep? ==> !x.ready && !x'.ready
    ensures x'.ready != x.ready ==> x.pc.Building?
  {
  }
}
