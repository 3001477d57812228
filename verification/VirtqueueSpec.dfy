/** What a split virtqueue (section 2.7 of VIRTIO 1.2) is in the abstract: descriptors
that are free or belong to one in-flight chain, heads that travel from the driver to
the device and back, and pushes that are popped once each. */
module VirtqueueSpec {
  import opened Common

  type Ptr = nat

  datatype Buffer = Buffer(addr: nat, len: nat, write: bool)

  // An in-flight request: its descriptors in order, the buffers they carry, its push number.
  datatype Chain = Chain(ds: seq<nat>, bufs: seq<Buffer>, serial: nat)

  datatype Owner = Free | Of(head: nat)

  // Where the head of an in-flight chain is.
  datatype Place = Available | AtDevice | Used

  datatype Fate = InFlight(head: nat) | Popped

  /** `owner`, `place` and `fate` say where each descriptor, head and push is; the
      sequences and the map say what each holder holds.  The invariant ties the two
      together, which makes every one of them a partition. */
  datatype Model = Model(
    free: seq<nat>, chains: map<nat, Chain>, owner: seq<Owner>,
    avail: seq<nat>, used: seq<nat>, place: map<nat, Place>,
    tokens: seq<Ptr>, popped: seq<nat>, fate: seq<Fate>)

  // `ds` lists the descriptors that `o` owns, each once.
  ghost predicate Lists(owner: seq<Owner>, o: Owner, ds: seq<nat>) {
    Distinct(ds) && forall d :: d in ds <==> 0 <= d < |owner| && owner[d] == o
  }

  ghost predicate DescriptorsOk(m: Model) {
    && Lists(m.owner, Free, m.free)
    && (forall h :: h in m.chains ==> Lists(m.owner, Of(h), m.chains[h].ds))
    && (forall h :: h in m.chains ==>
          m.chains[h].ds != [] && m.chains[h].ds[0] == h && |m.chains[h].bufs| == |m.chains[h].ds|)
    && (forall d :: 0 <= d < |m.owner| && m.owner[d].Of? ==> m.owner[d].head in m.chains)
  }

  ghost predicate HeadsOk(m: Model) {
    && m.place.Keys == m.chains.Keys
    && Distinct(m.avail) && Distinct(m.used)
    && (forall h :: h in m.avail <==> h in m.place && m.place[h] == Available)
    && (forall h :: h in m.used <==> h in m.place && m.place[h] == Used)
  }

  ghost predicate PushesOk(m: Model) {
    && |m.fate| == |m.tokens| && Distinct(m.popped)
    && (forall k :: k in m.popped <==> 0 <= k < |m.fate| && m.fate[k] == Popped)
    && (forall h :: h in m.chains ==> m.chains[h].serial < |m.fate| && m.fate[m.chains[h].serial] == InFlight(h))
    && (forall k :: 0 <= k < |m.fate| && m.fate[k].InFlight? ==>
          m.fate[k].head in m.chains && m.chains[m.fate[k].head].serial == k)
  }

  ghost predicate Inv(m: Model) { DescriptorsOk(m) && HeadsOk(m) && PushesOk(m) }

  // ---------- steps ----------

  function Initial(size: nat): Model {
    Model(seq(size, i => i), map[], seq(size, _ => Free), [], [], map[], [], [], [])
  }

  /** Hand descriptors to a new owner. */
  function Given(owner: seq<Owner>, ds: seq<nat>, o: Owner): (r: seq<Owner>)
    ensures |r| == |owner| && forall d :: 0 <= d < |owner| ==> r[d] == if d in ds then o else owner[d]
  {
    seq(|owner|, d requires 0 <= d < |owner| => if d in ds then o else owner[d])
  }

  /** Queue a request on the first descriptors of the free list. */
  function Pushed(m: Model, bufs: seq<Buffer>, token: Ptr): Model
    requires 0 < |bufs| <= |m.free|
  {
    var ds, head := m.free[..|bufs|], m.free[0];
    Model(m.free[|bufs|..], m.chains[head := Chain(ds, bufs, |m.tokens|)],
          Given(m.owner, ds, Of(head)),
          m.avail + [head], m.used, m.place[head := Available],
          m.tokens + [token], m.popped, m.fate + [InFlight(head)])
  }

  /** The device takes the oldest available head. */
  function Consumed(m: Model): Model
    requires m.avail != []
  {
    m.(avail := m.avail[1..], place := m.place[m.avail[0] := AtDevice])
  }

  /** The device returns any head it has. */
  function Completed(m: Model, head: nat): Model {
    m.(used := m.used + [head], place := m.place[head := Used])
  }

  /** The driver takes the oldest used head and gives its chain back to the free list. */
  function AfterPop(m: Model): Model
    requires m.used != [] && m.used[0] in m.chains && m.chains[m.used[0]].serial < |m.fate|
  {
    var head := m.used[0];
    var c := m.chains[head];
    Model(c.ds + m.free, m.chains - {head},
          Given(m.owner, c.ds, Free),
          m.avail, m.used[1..], m.place - {head},
          m.tokens, m.popped + [c.serial], m.fate[c.serial := Popped])
  }

  // ---------- every step keeps the partitions ----------

  lemma {:induction false} InitialInv(size: nat)
    ensures Inv(Initial(size))
  {
    var m := Initial(size);
    forall d | 0 <= d < size ensures d in m.free { assert m.free[d] == d; }
  }

  /** Taking the first descriptors of a list for a new owner. */
  lemma {:induction false} GiveFirst(owner: seq<Owner>, from: Owner, ds: seq<nat>, n: nat, to: Owner)
    requires Lists(owner, from, ds) && n <= |ds| && from != to
    requires forall d :: 0 <= d < |owner| ==> owner[d] != to
    ensures Lists(Given(owner, ds[..n], to), to, ds[..n]) && Lists(Given(owner, ds[..n], to), from, ds[n..])
  {
    assert ds == ds[..n] + ds[n..];
    assert forall d :: d in ds[..n] ==> d in ds && d !in ds[n..];
    assert forall d :: d in ds[n..] ==> d in ds;
    assert forall d :: d in ds ==> d in ds[..n] || d in ds[n..];
  }

  /** Putting one owner's descriptors in front of another's. */
  lemma {:induction false} GiveAll(owner: seq<Owner>, from: Owner, ds: seq<nat>, to: Owner, more: seq<nat>)
    requires Lists(owner, from, ds) && Lists(owner, to, more) && from != to
    ensures Lists(Given(owner, ds, to), to, ds + more)
    ensures forall d :: 0 <= d < |owner| ==> Given(owner, ds, to)[d] != from
  {
    assert forall d :: d in ds ==> d !in more;
    forall i, j | 0 <= i < j < |ds + more| ensures (ds + more)[i] != (ds + more)[j] {
      if i < |ds| <= j { assert ds[i] in ds && more[j - |ds|] in more; }
    }
  }

  /** A list of an owner that neither gives nor takes stays as it is. */
  lemma {:induction false} ListsKept(owner: seq<Owner>, from: Owner, ds: seq<nat>, to: Owner, o: Owner, os: seq<nat>)
    requires Lists(owner, o, os) && o != from && o != to
    requires forall d :: d in ds ==> 0 <= d < |owner| && owner[d] == from
    ensures Lists(Given(owner, ds, to), o, os)
  {
  }

  lemma {:induction false} PushDescriptors(m: Model, bufs: seq<Buffer>, token: Ptr)
    requires DescriptorsOk(m) && 0 < |bufs| <= |m.free|
    ensures DescriptorsOk(Pushed(m, bufs, token)) && m.free[0] !in m.chains
  {
    var ds, head := m.free[..|bufs|], m.free[0];
    assert head in m.free;
    assert forall h :: h in m.chains ==> h in m.chains[h].ds;
    GiveFirst(m.owner, Free, m.free, |bufs|, Of(head));
    forall h | h in m.chains ensures Lists(Given(m.owner, ds, Of(head)), Of(h), m.chains[h].ds) {
      ListsKept(m.owner, Free, ds, Of(head), Of(h), m.chains[h].ds);
    }
  }

  lemma {:induction false} PushHeads(m: Model, bufs: seq<Buffer>, token: Ptr)
    requires HeadsOk(m) && 0 < |bufs| <= |m.free| && m.free[0] !in m.chains
    ensures HeadsOk(Pushed(m, bufs, token))
  {
  }

  lemma {:induction false} PushInv(m: Model, bufs: seq<Buffer>, token: Ptr)
    requires Inv(m) && 0 < |bufs| <= |m.free|
    ensures Inv(Pushed(m, bufs, token))
  {
    hide DescriptorsOk, HeadsOk;
    PushDescriptors(m, bufs, token);
    PushHeads(m, bufs, token);
  }

  lemma {:induction false} ConsumeHeads(m: Model)
    requires HeadsOk(m) && m.avail != []
    ensures HeadsOk(Consumed(m))
  {
    assert m.avail[0] in m.avail;
    assert forall h :: h in m.avail <==> h == m.avail[0] || h in m.avail[1..];
  }

  lemma {:induction false} ConsumeInv(m: Model)
    requires Inv(m) && m.avail != []
    ensures Inv(Consumed(m))
  {
    ConsumeHeads(m);
  }

  lemma {:induction false} CompleteInv(m: Model, head: nat)
    requires Inv(m) && head in m.place && m.place[head] == AtDevice
    ensures Inv(Completed(m, head))
  {
  }

  lemma {:induction false} PopDescriptors(m: Model)
    requires DescriptorsOk(m) && m.used != [] && m.used[0] in m.chains && m.chains[m.used[0]].serial < |m.fate|
    ensures DescriptorsOk(AfterPop(m))
  {
    var head := m.used[0];
    var ds := m.chains[head].ds;
    GiveAll(m.owner, Of(head), ds, Free, m.free);
    forall h | h in m.chains && h != head ensures Lists(Given(m.owner, ds, Free), Of(h), m.chains[h].ds) {
      ListsKept(m.owner, Of(head), ds, Free, Of(h), m.chains[h].ds);
    }
  }

  lemma {:induction false} PopHeads(m: Model)
    requires HeadsOk(m) && m.used != [] && m.used[0] in m.chains && m.chains[m.used[0]].serial < |m.fate|
    ensures HeadsOk(AfterPop(m))
  {
    assert forall h :: h in m.used <==> h == m.used[0] || h in m.used[1..];
  }

  lemma {:induction false} PopPushes(m: Model)
    requires PushesOk(m) && m.used != [] && m.used[0] in m.chains
    ensures m.chains[m.used[0]].serial < |m.fate| && PushesOk(AfterPop(m))
  {
  }

  lemma {:induction false} PopInv(m: Model)
    requires Inv(m) && m.used != []
    ensures m.used[0] in m.chains && m.chains[m.used[0]].serial < |m.fate| && Inv(AfterPop(m))
  {
    hide DescriptorsOk;
    assert m.used[0] in m.used;
    PopDescriptors(m);
    PopHeads(m);
    PopPushes(m);
    hide HeadsOk, PushesOk;
  }

  // ---------- whole runs ----------

  datatype Event = Push(bufs: seq<Buffer>, token: Ptr) | Consume | Complete(head: nat) | Pop

  predicate Enabled(m: Model, e: Event) {
    match e
    case Push(bufs, _) => 0 < |bufs| <= |m.free|
    case Consume => m.avail != []
    case Complete(head) => head in m.place && m.place[head] == AtDevice
    case Pop => m.used != [] && m.used[0] in m.chains && m.chains[m.used[0]].serial < |m.fate|
  }

  function Apply(m: Model, e: Event): Model
    requires Enabled(m, e)
  {
    match e
    case Push(bufs, token) => Pushed(m, bufs, token)
    case Consume => Consumed(m)
    case Complete(head) => Completed(m, head)
    case Pop => AfterPop(m)
  }

  /** Driver and device take any number of steps, in any order. */
  predicate Leads(m: Model, evs: seq<Event>, m': Model)
    decreases |evs|
  {
    if evs == [] then m' == m else Enabled(m, evs[0]) && Leads(Apply(m, evs[0]), evs[1..], m')
  }

  predicate Reaches(m: Model, size: nat, evs: seq<Event>) { Leads(Initial(size), evs, m) }

  lemma {:induction false} ApplyInv(m: Model, e: Event)
    requires Inv(m) && Enabled(m, e)
    ensures Inv(Apply(m, e)) && |Apply(m, e).owner| == |m.owner|
  {
    match e {
      case Push(bufs, token) => PushInv(m, bufs, token);
      case Consume => ConsumeInv(m);
      case Complete(head) => CompleteInv(m, head);
      case Pop => PopInv(m);
    }
  }

  lemma {:induction false} LeadsInv(m: Model, evs: seq<Event>, m': Model)
    requires Inv(m) && Leads(m, evs, m')
    ensures Inv(m') && |m'.owner| == |m.owner|
    decreases |evs|
  {
    if evs != [] {
      ApplyInv(m, evs[0]);
      LeadsInv(Apply(m, evs[0]), evs[1..], m');
    }
  }

  lemma {:induction false} RunInv(m: Model, size: nat, evs: seq<Event>)
    requires Reaches(m, size, evs)
    ensures Inv(m) && |m.owner| == size
  {
    InitialInv(size);
    LeadsInv(Initial(size), evs, m);
  }

  /** After any run each descriptor is free once, or in exactly one in-flight chain once. */
  lemma {:induction false} RunPartitionsDescriptors(m: Model, size: nat, evs: seq<Event>, d: nat)
    requires Reaches(m, size, evs) && d < size
    ensures Distinct(m.free) && forall h :: h in m.chains ==> Distinct(m.chains[h].ds)
    ensures d in m.free <==> forall h :: h in m.chains ==> d !in m.chains[h].ds
    ensures forall h, h' :: h in m.chains && h' in m.chains && d in m.chains[h].ds && d in m.chains[h'].ds ==> h == h'
  {
    RunInv(m, size, evs);
    assert m.owner[d].Of? ==> d in m.chains[m.owner[d].head].ds;
  }

  /** After any run each push has been popped once, or is in flight as one chain; when
      nothing is in flight, the pops are a reordering of the pushes and every
      descriptor is free again. */
  lemma {:induction false} RunReturnsEachTokenOnce(m: Model, size: nat, evs: seq<Event>, k: nat)
    requires Reaches(m, size, evs) && k < |m.tokens|
    ensures Distinct(m.popped) && forall p :: p in m.popped ==> p < |m.tokens|
    ensures k in m.popped <==> forall h :: h in m.chains ==> m.chains[h].serial != k
    ensures forall h, h' :: h in m.chains && h' in m.chains && m.chains[h].serial == m.chains[h'].serial ==> h == h'
    ensures m.chains == map[] ==> |m.popped| == |m.tokens| && |m.free| == size
    ensures |m.tokens| == |Pushes(evs)| && m.tokens[k] == Pushes(evs)[k].token
  {
    RunInv(m, size, evs);
    RunRecorded(m, size, evs);
    if m.fate[k].InFlight? { assert m.chains[m.fate[k].head].serial == k; }
    if m.chains == map[] {
      assert forall p :: p in m.popped <==> 0 <= p < |m.tokens|;
      assert forall d :: d in m.free <==> 0 <= d < size;
      CoversRange(m.popped, |m.tokens|);
      CoversRange(m.free, size);
    }
  }

  // ---------- what a run's events alone say ----------

  /** The requests pushed, in order. */
  function Pushes(evs: seq<Event>): (ps: seq<Event>)
    ensures forall i :: 0 <= i < |ps| ==> ps[i].Push?
    decreases |evs|
  {
    if evs == [] then [] else (if evs[0].Push? then [evs[0]] else []) + Pushes(evs[1..])
  }

  /** How many requests the device took. */
  function Consumes(evs: seq<Event>): nat
    decreases |evs|
  {
    if evs == [] then 0 else (if evs[0].Consume? then 1 else 0) + Consumes(evs[1..])
  }

  /** The heads the device returned, in order. */
  function Completes(evs: seq<Event>): seq<nat>
    decreases |evs|
  {
    if evs == [] then [] else (if evs[0].Complete? then [evs[0].head] else []) + Completes(evs[1..])
  }

  /** How many pops took a head. */
  function Pops(evs: seq<Event>): nat
    decreases |evs|
  {
    if evs == [] then 0 else (if evs[0].Pop? then 1 else 0) + Pops(evs[1..])
  }

  /** A model that agrees with such a history: the tokens and buffers are those pushed, requests are taken in
      the order of their pushes and heads are read in the order in which they were returned. */
  ghost predicate Recorded(m: Model, pushes: seq<Event>, consumes: nat, completes: seq<nat>, pops: nat) {
    && |m.tokens| == |pushes| && |m.popped| == pops <= |completes| && consumes + |m.avail| == |pushes|
    && (forall k :: 0 <= k < |pushes| ==> pushes[k].Push? && m.tokens[k] == pushes[k].token)
    && (forall h :: h in m.chains ==> Carried(m.chains[h], pushes))
    && (forall i :: 0 <= i < |m.avail| ==> m.avail[i] in m.chains && m.chains[m.avail[i]].serial == consumes + i)
    && m.used == completes[pops..]
  }

  // The chain is that of a push, with all of its buffers, one to a descriptor.
  ghost predicate Carried(c: Chain, pushes: seq<Event>) {
    c.serial < |pushes| && pushes[c.serial].Push? && c.bufs == pushes[c.serial].bufs && |c.ds| == |c.bufs|
  }

  lemma {:induction false} PushRecorded(m: Model, e: Event, ps: seq<Event>, c: nat, hs: seq<nat>, n: nat)
    requires Inv(m) && Recorded(m, ps, c, hs, n) && e.Push? && Enabled(m, e)
    ensures Recorded(Apply(m, e), ps + [e], c, hs, n)
  {
    hide HeadsOk, PushesOk;
    PushDescriptors(m, e.bufs, e.token);
    var m' := Apply(m, e);
    forall h | h in m'.chains ensures Carried(m'.chains[h], ps + [e]) {
      assert h in m.chains ==> Carried(m.chains[h], ps);
    }
  }

  lemma {:induction false} ConsumeRecorded(m: Model, ps: seq<Event>, c: nat, hs: seq<nat>, n: nat)
    requires Recorded(m, ps, c, hs, n) && m.avail != []
    ensures Recorded(Consumed(m), ps, c + 1, hs, n)
  {
    forall i | 0 <= i < |m.avail[1..]| ensures m.chains[m.avail[1..][i]].serial == c + 1 + i {
      assert m.chains[m.avail[i + 1]].serial == c + (i + 1);
    }
  }

  lemma {:induction false} CompleteRecorded(m: Model, head: nat, ps: seq<Event>, c: nat, hs: seq<nat>, n: nat)
    requires Recorded(m, ps, c, hs, n)
    ensures Recorded(Completed(m, head), ps, c, hs + [head], n)
  {
  }

  lemma {:induction false} PopRecorded(m: Model, ps: seq<Event>, c: nat, hs: seq<nat>, n: nat)
    requires Inv(m) && Recorded(m, ps, c, hs, n) && Enabled(m, Pop)
    ensures Recorded(AfterPop(m), ps, c, hs, n + 1)
  {
    hide DescriptorsOk, PushesOk;
    assert m.used[0] in m.used;
    assert forall h :: h in m.avail ==> h != m.used[0];
  }

  lemma {:induction false} OneEvent(e: Event)
    ensures Pushes([e]) == (if e.Push? then [e] else []) && Consumes([e]) == (if e.Consume? then 1 else 0)
    ensures Completes([e]) == (if e.Complete? then [e.head] else []) && Pops([e]) == (if e.Pop? then 1 else 0)
  {
    assert [e][1..] == [];
  }

  lemma {:induction false} NoEvent(ps: seq<Event>, hs: seq<nat>)
    ensures ps + Pushes([]) == ps && hs + Completes([]) == hs && Consumes([]) == Pops([]) == 0
  {
  }

  lemma {:induction false} FirstEvent(evs: seq<Event>, ps: seq<Event>, hs: seq<nat>)
    requires evs != []
    ensures var e, rest := evs[0], evs[1..];
            && ps + Pushes([e]) + Pushes(rest) == ps + Pushes(evs)
            && hs + Completes([e]) + Completes(rest) == hs + Completes(evs)
            && Consumes([e]) + Consumes(rest) == Consumes(evs) && Pops([e]) + Pops(rest) == Pops(evs)
  {
    HeadAndRest(evs[0], evs[1..]);
    assert evs == [evs[0]] + evs[1..];
    hide Pushes, Consumes, Completes, Pops;
  }

  lemma {:induction false} HeadAndRest(e: Event, rest: seq<Event>)
    ensures var evs := [e] + rest;
            && Pushes(evs) == Pushes([e]) + Pushes(rest) && Completes(evs) == Completes([e]) + Completes(rest)
            && Consumes(evs) == Consumes([e]) + Consumes(rest) && Pops(evs) == Pops([e]) + Pops(rest)
  {
    OneEvent(e);
    assert ([e] + rest)[1..] == rest;
  }

  lemma {:induction false} NextRecorded(m: Model, e: Event, ps: seq<Event>, c: nat, hs: seq<nat>, n: nat)
    requires Inv(m) && Recorded(m, ps, c, hs, n) && Enabled(m, e)
    ensures Recorded(Apply(m, e), ps + Pushes([e]), c + Consumes([e]), hs + Completes([e]), n + Pops([e]))
  {
    hide Inv, Recorded, Pushes, Consumes, Completes, Pops;
    OneEvent(e);
    assert ps + [] == ps && hs + [] == hs;
    match e {
      case Push(_, _) => PushRecorded(m, e, ps, c, hs, n);
      case Consume => ConsumeRecorded(m, ps, c, hs, n);
      case Complete(head) => CompleteRecorded(m, head, ps, c, hs, n);
      case Pop => PopRecorded(m, ps, c, hs, n);
    }
  }

  lemma {:induction false} LeadsRecorded(m: Model, evs: seq<Event>, m': Model,
                                         ps: seq<Event>, c: nat, hs: seq<nat>, n: nat)
    requires Inv(m) && Recorded(m, ps, c, hs, n) && Leads(m, evs, m')
    ensures Recorded(m', ps + Pushes(evs), c + Consumes(evs), hs + Completes(evs), n + Pops(evs))
    decreases |evs|
  {
    hide Inv, Recorded, Enabled, Apply, Pushes, Consumes, Completes, Pops;
    if evs == [] {
      NoEvent(ps, hs);
    } else {
      var e, rest := evs[0], evs[1..];
      ApplyInv(m, e);
      NextRecorded(m, e, ps, c, hs, n);
      FirstEvent(evs, ps, hs);
      LeadsRecorded(Apply(m, e), rest, m', ps + Pushes([e]), c + Consumes([e]), hs + Completes([e]), n + Pops([e]));
    }
  }

  /** After any run the tokens are those of the run's pushes, in order; the chain of push k carries the buffers
      of push k; the available heads are those of the pushes the device has not taken, oldest first; and the
      heads pending for the driver are those returned and not yet popped, oldest first. */
  lemma {:induction false} RunRecorded(m: Model, size: nat, evs: seq<Event>)
    requires Reaches(m, size, evs)
    ensures Recorded(m, Pushes(evs), Consumes(evs), Completes(evs), Pops(evs))
  {
    InitialInv(size);
    LeadsRecorded(Initial(size), evs, m, [], 0, [], 0);
    assert [] + Pushes(evs) == Pushes(evs) && [] + Completes(evs) == Completes(evs);
  }

  /** A pop after any run takes the head that was returned first and not popped yet, and records the push whose
      chain that head is. */
  lemma {:induction false} PopTakesOldest(m: Model, size: nat, evs: seq<Event>)
    requires Reaches(m, size, evs) && m.used != []
    ensures Enabled(m, Pop) && Pops(evs) < |Completes(evs)|
    ensures var head, m' := Completes(evs)[Pops(evs)], Apply(m, Pop);
            && head in m.chains && m'.popped == m.popped + [m.chains[head].serial] && m.chains[head].serial !in m.popped
            && m'.free == m.chains[head].ds + m.free && m'.chains == m.chains - {head}
  {
    RunInv(m, size, evs);
    RunRecorded(m, size, evs);
    PopInv(m);
    var k := m.chains[m.used[0]].serial;
    assert m.fate[k] == InFlight(m.used[0]);
  }

  /** One more event at the end of a run. */
  lemma {:induction false} LeadsSnoc(m: Model, evs: seq<Event>, m': Model, e: Event)
    requires Leads(m, evs, m') && Enabled(m', e)
    ensures Leads(m, evs + [e], Apply(m', e))
    decreases |evs|
  {
    hide Enabled, Apply;
    if evs == [] {
      assert [e][1..] == [] && [] + [e] == [e];
    } else {
      assert (evs + [e])[1..] == evs[1..] + [e];
      LeadsSnoc(Apply(m, evs[0]), evs[1..], m', e);
    }
  }

  // ---------- bounds ----------

  /** There is always a ring slot for one more head: heads are descriptors outside the
      free list, so available heads and free descriptors together are at most `size`. */
  lemma {:induction false} RingHasRoom(m: Model)
    requires Inv(m)
    ensures |m.avail| + |m.free| <= |m.owner| && |m.used| <= |m.owner|
    ensures forall h :: h in m.place && m.place[h] == AtDevice ==> |m.used| < |m.owner|
  {
    forall h | h in m.chains ensures h < |m.owner| && h !in m.free {
      assert h in m.chains[h].ds;
    }
    var all := m.avail + m.free;
    forall i, j | 0 <= i < j < |all| ensures all[i] != all[j] {
      if i < |m.avail| <= j { assert m.avail[i] in m.avail && m.free[j - |m.avail|] in m.free; }
    }
    DistinctBounded(all, |m.owner|);
    DistinctBounded(m.used, |m.owner|);
    forall h | h in m.place && m.place[h] == AtDevice ensures |m.used| < |m.owner| {
      DistinctBounded(m.used + [h], |m.owner|);
    }
  }
}
