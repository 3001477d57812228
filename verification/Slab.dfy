/** The slab allocator as a machine of atomic steps: any number of threads allocate from and free to
    one cache through per-CPU magazines, shared depots and slabs. */
module SlabProtocol {
  import opened Common

  const MAGAZINE_SIZE := 8

  /** The object at position `idx` of a slab. */
  datatype Obj = Obj(slab: nat, idx: nat)

  /** Where an object is. */
  datatype Place = OnSlab(i: nat) | Round(mag: nat, i: nat) | Live | Freeing(thread: nat)

  /** Where a magazine is.  One that a thread gives up after losing a race is lost. */
  datatype Holder = Loaded(cpu: nat) | Previous(cpu: nat) | InFull(i: nat) | InEmpty(i: nat) | Held(thread: nat) | Lost

  datatype ListName = Partial | Full | Free

  /** A slab: its freelist, top last, and the list it is on. */
  datatype Slab = Slab(free: seq<Obj>, list: ListName)

  datatype Cpu = Cpu(loaded: Option<nat>, previous: Option<nat>, owner: Option<nat>)

  /** What a thread is in the middle of. */
  datatype Pc =
    | Idle
    | Allocating(cpu: nat)                          // about to take the CPU's lock
    | Stolen(cpu: nat, mag: nat)                    // holds the lock and a full magazine from the depot
    | SlowAllocating                                // about to take the cache's mutex
    | FreeingFast(cpu: nat, obj: Obj)               // about to take the CPU's lock
    | Refilling(cpu: nat, obj: Obj, mag: nat)       // holds the lock and an empty magazine from the depot
    | NeedMagazine(cpu: nat, obj: Obj)              // released the lock to allocate a magazine
    | GotMagazine(cpu: nat, obj: Obj, mag: nat)     // about to take the lock again
    | SlowFreeing(obj: Obj)                         // about to take the cache's mutex

  datatype State = State(
    cnt: nat,                      // objects per slab
    slabs: map<nat, Slab>,
    mags: map<nat, seq<Obj>>,      // the rounds of every magazine, top last
    cpus: seq<Cpu>,
    full: seq<nat>,                // the depots, top last
    empty: seq<nat>,
    pcs: seq<Pc>,
    loc: map<Obj, Place>,
    home: map<nat, Holder>)

  function FreedBy(pc: Pc): Option<Obj> {
    match pc
    case FreeingFast(_, o) => Some(o)
    case Refilling(_, o, _) => Some(o)
    case NeedMagazine(_, o) => Some(o)
    case GotMagazine(_, o, _) => Some(o)
    case SlowFreeing(o) => Some(o)
    case _ => None
  }

  function HeldBy(pc: Pc): Option<nat> {
    match pc
    case Stolen(_, g) => Some(g)
    case Refilling(_, _, g) => Some(g)
    case GotMagazine(_, _, g) => Some(g)
    case _ => None
  }

  function LockedBy(pc: Pc): Option<nat> {
    match pc
    case Stolen(c, _) => Some(c)
    case Refilling(c, _, _) => Some(c)
    case _ => None
  }

  function CpuOf(pc: Pc): Option<nat> {
    match pc
    case Allocating(c) => Some(c)
    case Stolen(c, _) => Some(c)
    case FreeingFast(c, _) => Some(c)
    case Refilling(c, _, _) => Some(c)
    case NeedMagazine(c, _) => Some(c)
    case GotMagazine(c, _, _) => Some(c)
    case _ => None
  }

  // ---------- the invariant ----------

  ghost predicate SlabsOk(slabs: map<nat, Slab>, loc: map<Obj, Place>) {
    forall k, i {:trigger slabs[k].free[i]} :: k in slabs && 0 <= i < |slabs[k].free| ==>
      slabs[k].free[i].slab == k && slabs[k].free[i] in loc && loc[slabs[k].free[i]] == OnSlab(i)
  }

  ghost predicate RoundsOk(mags: map<nat, seq<Obj>>, loc: map<Obj, Place>) {
    forall g, i :: g in mags && 0 <= i < |mags[g]| ==> mags[g][i] in loc && loc[mags[g][i]] == Round(g, i)
  }

  ghost predicate FreeingOk(pcs: seq<Pc>, loc: map<Obj, Place>) {
    forall t :: 0 <= t < |pcs| && FreedBy(pcs[t]).Some? ==>
      FreedBy(pcs[t]).value in loc && loc[FreedBy(pcs[t]).value] == Freeing(t)
  }

  /** An object is where its place says. */
  ghost predicate PlaceOk(cnt: nat, slabs: map<nat, Slab>, mags: map<nat, seq<Obj>>, pcs: seq<Pc>, o: Obj, p: Place) {
    && o.slab in slabs && o.idx < cnt
    && match p
       case OnSlab(i) => i < |slabs[o.slab].free| && slabs[o.slab].free[i] == o
       case Round(g, i) => g in mags && i < |mags[g]| && mags[g][i] == o
       case Live => true
       case Freeing(t) => t < |pcs| && FreedBy(pcs[t]) == Some(o)
  }

  ghost predicate LocOk(cnt: nat, slabs: map<nat, Slab>, mags: map<nat, seq<Obj>>, pcs: seq<Pc>, loc: map<Obj, Place>) {
    forall o :: o in loc ==> PlaceOk(cnt, slabs, mags, pcs, o, loc[o])
  }

  /** Every object of every slab is somewhere. */
  ghost predicate AllOk(cnt: nat, slabs: map<nat, Slab>, loc: map<Obj, Place>) {
    forall k, i: nat :: k in slabs && i < cnt ==> Obj(k, i) in loc
  }

  ghost predicate Objects(s: State) {
    && SlabsOk(s.slabs, s.loc) && RoundsOk(s.mags, s.loc) && FreeingOk(s.pcs, s.loc)
    && LocOk(s.cnt, s.slabs, s.mags, s.pcs, s.loc) && AllOk(s.cnt, s.slabs, s.loc)
  }

  // A magazine that is absent, empty or full.
  ghost predicate AllOrNothing(mags: map<nat, seq<Obj>>, g: Option<nat>) {
    g.Some? ==> g.value in mags && (|mags[g.value]| == 0 || |mags[g.value]| == MAGAZINE_SIZE)
  }

  ghost predicate Sized(mags: map<nat, seq<Obj>>, g: Option<nat>, n: nat) {
    g.Some? ==> g.value in mags && |mags[g.value]| == n
  }

  ghost predicate CpusOk(mags: map<nat, seq<Obj>>, home: map<nat, Holder>, cpus: seq<Cpu>) {
    forall c :: 0 <= c < |cpus| ==>
      && (cpus[c].loaded.Some? ==>
            cpus[c].loaded.value in mags && cpus[c].loaded.value in home && home[cpus[c].loaded.value] == Loaded(c))
      && (cpus[c].previous.Some? ==> cpus[c].previous.value in home && home[cpus[c].previous.value] == Previous(c))
      && AllOrNothing(mags, cpus[c].previous)
  }

  ghost predicate DepotsOk(mags: map<nat, seq<Obj>>, home: map<nat, Holder>, full: seq<nat>, empty: seq<nat>) {
    && (forall i :: 0 <= i < |full| ==>
          full[i] in home && home[full[i]] == InFull(i) && Sized(mags, Some(full[i]), MAGAZINE_SIZE))
    && forall i :: 0 <= i < |empty| ==>
         empty[i] in home && home[empty[i]] == InEmpty(i) && Sized(mags, Some(empty[i]), 0)
  }

  ghost predicate HeldOk(mags: map<nat, seq<Obj>>, home: map<nat, Holder>, pcs: seq<Pc>) {
    forall t :: 0 <= t < |pcs| && HeldBy(pcs[t]).Some? ==>
      && HeldBy(pcs[t]).value in home && home[HeldBy(pcs[t]).value] == Held(t)
      && Sized(mags, HeldBy(pcs[t]), if pcs[t].Stolen? then MAGAZINE_SIZE else 0)
  }

  ghost predicate SizesOk(mags: map<nat, seq<Obj>>, home: map<nat, Holder>) {
    home.Keys == mags.Keys && forall g :: g in mags ==> |mags[g]| <= MAGAZINE_SIZE
  }

  /** A CPU's lock is held by the thread that says so, and the CPU's magazines are as that thread found
      them: both exhausted for an allocation, both full for a free. */
  ghost predicate LocksOk(mags: map<nat, seq<Obj>>, cpus: seq<Cpu>, pcs: seq<Pc>) {
    forall t :: 0 <= t < |pcs| && LockedBy(pcs[t]).Some? ==>
      var c := LockedBy(pcs[t]).value;
      && c < |cpus| && cpus[c].owner == Some(t)
      && Sized(mags, cpus[c].loaded, if pcs[t].Stolen? then 0 else MAGAZINE_SIZE)
      && Sized(mags, cpus[c].previous, if pcs[t].Stolen? then 0 else MAGAZINE_SIZE)
  }

  ghost predicate PcsOk(cpus: seq<Cpu>, pcs: seq<Pc>) {
    forall t :: 0 <= t < |pcs| && CpuOf(pcs[t]).Some? ==> CpuOf(pcs[t]).value < |cpus|
  }

  ghost predicate Magazines(s: State) {
    && PcsOk(s.cpus, s.pcs)
    && CpusOk(s.mags, s.home, s.cpus) && DepotsOk(s.mags, s.home, s.full, s.empty) && HeldOk(s.mags, s.home, s.pcs)
    && SizesOk(s.mags, s.home) && LocksOk(s.mags, s.cpus, s.pcs)
  }

  /** Each slab is on the list its free count dictates. */
  ghost predicate ListsOk(cnt: nat, slabs: map<nat, Slab>) {
    cnt > 0 && forall k :: k in slabs ==> slabs[k].list == ListFor(cnt, |slabs[k].free|) && |slabs[k].free| <= cnt
  }

  function ListFor(cnt: nat, free: nat): ListName { if free == 0 then Full else if free == cnt then Free else Partial }

  ghost predicate Inv(s: State) {
    Objects(s) && Magazines(s) && ListsOk(s.cnt, s.slabs)
  }

  // An object moves between places none of which is a freelist.
  lemma {:induction false} SlabsKept(slabs: map<nat, Slab>, loc: map<Obj, Place>, o: Obj, p: Place)
    requires SlabsOk(slabs, loc) && o in loc && !loc[o].OnSlab?
    ensures SlabsOk(slabs, loc[o := p])
  {
    forall k, i | k in slabs && 0 <= i < |slabs[k].free|
      ensures slabs[k].free[i].slab == k && slabs[k].free[i] in loc && loc[o := p][slabs[k].free[i]] == OnSlab(i)
    {
      assert loc[slabs[k].free[i]] == OnSlab(i);
    }
  }

  // ---------- the parts steps are made of ----------

  function Top<T>(r: seq<T>): T
    requires r != []
  {
    r[|r| - 1]
  }

  function Below<T>(r: seq<T>): seq<T>
    requires r != []
  {
    r[..|r| - 1]
  }

  // The CPU has a loaded magazine with a round in it.
  predicate HasRounds(s: State, c: nat) {
    c < |s.cpus| && s.cpus[c].loaded.Some? && s.cpus[c].loaded.value in s.mags && s.mags[s.cpus[c].loaded.value] != []
  }

  /** Take the top round of the loaded magazine. */
  function Pop(s: State, c: nat): State
    requires HasRounds(s, c)
  {
    var g := s.cpus[c].loaded.value;
    s.(mags := s.mags[g := Below(s.mags[g])], loc := s.loc[Top(s.mags[g]) := Live])
  }

  lemma {:induction false} PopObjects(s: State, c: nat)
    requires HasRounds(s, c) && Objects(s)
    ensures Objects(Pop(s, c))
    ensures var o := Top(s.mags[s.cpus[c].loaded.value]); o in s.loc && s.loc[o].Round?
  {
    var g := s.cpus[c].loaded.value;
    var o := Top(s.mags[g]);
    assert s.loc[o] == Round(g, |s.mags[g]| - 1);
    var s' := Pop(s, c);
    SlabsKept(s.slabs, s.loc, o, Live);
    forall o' | o' in s'.loc ensures PlaceOk(s'.cnt, s'.slabs, s'.mags, s'.pcs, o', s'.loc[o']) {
      assert PlaceOk(s.cnt, s.slabs, s.mags, s.pcs, o', s.loc[o']);
    }
  }

  lemma {:induction false} PopMagazines(s: State, c: nat)
    requires HasRounds(s, c) && Magazines(s) && s.cpus[c].owner.None?
    ensures Magazines(Pop(s, c))
  {
  }

  lemma {:induction false} PopInv(s: State, c: nat)
    requires HasRounds(s, c) && Inv(s) && s.cpus[c].owner.None?
    ensures Inv(Pop(s, c))
    ensures var o := Top(s.mags[s.cpus[c].loaded.value]); o in s.loc && s.loc[o].Round?
  {
    hide Objects, Magazines;
    PopObjects(s, c);
    PopMagazines(s, c);
  }

  predicate HasRoom(s: State, c: nat) {
    && c < |s.cpus| && s.cpus[c].loaded.Some? && s.cpus[c].loaded.value in s.mags
    && |s.mags[s.cpus[c].loaded.value]| < MAGAZINE_SIZE
  }

  /** Put the object a thread is freeing on top of the loaded magazine. */
  function Push(s: State, t: nat, c: nat): State
    requires HasRoom(s, c) && t < |s.pcs| && FreedBy(s.pcs[t]).Some?
  {
    var g, o := s.cpus[c].loaded.value, FreedBy(s.pcs[t]).value;
    s.(mags := s.mags[g := s.mags[g] + [o]], loc := s.loc[o := Round(g, |s.mags[g]|)], pcs := s.pcs[t := Idle])
  }

  lemma {:induction false} PushObjects(s: State, t: nat, c: nat)
    requires HasRoom(s, c) && t < |s.pcs| && FreedBy(s.pcs[t]).Some? && Objects(s)
    ensures Objects(Push(s, t, c))
  {
    var g, o, s' := s.cpus[c].loaded.value, FreedBy(s.pcs[t]).value, Push(s, t, c);
    assert s.loc[o] == Freeing(t);
    SlabsKept(s.slabs, s.loc, o, Round(g, |s.mags[g]|));
    forall o' | o' in s'.loc ensures PlaceOk(s'.cnt, s'.slabs, s'.mags, s'.pcs, o', s'.loc[o']) {
      assert PlaceOk(s.cnt, s.slabs, s.mags, s.pcs, o', s.loc[o']);
    }
  }

  lemma {:induction false} PushMagazines(s: State, t: nat, c: nat)
    requires HasRoom(s, c) && t < |s.pcs| && FreedBy(s.pcs[t]).Some? && HeldBy(s.pcs[t]).None?
    requires Magazines(s) && s.cpus[c].owner.None?
    ensures Magazines(Push(s, t, c))
  {
  }

  lemma {:induction false} PushInv(s: State, t: nat, c: nat)
    requires HasRoom(s, c) && t < |s.pcs| && FreedBy(s.pcs[t]).Some? && HeldBy(s.pcs[t]).None?
    requires Inv(s) && s.cpus[c].owner.None?
    ensures Inv(Push(s, t, c))
  {
    hide Objects, Magazines;
    PushObjects(s, t, c);
    PushMagazines(s, t, c);
  }

  /** Exchange the CPU's two magazines. */
  function Swap(s: State, c: nat): State
    requires c < |s.cpus| && s.cpus[c].previous.Some?
  {
    var cpu := s.cpus[c];
    var home := s.home[cpu.previous.value := Loaded(c)];
    s.(cpus := s.cpus[c := cpu.(loaded := cpu.previous, previous := cpu.loaded)],
       home := if cpu.loaded.Some? then home[cpu.loaded.value := Previous(c)] else home)
  }

  lemma {:induction false} SwapInv(s: State, c: nat)
    requires Inv(s) && c < |s.cpus| && s.cpus[c].previous.Some? && s.cpus[c].owner.None?
    requires AllOrNothing(s.mags, s.cpus[c].loaded)
    ensures Inv(Swap(s, c))
  {
    hide Objects, ListsOk, CpusOk, DepotsOk, HeldOk, LocksOk, SizesOk;
    SwapKeepsObjects(s, c);
    SwapCpus(s, c);
    SwapDepots(s, c);
    SwapHeld(s, c);
  }

  lemma {:induction false} SwapKeepsObjects(s: State, c: nat)
    requires Objects(s) && c < |s.cpus| && s.cpus[c].previous.Some?
    ensures Objects(Swap(s, c))
  {
    hide SlabsOk, RoundsOk, FreeingOk, LocOk, AllOk;
  }

  lemma {:induction false} SwapCpus(s: State, c: nat)
    requires Magazines(s) && c < |s.cpus| && s.cpus[c].previous.Some? && AllOrNothing(s.mags, s.cpus[c].loaded)
    ensures var s' := Swap(s, c); CpusOk(s'.mags, s'.home, s'.cpus) && SizesOk(s'.mags, s'.home)
  {
    hide DepotsOk, HeldOk, LocksOk, PcsOk;
  }

  lemma {:induction false} SwapDepots(s: State, c: nat)
    requires Magazines(s) && c < |s.cpus| && s.cpus[c].previous.Some?
    ensures var s' := Swap(s, c); DepotsOk(s'.mags, s'.home, s'.full, s'.empty)
  {
    hide HeldOk, LocksOk, PcsOk, Sized;
  }

  lemma {:induction false} SwapHeld(s: State, c: nat)
    requires Magazines(s) && c < |s.cpus| && s.cpus[c].previous.Some? && s.cpus[c].owner.None?
    ensures var s' := Swap(s, c); HeldOk(s'.mags, s'.home, s'.pcs) && LocksOk(s'.mags, s'.cpus, s'.pcs)
  {
    hide DepotsOk, PcsOk, Sized;
  }

  // Threads free the same objects as before, and nothing about objects changes.
  lemma {:induction false} ObjectsPcs(s: State, s': State)
    requires Objects(s) && s'.cnt == s.cnt && s'.slabs == s.slabs && s'.mags == s.mags && s'.loc == s.loc
    requires |s'.pcs| == |s.pcs| && forall t :: 0 <= t < |s.pcs| ==> FreedBy(s'.pcs[t]) == FreedBy(s.pcs[t])
    ensures Objects(s')
  {
    hide SlabsOk, RoundsOk, AllOk;
    forall o | o in s.loc ensures PlaceOk(s.cnt, s.slabs, s.mags, s'.pcs, o, s.loc[o]) {
      assert PlaceOk(s.cnt, s.slabs, s.mags, s.pcs, o, s.loc[o]);
    }
  }

  // A thread moves on without touching an object, a magazine or a lock.
  lemma {:induction false} PcInv(s: State, t: nat, pc: Pc)
    requires Inv(s) && t < |s.pcs| && FreedBy(pc) == FreedBy(s.pcs[t])
    requires HeldBy(pc).None? && HeldBy(s.pcs[t]).None? && (CpuOf(pc).Some? ==> CpuOf(pc).value < |s.cpus|)
    ensures Inv(s.(pcs := s.pcs[t := pc]))
  {
    hide Objects, CpusOk, DepotsOk, SizesOk, ListsOk;
    ObjectsPcs(s, s.(pcs := s.pcs[t := pc]));
  }

  // Maps that agree but for one magazine.
  ghost predicate AllBut<T(!new)>(m: map<nat, T>, m': map<nat, T>, g: nat) {
    forall x :: x in m && x != g ==> x in m' && m'[x] == m[x]
  }

  // A magazine no CPU has changes hands.
  lemma {:induction false} CpusKept(mags: map<nat, seq<Obj>>, home: map<nat, Holder>, cpus: seq<Cpu>,
                                    mags': map<nat, seq<Obj>>, home': map<nat, Holder>, cpus': seq<Cpu>, g: nat)
    requires CpusOk(mags, home, cpus) && AllBut(mags, mags', g) && AllBut(home, home', g)
    requires |cpus'| == |cpus|
    requires forall c :: 0 <= c < |cpus| ==> cpus'[c].loaded == cpus[c].loaded && cpus'[c].previous == cpus[c].previous
    requires g in home ==> !home[g].Loaded? && !home[g].Previous?
    ensures CpusOk(mags', home', cpus')
  {
  }

  lemma {:induction false} DepotsKept(mags: map<nat, seq<Obj>>, home: map<nat, Holder>, full: seq<nat>, empty: seq<nat>,
                                      mags': map<nat, seq<Obj>>, home': map<nat, Holder>, full': seq<nat>,
                                      empty': seq<nat>, g: nat)
    requires DepotsOk(mags, home, full, empty) && AllBut(mags, mags', g) && AllBut(home, home', g)
    requires full' <= full && empty' <= empty
    requires g in home ==> (home[g].InFull? ==> home[g].i >= |full'|) && (home[g].InEmpty? ==> home[g].i >= |empty'|)
    ensures DepotsOk(mags', home', full', empty')
  {
  }

  lemma {:induction false} HeldKept(mags: map<nat, seq<Obj>>, home: map<nat, Holder>, pcs: seq<Pc>,
                                    mags': map<nat, seq<Obj>>, home': map<nat, Holder>, t: nat, pc: Pc, g: nat)
    requires HeldOk(mags, home, pcs) && AllBut(mags, mags', g) && AllBut(home, home', g) && t < |pcs|
    requires g in home && home[g].Held? ==> home[g].thread == t
    requires HeldBy(pc).Some? ==> HeldBy(pc) == Some(g) && g in home' && home'[g] == Held(t) &&
                                  Sized(mags', Some(g), if pc.Stolen? then MAGAZINE_SIZE else 0)
    ensures HeldOk(mags', home', pcs[t := pc])
  {
  }

  /** Take a full magazine from the depot; the CPU's lock stays held. */
  function Steal(s: State, t: nat, c: nat): State
    requires t < |s.pcs| && c < |s.cpus| && s.full != []
  {
    var g := Top(s.full);
    s.(full := Below(s.full), home := s.home[g := Held(t)], pcs := s.pcs[t := Stolen(c, g)],
       cpus := s.cpus[c := s.cpus[c].(owner := Some(t))])
  }

  lemma {:induction false} StealInv(s: State, t: nat, c: nat)
    requires Inv(s) && t < |s.pcs| && s.pcs[t] == Allocating(c) && c < |s.cpus| && s.full != [] && s.cpus[c].owner.None?
    requires Sized(s.mags, s.cpus[c].loaded, 0) && Sized(s.mags, s.cpus[c].previous, 0)
    ensures Inv(Steal(s, t, c))
  {
    hide Objects, ListsOk, CpusOk, HeldOk;
    var g, s' := Top(s.full), Steal(s, t, c);
    assert s.home[g] == InFull(|s.full| - 1) && Sized(s.mags, Some(g), MAGAZINE_SIZE);
    ObjectsPcs(s, s');
    CpusKept(s.mags, s.home, s.cpus, s'.mags, s'.home, s'.cpus, g);
    DepotsKept(s.mags, s.home, s.full, s.empty, s'.mags, s'.home, s'.full, s'.empty, g);
    HeldKept(s.mags, s.home, s.pcs, s'.mags, s'.home, t, s'.pcs[t], g);
  }

  /** Take an empty magazine from the depot; the CPU's lock stays held. */
  function TakeEmpty(s: State, t: nat, c: nat, o: Obj): State
    requires t < |s.pcs| && c < |s.cpus| && s.empty != []
  {
    var g := Top(s.empty);
    s.(empty := Below(s.empty), home := s.home[g := Held(t)], pcs := s.pcs[t := Refilling(c, o, g)],
       cpus := s.cpus[c := s.cpus[c].(owner := Some(t))])
  }

  lemma {:induction false} TakeEmptyInv(s: State, t: nat, c: nat, o: Obj)
    requires Inv(s) && t < |s.pcs| && s.pcs[t] == FreeingFast(c, o) && c < |s.cpus| && s.empty != []
    requires s.cpus[c].owner.None?
    requires Sized(s.mags, s.cpus[c].loaded, MAGAZINE_SIZE) && Sized(s.mags, s.cpus[c].previous, MAGAZINE_SIZE)
    ensures Inv(TakeEmpty(s, t, c, o))
  {
    hide Objects, ListsOk, CpusOk, HeldOk;
    var g, s' := Top(s.empty), TakeEmpty(s, t, c, o);
    assert s.home[g] == InEmpty(|s.empty| - 1) && Sized(s.mags, Some(g), 0);
    ObjectsPcs(s, s');
    CpusKept(s.mags, s.home, s.cpus, s'.mags, s'.home, s'.cpus, g);
    DepotsKept(s.mags, s.home, s.full, s.empty, s'.mags, s'.home, s'.full, s'.empty, g);
    HeldKept(s.mags, s.home, s.pcs, s'.mags, s'.home, t, s'.pcs[t], g);
  }

  /** Load a thread's magazine: the previous one goes to a depot, the loaded one becomes the previous,
      and the lock is free. */
  function Rotate(s: State, t: nat, c: nat, g: nat, toFull: bool, pc: Pc): State
    requires t < |s.pcs| && c < |s.cpus|
  {
    var cpu := s.cpus[c];
    var home0 := if cpu.previous.None? then s.home
                 else s.home[cpu.previous.value := if toFull then InFull(|s.full|) else InEmpty(|s.empty|)];
    var home1 := if cpu.loaded.None? then home0 else home0[cpu.loaded.value := Previous(c)];
    var out := if cpu.previous.None? then [] else [cpu.previous.value];
    s.(cpus := s.cpus[c := Cpu(Some(g), cpu.loaded, None)], home := home1[g := Loaded(c)],
       full := if toFull then s.full + out else s.full, empty := if toFull then s.empty else s.empty + out,
       pcs := s.pcs[t := pc])
  }

  // What a rotation asks: the thread holds `g`, nobody else the lock, and both magazines are alike.
  ghost predicate CanRotate(s: State, t: nat, c: nat, g: nat, toFull: bool, pc: Pc) {
    && t < |s.pcs| && c < |s.cpus| && HeldBy(s.pcs[t]) == Some(g)
    && HeldBy(pc).None? && (CpuOf(pc).Some? ==> CpuOf(pc).value < |s.cpus|)
    && (s.cpus[c].owner == None || s.cpus[c].owner == Some(t))
    && Sized(s.mags, s.cpus[c].loaded, if toFull then MAGAZINE_SIZE else 0)
    && Sized(s.mags, s.cpus[c].previous, if toFull then MAGAZINE_SIZE else 0)
  }

  lemma {:induction false} RotateDepots(s: State, t: nat, c: nat, g: nat, toFull: bool, pc: Pc)
    requires Magazines(s) && CanRotate(s, t, c, g, toFull, pc)
    ensures var s' := Rotate(s, t, c, g, toFull, pc);
            DepotsOk(s'.mags, s'.home, s'.full, s'.empty) && SizesOk(s'.mags, s'.home)
  {
    hide LocksOk, PcsOk;
    assert s.home[g] == Held(t);
  }

  lemma {:induction false} RotateCpus(s: State, t: nat, c: nat, g: nat, toFull: bool, pc: Pc)
    requires Magazines(s) && CanRotate(s, t, c, g, toFull, pc)
    ensures var s' := Rotate(s, t, c, g, toFull, pc); CpusOk(s'.mags, s'.home, s'.cpus)
  {
    hide LocksOk, PcsOk, DepotsOk;
    assert s.home[g] == Held(t);
  }

  lemma {:induction false} RotateHeld(s: State, t: nat, c: nat, g: nat, toFull: bool, pc: Pc)
    requires Magazines(s) && CanRotate(s, t, c, g, toFull, pc)
    ensures var s' := Rotate(s, t, c, g, toFull, pc); HeldOk(s'.mags, s'.home, s'.pcs)
  {
    hide DepotsOk, SizesOk, LocksOk, PcsOk;
    assert s.home[g] == Held(t);
    var s' := Rotate(s, t, c, g, toFull, pc);
    forall t' | 0 <= t' < |s.pcs| && t' != t && HeldBy(s.pcs[t']).Some?
      ensures HeldBy(s.pcs[t']).value in s'.home && s'.home[HeldBy(s.pcs[t']).value] == Held(t')
    {
      assert s.home[HeldBy(s.pcs[t']).value] == Held(t');
    }
  }

  lemma {:induction false} RotateLocks(s: State, t: nat, c: nat, g: nat, toFull: bool, pc: Pc)
    requires Magazines(s) && CanRotate(s, t, c, g, toFull, pc) && LockedBy(pc).None?
    ensures var s' := Rotate(s, t, c, g, toFull, pc); LocksOk(s'.mags, s'.cpus, s'.pcs) && PcsOk(s'.cpus, s'.pcs)
  {
    hide DepotsOk, SizesOk, CpusOk, HeldOk, Sized;
  }

  // Who holds a lock holds a magazine.
  lemma {:induction false} LockIsHeld(pc: Pc)
    ensures LockedBy(pc).Some? ==> HeldBy(pc).Some?
  {
  }

  lemma {:induction false} RotateInv(s: State, t: nat, c: nat, g: nat, toFull: bool, pc: Pc)
    requires Inv(s) && CanRotate(s, t, c, g, toFull, pc) && FreedBy(pc) == FreedBy(s.pcs[t])
    ensures Inv(Rotate(s, t, c, g, toFull, pc))
  {
    RotateDepots(s, t, c, g, toFull, pc);
    RotateCpus(s, t, c, g, toFull, pc);
    RotateHeld(s, t, c, g, toFull, pc);
    LockIsHeld(pc);
    RotateLocks(s, t, c, g, toFull, pc);
    hide Objects, CpusOk, DepotsOk, HeldOk, SizesOk, LocksOk, PcsOk;
    ObjectsPcs(s, Rotate(s, t, c, g, toFull, pc));
  }

  /** A freshly allocated magazine, which its initializer has emptied. */
  function NewMagazine(s: State, t: nat, c: nat, o: Obj, g: nat): State
    requires t < |s.pcs|
  {
    s.(mags := s.mags[g := []], home := s.home[g := Held(t)], pcs := s.pcs[t := GotMagazine(c, o, g)])
  }

  lemma {:induction false} NewMagazineInv(s: State, t: nat, c: nat, o: Obj, g: nat)
    requires Inv(s) && t < |s.pcs| && s.pcs[t] == NeedMagazine(c, o) && g !in s.mags
    ensures Inv(NewMagazine(s, t, c, o, g))
  {
    hide Objects, ListsOk, CpusOk, HeldOk, DepotsOk;
    var s' := NewMagazine(s, t, c, o, g);
    NewMagazineObjects(s, t, c, o, g);
    CpusKept(s.mags, s.home, s.cpus, s'.mags, s'.home, s'.cpus, g);
    DepotsKept(s.mags, s.home, s.full, s.empty, s'.mags, s'.home, s'.full, s'.empty, g);
    HeldKept(s.mags, s.home, s.pcs, s'.mags, s'.home, t, s'.pcs[t], g);
  }

  lemma {:induction false} NewMagazineObjects(s: State, t: nat, c: nat, o: Obj, g: nat)
    requires Objects(s) && t < |s.pcs| && s.pcs[t] == NeedMagazine(c, o) && g !in s.mags
    ensures Objects(NewMagazine(s, t, c, o, g))
  {
    hide SlabsOk, AllOk;
    var s' := NewMagazine(s, t, c, o, g);
    forall o | o in s.loc ensures PlaceOk(s.cnt, s.slabs, s'.mags, s'.pcs, o, s.loc[o]) {
      assert PlaceOk(s.cnt, s.slabs, s.mags, s.pcs, o, s.loc[o]);
    }
  }

  /** The thread finds it does not need its new magazine and forgets it. */
  function Forget(s: State, t: nat, c: nat, o: Obj, g: nat): State
    requires t < |s.pcs|
  {
    s.(home := s.home[g := Lost], pcs := s.pcs[t := FreeingFast(c, o)])
  }

  lemma {:induction false} ForgetInv(s: State, t: nat, c: nat, o: Obj, g: nat)
    requires Inv(s) && t < |s.pcs| && s.pcs[t] == GotMagazine(c, o, g)
    ensures Inv(Forget(s, t, c, o, g))
  {
    hide Objects, ListsOk, CpusOk, DepotsOk;
    var s' := Forget(s, t, c, o, g);
    assert s.home[g] == Held(t);
    ObjectsPcs(s, s');
    CpusKept(s.mags, s.home, s.cpus, s'.mags, s'.home, s'.cpus, g);
    DepotsKept(s.mags, s.home, s.full, s.empty, s'.mags, s'.home, s'.full, s'.empty, g);
    HeldKept(s.mags, s.home, s.pcs, s'.mags, s'.home, t, s'.pcs[t], g);
  }

  /** A client gives an object back. */
  function GiveBack(s: State, t: nat, o: Obj, pc: Pc): State
    requires t < |s.pcs|
  {
    s.(loc := s.loc[o := Freeing(t)], pcs := s.pcs[t := pc])
  }

  lemma {:induction false} GiveBackInv(s: State, t: nat, o: Obj, pc: Pc)
    requires Inv(s) && t < |s.pcs| && s.pcs[t] == Idle && o in s.loc && s.loc[o] == Live
    requires FreedBy(pc) == Some(o) && HeldBy(pc).None? && (CpuOf(pc).Some? ==> CpuOf(pc).value < |s.cpus|)
    ensures Inv(GiveBack(s, t, o, pc))
  {
    hide Objects, ListsOk, CpusOk, DepotsOk, SizesOk;
    GiveBackObjects(s, t, o, pc);
  }

  lemma {:induction false} GiveBackObjects(s: State, t: nat, o: Obj, pc: Pc)
    requires Objects(s) && t < |s.pcs| && s.pcs[t] == Idle && o in s.loc && s.loc[o] == Live && FreedBy(pc) == Some(o)
    ensures Objects(GiveBack(s, t, o, pc))
  {
    SlabsKept(s.slabs, s.loc, o, Freeing(t));
    hide SlabsOk;
    var s' := GiveBack(s, t, o, pc);
    forall o' | o' in s'.loc ensures PlaceOk(s.cnt, s.slabs, s.mags, s'.pcs, o', s'.loc[o']) {
      assert PlaceOk(s.cnt, s.slabs, s.mags, s.pcs, o', s.loc[o']);
    }
  }

  // ---------- slabs ----------

  /** A slab after its top object is taken: the code moves it only when it runs out or stops being
      untouched. */
  function Taken(cnt: nat, slab: Slab): Slab
    requires slab.free != []
  {
    var free := Below(slab.free);
    Slab(free, if |free| == 0 then Full else if |free| == cnt - 1 then Partial else slab.list)
  }

  /** A slab after an object is put back: the code moves it only when it is whole again or has its first
      free object. */
  function Returned(cnt: nat, slab: Slab, o: Obj): Slab {
    var free := slab.free + [o];
    Slab(free, if |free| == cnt then Free else if |free| == 1 then Partial else slab.list)
  }

  /** A new slab: every object on the freelist, the last one linked on top. */
  function NewSlab(k: nat, cnt: nat): Slab { Slab(seq(cnt, (i: nat) => Obj(k, i)), Free) }

  function TakeFrom(s: State, t: nat, k: nat): State
    requires t < |s.pcs| && k in s.slabs && s.slabs[k].free != []
  {
    s.(slabs := s.slabs[k := Taken(s.cnt, s.slabs[k])], loc := s.loc[Top(s.slabs[k].free) := Live],
       pcs := s.pcs[t := Idle])
  }

  lemma {:induction false} TakeFromInv(s: State, t: nat, k: nat)
    requires Inv(s) && t < |s.pcs| && s.pcs[t] == SlowAllocating && k in s.slabs && s.slabs[k].free != []
    ensures Inv(TakeFrom(s, t, k))
    ensures var o := Top(s.slabs[k].free); o.slab == k && o in s.loc && s.loc[o].OnSlab?
  {
    hide Magazines, Objects;
    MagazinesPc(s, TakeFrom(s, t, k), t);
    TopOfSlab(s, k);
    TakeFromSlabs(s, t, k);
    TakeFromObjects(s, t, k);
  }

  // The top of a freelist is where it says.
  lemma {:induction false} TopOfSlab(s: State, k: nat)
    requires Objects(s) && k in s.slabs && s.slabs[k].free != []
    ensures var o := Top(s.slabs[k].free); o.slab == k && o in s.loc && s.loc[o] == OnSlab(|s.slabs[k].free| - 1)
  {
    hide RoundsOk, FreeingOk, LocOk, AllOk;
    var free := s.slabs[k].free;
    assert free[|free| - 1] == Top(free);
  }

  lemma {:induction false} TakeFromSlabs(s: State, t: nat, k: nat)
    requires Objects(s) && t < |s.pcs| && k in s.slabs && s.slabs[k].free != []
    ensures var s' := TakeFrom(s, t, k); SlabsOk(s'.slabs, s'.loc)
  {
    hide RoundsOk, FreeingOk, LocOk, AllOk;
    var s', o := TakeFrom(s, t, k), Top(s.slabs[k].free);
    TopOfSlab(s, k);
    forall k', i | k' in s'.slabs && 0 <= i < |s'.slabs[k'].free|
      ensures var x := s'.slabs[k'].free[i]; x.slab == k' && x in s'.loc && s'.loc[x] == OnSlab(i)
    {
      assert s'.slabs[k'].free[i] == s.slabs[k'].free[i];
      assert s.loc[s.slabs[k'].free[i]] == OnSlab(i);
    }
  }

  lemma {:induction false} TakeFromObjects(s: State, t: nat, k: nat)
    requires Objects(s) && t < |s.pcs| && s.pcs[t] == SlowAllocating && k in s.slabs && s.slabs[k].free != []
    ensures Objects(TakeFrom(s, t, k))
  {
    var s', o := TakeFrom(s, t, k), Top(s.slabs[k].free);
    TopOfSlab(s, k);
    TakeFromSlabs(s, t, k);
    hide SlabsOk;
    forall o' | o' in s'.loc ensures PlaceOk(s'.cnt, s'.slabs, s'.mags, s'.pcs, o', s'.loc[o']) {
      assert PlaceOk(s.cnt, s.slabs, s.mags, s.pcs, o', s.loc[o']);
    }
  }

  // Nothing about magazines changes; the thread holds none and becomes idle.
  lemma {:induction false} MagazinesPc(s: State, s': State, t: nat)
    requires Magazines(s) && s'.mags == s.mags && s'.home == s.home && s'.cpus == s.cpus && s'.full == s.full
    requires s'.empty == s.empty
    requires t < |s.pcs| && s'.pcs == s.pcs[t := Idle]
    ensures Magazines(s')
  {
  }

  function AddSlab(s: State, k: nat): State {
    s.(slabs := s.slabs[k := NewSlab(k, s.cnt)],
       loc := map o | o in s.loc.Keys + (set i | 0 <= i < s.cnt :: Obj(k, i)) ::
                if o.slab == k then OnSlab(o.idx) else s.loc[o])
  }

  lemma {:induction false} AddSlabObjects(s: State, k: nat)
    requires Objects(s) && k !in s.slabs
    ensures Objects(AddSlab(s, k))
  {
    var s' := AddSlab(s, k);
    AddSlabLoc(s, k);
    assert SlabsOk(s'.slabs, s'.loc);
    hide SlabsOk, AddSlab;
    forall o | o in s'.loc ensures PlaceOk(s'.cnt, s'.slabs, s'.mags, s'.pcs, o, s'.loc[o]) {
      GrowPcs(s, k);
      if o.slab != k { assert PlaceOk(s.cnt, s.slabs, s.mags, s.pcs, o, s.loc[o]); }
    }
    GrowPcs(s, k);
  }

  lemma {:induction false} AddSlabInv(s: State, k: nat)
    requires Inv(s) && k !in s.slabs
    ensures Inv(AddSlab(s, k))
  {
    hide Magazines, Objects;
    AddSlabObjects(s, k);
    MagazinesSame(s, AddSlab(s, k));
  }

  lemma {:induction false} MagazinesSame(s: State, s': State)
    requires Magazines(s) && s'.mags == s.mags && s'.home == s.home && s'.cpus == s.cpus && s'.full == s.full
    requires s'.empty == s.empty
    requires s'.pcs == s.pcs
    ensures Magazines(s')
  {
  }

  lemma {:induction false} AddSlabLoc(s: State, k: nat)
    requires LocOk(s.cnt, s.slabs, s.mags, s.pcs, s.loc) && k !in s.slabs
    ensures var loc := AddSlab(s, k).loc;
            && (forall o :: o in s.loc ==> o.slab != k && o in loc && loc[o] == s.loc[o])
            && (forall i: nat :: i < s.cnt ==> Obj(k, i) in loc && loc[Obj(k, i)] == OnSlab(i))
            && forall o :: o in loc ==> o in s.loc || (o.slab == k && o.idx < s.cnt && loc[o] == OnSlab(o.idx))
  {
    forall o | o in s.loc ensures o.slab != k {
      assert PlaceOk(s.cnt, s.slabs, s.mags, s.pcs, o, s.loc[o]);
    }
  }

  /** A slab whose freelist is as long as the slab has objects has every one of them on it. */
  lemma {:induction false} WholeSlab(s: State, k: nat, idx: nat)
    requires Objects(s) && k in s.slabs && |s.slabs[k].free| == s.cnt && idx < s.cnt
    ensures Obj(k, idx) in s.loc && s.loc[Obj(k, idx)].OnSlab?
  {
    hide RoundsOk, FreeingOk;
    var free := s.slabs[k].free;
    forall i | 0 <= i < s.cnt
      ensures free[i].slab == k && free[i] in s.loc && s.loc[free[i]] == OnSlab(i) && free[i].idx < s.cnt
    {
      assert PlaceOk(s.cnt, s.slabs, s.mags, s.pcs, free[i], s.loc[free[i]]);
    }
    var xs := seq(s.cnt, i requires 0 <= i < s.cnt => free[i].idx);
    forall i, j | 0 <= i < j < s.cnt ensures xs[i] != xs[j] {
      assert s.loc[free[i]] != s.loc[free[j]];
      assert free[i].slab == free[j].slab;
    }
    Pigeonhole(xs, s.cnt, idx);
    var i :| 0 <= i < s.cnt && xs[i] == idx;
    assert free[i] == Obj(k, idx);
  }

  function PutBack(s: State, t: nat, o: Obj): State
    requires t < |s.pcs| && o.slab in s.slabs
  {
    s.(slabs := s.slabs[o.slab := Returned(s.cnt, s.slabs[o.slab], o)],
       loc := s.loc[o := OnSlab(|s.slabs[o.slab].free|)], pcs := s.pcs[t := Idle])
  }

  /** An object being freed finds room on its slab. */
  lemma {:induction false} RoomOnSlab(s: State, t: nat, o: Obj)
    requires Inv(s) && t < |s.pcs| && FreedBy(s.pcs[t]) == Some(o)
    ensures o in s.loc && s.loc[o] == Freeing(t) && o.slab in s.slabs && |s.slabs[o.slab].free| < s.cnt
  {
    assert PlaceOk(s.cnt, s.slabs, s.mags, s.pcs, o, s.loc[o]);
    if |s.slabs[o.slab].free| == s.cnt { WholeSlab(s, o.slab, o.idx); }
  }

  lemma {:induction false} PutBackInv(s: State, t: nat, o: Obj)
    requires Inv(s) && t < |s.pcs| && s.pcs[t] == SlowFreeing(o)
    ensures o.slab in s.slabs && Inv(PutBack(s, t, o))
  {
    hide Magazines, Objects;
    RoomOnSlab(s, t, o);
    MagazinesPc(s, PutBack(s, t, o), t);
    PutBackObjects(s, t, o);
  }

  lemma {:induction false} PutBackObjects(s: State, t: nat, o: Obj)
    requires Objects(s) && t < |s.pcs| && s.pcs[t] == SlowFreeing(o) && o.slab in s.slabs
    ensures Objects(PutBack(s, t, o))
  {
    var s' := PutBack(s, t, o);
    assert s.loc[o] == Freeing(t);
    assert SlabsOk(s'.slabs, s'.loc);
    hide SlabsOk;
    forall o' | o' in s'.loc ensures PlaceOk(s'.cnt, s'.slabs, s'.mags, s'.pcs, o', s'.loc[o']) {
      assert PlaceOk(s.cnt, s.slabs, s.mags, s.pcs, o', s.loc[o']);
    }
  }

  /** Give a slab's pages back. */
  function Unmap(s: State, k: nat): State {
    s.(slabs := s.slabs - {k}, loc := map o | o in s.loc && o.slab != k :: s.loc[o])
  }

  /** Only a slab none of whose objects is live, being freed or in a magazine is given back. */
  lemma {:induction false} UnmapInv(s: State, k: nat)
    requires Inv(s) && k in s.slabs && s.slabs[k].list == Free
    ensures Inv(Unmap(s, k))
    ensures forall idx: nat :: idx < s.cnt ==> Obj(k, idx) in s.loc && s.loc[Obj(k, idx)].OnSlab?
  {
    hide Magazines;
    var s' := Unmap(s, k);
    forall idx: nat | idx < s.cnt ensures Obj(k, idx) in s.loc && s.loc[Obj(k, idx)].OnSlab? {
      WholeSlab(s, k, idx);
    }
    assert Magazines(s') by { MagazinesSame(s, s'); }
    forall o | o in s.loc && o.slab == k ensures s.loc[o].OnSlab? {
      assert PlaceOk(s.cnt, s.slabs, s.mags, s.pcs, o, s.loc[o]);
      assert o == Obj(k, o.idx);
    }
    assert SlabsOk(s'.slabs, s'.loc);
    hide SlabsOk;
    forall o | o in s'.loc ensures PlaceOk(s'.cnt, s'.slabs, s'.mags, s'.pcs, o, s'.loc[o]) {
      assert PlaceOk(s.cnt, s.slabs, s.mags, s.pcs, o, s.loc[o]);
    }
  }

  // ---------- steps ----------

  datatype Step =
    | BeginAlloc(t: nat, c: nat)             // slab_allocate on CPU c
    | BeginSlowAlloc(t: nat)                 // on a cache without magazines
    | AllocTry(t: nat)                       // the locked part up to the depot
    | AllocLoad(t: nat)                      // load the stolen magazine and take from it
    | AllocSlow(t: nat, k: nat)              // take from slab k
    | AllocGrow(t: nat, k: nat)              // map a new slab k and take from it
    | AllocFail(t: nat)                      // no memory for one
    | BeginFree(t: nat, c: nat, o: Obj)      // slab_free on CPU c
    | BeginSlowFree(t: nat, o: Obj)          // on a cache without magazines
    | FreeTry(t: nat)                        // the first locked part, up to the depot
    | FreeLoad(t: nat)                       // load the empty magazine and put into it
    | MagazineNew(t: nat, g: nat)            // allocate a magazine
    | MagazineFail(t: nat)                   // or fail to
    | FreeRetry(t: nat)                      // the second locked part
    | FreeSlow(t: nat)                       // put back on the slab
    | Reclaim(k: nat)                        // unmap an excess free slab

  // Present and without rounds.
  predicate Drained(s: State, g: Option<nat>) { g.Some? && g.value in s.mags && s.mags[g.value] == [] }

  // Present and with rounds.
  predicate Charged(s: State, g: Option<nat>) { g.Some? && g.value in s.mags && s.mags[g.value] != [] }

  predicate HasList(s: State, list: ListName) { exists k :: k in s.slabs && s.slabs[k].list == list }

  predicate LockFree(s: State, c: nat) { c < |s.cpus| && s.cpus[c].owner.None? }

  /** When a thread can take a step: only what the code itself tests, and whether a lock is free. */
  ghost predicate Enabled(s: State, e: Step) {
    match e
    case BeginAlloc(t, c) => t < |s.pcs| && s.pcs[t] == Idle && c < |s.cpus|
    case BeginSlowAlloc(t) => t < |s.pcs| && s.pcs[t] == Idle && |s.cpus| == 0
    case AllocTry(t) => t < |s.pcs| && s.pcs[t].Allocating? && LockFree(s, s.pcs[t].cpu)
    case AllocLoad(t) => t < |s.pcs| && s.pcs[t].Stolen?
    case AllocSlow(t, k) => t < |s.pcs| && s.pcs[t] == SlowAllocating && k in s.slabs &&
                            (s.slabs[k].list == Partial || (s.slabs[k].list == Free && !HasList(s, Partial)))
    case AllocGrow(t, k) => t < |s.pcs| && s.pcs[t] == SlowAllocating && k !in s.slabs &&
                            !HasList(s, Partial) && !HasList(s, Free)
    case AllocFail(t) => t < |s.pcs| && s.pcs[t] == SlowAllocating && !HasList(s, Partial) && !HasList(s, Free)
    case BeginFree(t, c, o) => t < |s.pcs| && s.pcs[t] == Idle && c < |s.cpus| && o in s.loc && s.loc[o] == Live
    case BeginSlowFree(t, o) => t < |s.pcs| && s.pcs[t] == Idle && |s.cpus| == 0 && o in s.loc && s.loc[o] == Live
    case FreeTry(t) => t < |s.pcs| && s.pcs[t].FreeingFast? && LockFree(s, s.pcs[t].cpu)
    case FreeLoad(t) => t < |s.pcs| && s.pcs[t].Refilling?
    case MagazineNew(t, g) => t < |s.pcs| && s.pcs[t].NeedMagazine? && g !in s.mags
    case MagazineFail(t) => t < |s.pcs| && s.pcs[t].NeedMagazine?
    case FreeRetry(t) => t < |s.pcs| && s.pcs[t].GotMagazine? && LockFree(s, s.pcs[t].cpu)
    case FreeSlow(t) => t < |s.pcs| && s.pcs[t].SlowFreeing?
    case Reclaim(k) => k in s.slabs && s.slabs[k].list == Free
  }

  function Goto(s: State, t: nat, pc: Pc): State
    requires t < |s.pcs|
  {
    s.(pcs := s.pcs[t := pc])
  }

  /** The locked part of an allocation. */
  ghost predicate AllocTried(s: State, t: nat, c: nat, s': State)
    requires t < |s.pcs| && c < |s.cpus|
  {
    var idle := Goto(s, t, Idle);
    if HasRounds(s, c) then s' == Pop(idle, c)
    else if Charged(s, s.cpus[c].previous) then HasRounds(Swap(idle, c), c) && s' == Pop(Swap(idle, c), c)
    else if s.full != [] then s' == Steal(s, t, c)
    else s' == Goto(s, t, SlowAllocating)
  }

  /** Either locked part of a free, with what it does when both magazines are full left open. */
  ghost predicate FreeTried(s: State, t: nat, c: nat, otherwise: State, s': State)
    requires t < |s.pcs| && c < |s.cpus| && FreedBy(s.pcs[t]).Some?
  {
    if HasRoom(s, c) then s' == Push(s, t, c)
    else if Drained(s, s.cpus[c].previous) then HasRoom(Swap(s, c), c) && s' == Push(Swap(s, c), t, c)
    else s' == otherwise
  }

  ghost predicate Next(s: State, e: Step, s': State) {
    Enabled(s, e) &&
    match e
    case BeginAlloc(t, c) => s' == Goto(s, t, Allocating(c))
    case BeginSlowAlloc(t) => s' == Goto(s, t, SlowAllocating)
    case AllocTry(t) => AllocTried(s, t, s.pcs[t].cpu, s')
    case AllocLoad(t) =>
      var c := s.pcs[t].cpu;
      c < |s.cpus| && HasRounds(Loaded1(s, t), c) && s' == Pop(Loaded1(s, t), c)
    case AllocSlow(t, k) => s.slabs[k].free != [] && s' == TakeFrom(s, t, k)
    case AllocGrow(t, k) => AddSlab(s, k).slabs[k].free != [] && s' == TakeFrom(AddSlab(s, k), t, k)
    case AllocFail(t) => s' == Goto(s, t, Idle)
    case BeginFree(t, c, o) => s' == GiveBack(s, t, o, FreeingFast(c, o))
    case BeginSlowFree(t, o) => s' == GiveBack(s, t, o, SlowFreeing(o))
    case FreeTry(t) =>
      var c, o := s.pcs[t].cpu, s.pcs[t].obj;
      FreeTried(s, t, c, if s.empty != [] then TakeEmpty(s, t, c, o) else Goto(s, t, NeedMagazine(c, o)), s')
    case FreeLoad(t) =>
      var c := s.pcs[t].cpu;
      c < |s.cpus| && HasRoom(Loaded2(s, t), c) && s' == Push(Loaded2(s, t), t, c)
    case MagazineNew(t, g) => s' == NewMagazine(s, t, s.pcs[t].cpu, s.pcs[t].obj, g)
    case MagazineFail(t) => s' == Goto(s, t, SlowFreeing(s.pcs[t].obj))
    case FreeRetry(t) => FreeRetried(s, t, s')
    case FreeSlow(t) =>
      var o := s.pcs[t].obj;
      o.slab in s.slabs && |s.slabs[o.slab].free| < s.cnt && s' == PutBack(s, t, o)
    case Reclaim(k) => s' == Unmap(s, k)
  }

  // The stolen magazine is loaded and the lock is free.
  function Loaded1(s: State, t: nat): State
    requires t < |s.pcs| && s.pcs[t].Stolen?
  {
    var c, g := s.pcs[t].cpu, s.pcs[t].mag;
    if c < |s.cpus| then Rotate(s, t, c, g, false, Idle) else s
  }

  // The empty magazine is loaded and the lock is free.
  function Loaded2(s: State, t: nat): State
    requires t < |s.pcs| && (s.pcs[t].Refilling? || s.pcs[t].GotMagazine?)
  {
    var c, g := s.pcs[t].cpu, s.pcs[t].mag;
    if c < |s.cpus| then Rotate(s, t, c, g, true, FreeingFast(c, s.pcs[t].obj)) else s
  }

  /** The second locked part of a free: use what another thread has made room in meanwhile, and forget
      the new magazine, or else load it. */
  ghost predicate FreeRetried(s: State, t: nat, s': State)
    requires t < |s.pcs| && s.pcs[t].GotMagazine? && s.pcs[t].cpu < |s.cpus|
  {
    var c, o, g := s.pcs[t].cpu, s.pcs[t].obj, s.pcs[t].mag;
    if HasRoom(s, c) || Drained(s, s.cpus[c].previous) then FreeTried(Forget(s, t, c, o, g), t, c, s, s')
    else HasRoom(Loaded2(s, t), c) && s' == Push(Loaded2(s, t), t, c)
  }

  // ---------- every step keeps the invariant ----------

  // What the invariant says about one CPU.
  lemma {:induction false} CpuFacts(s: State, c: nat)
    requires Inv(s) && c < |s.cpus|
    ensures s.cpus[c].loaded.Some? ==>
              s.cpus[c].loaded.value in s.mags && |s.mags[s.cpus[c].loaded.value]| <= MAGAZINE_SIZE
    ensures AllOrNothing(s.mags, s.cpus[c].previous)
  {
    hide Objects, DepotsOk, HeldOk, LocksOk, PcsOk, ListsOk;
  }

  lemma {:induction false} AllocTryKeeps(s: State, t: nat, c: nat, s': State)
    requires Inv(s) && Enabled(s, AllocTry(t)) && c == s.pcs[t].cpu && AllocTried(s, t, c, s')
    ensures Inv(s')
  {
    hide Inv;
    var idle := Goto(s, t, Idle);
    CpuFacts(s, c);
    PcInv(s, t, Idle);
    PcInv(s, t, SlowAllocating);
    if HasRounds(s, c) {
      PopInv(idle, c);
    } else if Charged(s, s.cpus[c].previous) {
      SwapInv(idle, c);
      PopInv(Swap(idle, c), c);
    } else if s.full != [] {
      StealInv(s, t, c);
    }
  }

  // What the invariant says about a thread that holds a CPU's lock.
  lemma {:induction false} LockFacts(s: State, t: nat)
    requires Inv(s) && t < |s.pcs| && (s.pcs[t].Stolen? || s.pcs[t].Refilling?)
    ensures var c, toFull := s.pcs[t].cpu, s.pcs[t].Refilling?;
            CanRotate(s, t, c, s.pcs[t].mag, toFull, if toFull then FreeingFast(c, s.pcs[t].obj) else Idle)
    ensures Sized(s.mags, Some(s.pcs[t].mag), if s.pcs[t].Stolen? then MAGAZINE_SIZE else 0)
  {
    hide Objects, DepotsOk, CpusOk, ListsOk;
    assert LockedBy(s.pcs[t]) == Some(s.pcs[t].cpu);
    assert HeldBy(s.pcs[t]) == Some(s.pcs[t].mag);
  }

  /** A stolen magazine always has a round to take. */
  lemma {:induction false} AllocLoadSafe(s: State, t: nat)
    requires Inv(s) && Enabled(s, AllocLoad(t))
    ensures var c := s.pcs[t].cpu; c < |s.cpus| && HasRounds(Loaded1(s, t), c) && Inv(Pop(Loaded1(s, t), c))
  {
    hide Inv;
    LockFacts(s, t);
    RotateInv(s, t, s.pcs[t].cpu, s.pcs[t].mag, false, Idle);
    PopInv(Loaded1(s, t), s.pcs[t].cpu);
  }

  /** An empty magazine from the depot always has room. */
  lemma {:induction false} FreeLoadSafe(s: State, t: nat)
    requires Inv(s) && Enabled(s, FreeLoad(t))
    ensures var c := s.pcs[t].cpu; c < |s.cpus| && HasRoom(Loaded2(s, t), c) && Inv(Push(Loaded2(s, t), t, c))
  {
    hide Inv;
    LockFacts(s, t);
    var c := s.pcs[t].cpu;
    RotateInv(s, t, c, s.pcs[t].mag, true, FreeingFast(c, s.pcs[t].obj));
    PushInv(Loaded2(s, t), t, c);
  }

  lemma {:induction false} FreeTriedKeeps(s: State, t: nat, c: nat, otherwise: State, s': State)
    requires Inv(s) && t < |s.pcs| && s.pcs[t].FreeingFast? && s.pcs[t].cpu == c < |s.cpus| && s.cpus[c].owner.None?
    requires FreeTried(s, t, c, otherwise, s') && (!HasRoom(s, c) && !Drained(s, s.cpus[c].previous) ==> Inv(otherwise))
    ensures Inv(s')
  {
    hide Inv;
    CpuFacts(s, c);
    if HasRoom(s, c) {
      PushInv(s, t, c);
    } else if Drained(s, s.cpus[c].previous) {
      SwapInv(s, c);
      PushInv(Swap(s, c), t, c);
    }
  }

  lemma {:induction false} FreeTryKeeps(s: State, t: nat, s': State)
    requires Inv(s) && Next(s, FreeTry(t), s')
    ensures Inv(s')
  {
    hide Inv, FreeTried;
    var c, o := s.pcs[t].cpu, s.pcs[t].obj;
    CpuFacts(s, c);
    if !HasRoom(s, c) && !Drained(s, s.cpus[c].previous) {
      if s.empty != [] {
        TakeEmptyInv(s, t, c, o);
      } else {
        PcInv(s, t, NeedMagazine(c, o));
      }
    }
    FreeTriedKeeps(s, t, c, if s.empty != [] then TakeEmpty(s, t, c, o) else Goto(s, t, NeedMagazine(c, o)), s');
  }

  // What the invariant says about a thread with a new magazine.
  lemma {:induction false} NewFacts(s: State, t: nat)
    requires Inv(s) && t < |s.pcs| && s.pcs[t].GotMagazine?
    ensures s.pcs[t].cpu < |s.cpus| && HeldBy(s.pcs[t]) == Some(s.pcs[t].mag) && Sized(s.mags, Some(s.pcs[t].mag), 0)
  {
    hide Objects, DepotsOk, CpusOk, ListsOk;
    assert HeldBy(s.pcs[t]) == Some(s.pcs[t].mag);
    assert CpuOf(s.pcs[t]) == Some(s.pcs[t].cpu);
  }

  /** A thread that retakes the lock finds room in a magazine or both of them full. */
  lemma {:induction false} FreeRetrySafe(s: State, t: nat)
    requires Inv(s) && Enabled(s, FreeRetry(t))
    ensures var c := s.pcs[t].cpu;
            !HasRoom(s, c) && !Drained(s, s.cpus[c].previous) ==>
              HasRoom(Loaded2(s, t), c) && Inv(Push(Loaded2(s, t), t, c))
  {
    hide Inv;
    var c := s.pcs[t].cpu;
    CpuFacts(s, c);
    NewFacts(s, t);
    if !HasRoom(s, c) && !Drained(s, s.cpus[c].previous) {
      RotateInv(s, t, c, s.pcs[t].mag, true, FreeingFast(c, s.pcs[t].obj));
      PushInv(Loaded2(s, t), t, c);
    }
  }

  lemma {:induction false} FreeRetryKeeps(s: State, t: nat, s': State)
    requires Inv(s) && Next(s, FreeRetry(t), s')
    ensures Inv(s')
  {
    hide Inv, FreeTried, Push;
    var c, o, g := s.pcs[t].cpu, s.pcs[t].obj, s.pcs[t].mag;
    FreeRetrySafe(s, t);
    if HasRoom(s, c) || Drained(s, s.cpus[c].previous) {
      ForgetInv(s, t, c, o, g);
      FreeTriedKeeps(Forget(s, t, c, o, g), t, c, s, s');
    }
  }

  // What the invariant says about a slab an allocation chooses.
  lemma {:induction false} SlabFacts(s: State, k: nat)
    requires Inv(s) && k in s.slabs
    ensures s.cnt > 0 && (s.slabs[k].list != Full ==> s.slabs[k].free != [])
  {
    hide Objects, Magazines;
  }

  lemma {:induction false} CountPositive(s: State)
    requires Inv(s)
    ensures s.cnt > 0 && PcsOk(s.cpus, s.pcs)
  {
    hide Objects;
  }

  /** Every step keeps the invariant. */
  lemma {:induction false} NextKeepsInv(s: State, e: Step, s': State)
    requires Inv(s) && Next(s, e, s')
    ensures Inv(s')
  {
    hide Inv, AllocTried, FreeTried, FreeRetried, Loaded1, Loaded2, Rotate, Pop, Push, Steal, TakeEmpty, TakeFrom,
         AddSlab, PutBack, Unmap, NewMagazine, GiveBack;
    CountPositive(s);
    match e
    case BeginAlloc(t, c) => PcInv(s, t, Allocating(c));
    case BeginSlowAlloc(t) => PcInv(s, t, SlowAllocating);
    case AllocTry(t) => AllocTryKeeps(s, t, s.pcs[t].cpu, s');
    case AllocLoad(t) => AllocLoadSafe(s, t);
    case AllocSlow(t, k) => TakeFromInv(s, t, k);
    case AllocGrow(t, k) =>
      AddSlabInv(s, k);
      GrowPcs(s, k);
      TakeFromInv(AddSlab(s, k), t, k);
    case AllocFail(t) => PcInv(s, t, Idle);
    case BeginFree(t, c, o) => GiveBackInv(s, t, o, FreeingFast(c, o));
    case BeginSlowFree(t, o) => GiveBackInv(s, t, o, SlowFreeing(o));
    case FreeTry(t) => FreeTryKeeps(s, t, s');
    case FreeLoad(t) => FreeLoadSafe(s, t);
    case MagazineNew(t, g) => NewMagazineInv(s, t, s.pcs[t].cpu, s.pcs[t].obj, g);
    case MagazineFail(t) => PcInv(s, t, SlowFreeing(s.pcs[t].obj));
    case FreeRetry(t) => FreeRetryKeeps(s, t, s');
    case FreeSlow(t) => PutBackInv(s, t, s.pcs[t].obj);
    case Reclaim(k) => UnmapInv(s, k);
  }

  lemma {:induction false} GrowPcs(s: State, k: nat)
    ensures AddSlab(s, k).pcs == s.pcs && AddSlab(s, k).slabs == s.slabs[k := NewSlab(k, s.cnt)]
    ensures AddSlab(s, k).cnt == s.cnt && AddSlab(s, k).mags == s.mags
  {
  }

  /** No step is ever stuck: no pop finds a magazine or freelist empty, no push finds one full. */
  lemma {:induction false} NextIsPossible(s: State, e: Step) returns (s': State)
    requires Inv(s) && Enabled(s, e)
    ensures Next(s, e, s')
  {
    hide Inv, Loaded1, Loaded2, Rotate, Pop, Push, Steal, TakeEmpty, TakeFrom, AddSlab, PutBack, Unmap, NewMagazine,
         GiveBack;
    CountPositive(s);
    match e
    case BeginAlloc(t, c) => s' := Goto(s, t, Allocating(c));
    case BeginSlowAlloc(t) => s' := Goto(s, t, SlowAllocating);
    case AllocTry(t) => s' := AllocTryPossible(s, t, s.pcs[t].cpu);
    case AllocLoad(t) =>
      AllocLoadSafe(s, t);
      s' := Pop(Loaded1(s, t), s.pcs[t].cpu);
    case AllocSlow(t, k) =>
      SlabFacts(s, k);
      s' := TakeFrom(s, t, k);
    case AllocGrow(t, k) =>
      GrowPcs(s, k);
      s' := TakeFrom(AddSlab(s, k), t, k);
    case AllocFail(t) => s' := Goto(s, t, Idle);
    case BeginFree(t, c, o) => s' := GiveBack(s, t, o, FreeingFast(c, o));
    case BeginSlowFree(t, o) => s' := GiveBack(s, t, o, SlowFreeing(o));
    case FreeTry(t) =>
      var c, o := s.pcs[t].cpu, s.pcs[t].obj;
      s' := FreeTriedPossible(s, t, c, if s.empty != [] then TakeEmpty(s, t, c, o) else Goto(s, t, NeedMagazine(c, o)));
    case FreeLoad(t) =>
      s' := FreeLoadPossible(s, t);
    case MagazineNew(t, g) => s' := NewMagazine(s, t, s.pcs[t].cpu, s.pcs[t].obj, g);
    case MagazineFail(t) => s' := Goto(s, t, SlowFreeing(s.pcs[t].obj));
    case FreeRetry(t) => s' := FreeRetryPossible(s, t);
    case FreeSlow(t) =>
      RoomOnSlab(s, t, s.pcs[t].obj);
      s' := PutBack(s, t, s.pcs[t].obj);
    case Reclaim(k) => s' := Unmap(s, k);
  }

  lemma {:induction false} AllocTryPossible(s: State, t: nat, c: nat) returns (s': State)
    requires t < |s.pcs| && c < |s.cpus|
    ensures AllocTried(s, t, c, s')
  {
    var idle := Goto(s, t, Idle);
    if HasRounds(s, c) { s' := Pop(idle, c); }
    else if Charged(s, s.cpus[c].previous) { s' := Pop(Swap(idle, c), c); }
    else if s.full != [] { s' := Steal(s, t, c); }
    else { s' := Goto(s, t, SlowAllocating); }
  }

  lemma {:induction false} FreeTriedPossible(s: State, t: nat, c: nat, otherwise: State) returns (s': State)
    requires t < |s.pcs| && c < |s.cpus| && FreedBy(s.pcs[t]).Some?
    ensures FreeTried(s, t, c, otherwise, s')
  {
    if HasRoom(s, c) { s' := Push(s, t, c); }
    else if Drained(s, s.cpus[c].previous) { s' := Push(Swap(s, c), t, c); }
    else { s' := otherwise; }
  }

  lemma {:induction false} FreeLoadPossible(s: State, t: nat) returns (s': State)
    requires Inv(s) && Enabled(s, FreeLoad(t))
    ensures Next(s, FreeLoad(t), s')
  {
    hide Inv;
    FreeLoadSafe(s, t);
    s' := Push(Loaded2(s, t), t, s.pcs[t].cpu);
  }

  lemma {:induction false} FreeRetryPossible(s: State, t: nat) returns (s': State)
    requires Inv(s) && Enabled(s, FreeRetry(t))
    ensures FreeRetried(s, t, s')
  {
    hide Inv, FreeTried;
    var c, o, g := s.pcs[t].cpu, s.pcs[t].obj, s.pcs[t].mag;
    FreeRetrySafe(s, t);
    if HasRoom(s, c) || Drained(s, s.cpus[c].previous) {
      s' := FreeTriedPossible(Forget(s, t, c, o, g), t, c, s);
    } else {
      s' := Push(Loaded2(s, t), t, c);
    }
  }

  // ---------- what clients see ----------

  ghost predicate IsLive(s: State, o: Obj) { o in s.loc && s.loc[o] == Live }

  function TopOf(s: State, g: Option<nat>): Option<Obj> {
    if g.Some? && g.value in s.mags && s.mags[g.value] != [] then Some(Top(s.mags[g.value])) else None
  }

  /** The object a step hands to its caller. */
  function Result(s: State, e: Step): Option<Obj>
    requires Enabled(s, e)
  {
    match e
    case AllocTry(t) =>
      var cpu := s.cpus[s.pcs[t].cpu];
      if TopOf(s, cpu.loaded).Some? then TopOf(s, cpu.loaded) else TopOf(s, cpu.previous)
    case AllocLoad(t) => TopOf(s, Some(s.pcs[t].mag))
    case AllocSlow(t, k) => if s.slabs[k].free != [] then Some(Top(s.slabs[k].free)) else None
    case AllocGrow(t, k) => if s.cnt > 0 then Some(Obj(k, s.cnt - 1)) else None
    case _ => None
  }

  /** The object a step's caller gives back. */
  function GivenBack(e: Step): Option<Obj> {
    match e
    case BeginFree(_, _, o) => Some(o)
    case BeginSlowFree(_, o) => Some(o)
    case _ => None
  }

  /** Exactly the result becomes live, which it was not, and exactly what is given back stops. */
  ghost predicate LiveStep(s: State, result: Option<Obj>, given: Option<Obj>, s': State) {
    && (result.Some? ==> !IsLive(s, result.value) && IsLive(s', result.value) && result.value.slab in s'.slabs)
    && (given.Some? ==> IsLive(s, given.value) && !IsLive(s', given.value))
    && forall o :: Some(o) != result && Some(o) != given ==> (IsLive(s', o) <==> IsLive(s, o))
  }

  lemma {:induction false} PopLive(s: State, c: nat)
    requires Inv(s) && HasRounds(s, c)
    ensures var o := Top(s.mags[s.cpus[c].loaded.value]); LiveStep(s, Some(o), None, Pop(s, c))
  {
    hide Magazines, SlabsOk, FreeingOk, AllOk;
    var g := s.cpus[c].loaded.value;
    var o := Top(s.mags[g]);
    assert s.loc[o] == Round(g, |s.mags[g]| - 1);
    assert PlaceOk(s.cnt, s.slabs, s.mags, s.pcs, o, s.loc[o]);
  }

  lemma {:induction false} PushLive(s: State, t: nat, c: nat)
    requires Inv(s) && HasRoom(s, c) && t < |s.pcs| && FreedBy(s.pcs[t]).Some?
    ensures LiveStep(s, None, None, Push(s, t, c))
  {
    hide Magazines, SlabsOk, RoundsOk, AllOk;
    assert s.loc[FreedBy(s.pcs[t]).value] == Freeing(t);
  }

  lemma {:induction false} AllocTryLive(s: State, t: nat, s': State)
    requires Inv(s) && Next(s, AllocTry(t), s')
    ensures LiveStep(s, Result(s, AllocTry(t)), None, s')
  {
    hide Inv;
    var c := s.pcs[t].cpu;
    var idle := Goto(s, t, Idle);
    CpuFacts(s, c);
    PcInv(s, t, Idle);
    if HasRounds(s, c) {
      PopLive(idle, c);
    } else if Charged(s, s.cpus[c].previous) {
      SwapInv(idle, c);
      PopLive(Swap(idle, c), c);
    }
  }

  lemma {:induction false} AllocLoadLive(s: State, t: nat, s': State)
    requires Inv(s) && Next(s, AllocLoad(t), s')
    ensures LiveStep(s, Result(s, AllocLoad(t)), None, s')
  {
    hide Inv;
    LockFacts(s, t);
    RotateInv(s, t, s.pcs[t].cpu, s.pcs[t].mag, false, Idle);
    PopLive(Loaded1(s, t), s.pcs[t].cpu);
  }

  lemma {:induction false} TakeFromLive(s: State, t: nat, k: nat)
    requires Inv(s) && t < |s.pcs| && s.pcs[t] == SlowAllocating && k in s.slabs && s.slabs[k].free != []
    ensures LiveStep(s, Some(Top(s.slabs[k].free)), None, TakeFrom(s, t, k))
  {
    hide Inv;
    TakeFromInv(s, t, k);
  }

  lemma {:induction false} AllocGrowLive(s: State, t: nat, k: nat, s': State)
    requires Inv(s) && Next(s, AllocGrow(t, k), s')
    ensures LiveStep(s, Result(s, AllocGrow(t, k)), None, s')
  {
    hide Objects, Magazines;
    AddSlabInv(s, k);
    TakeFromLive(AddSlab(s, k), t, k);
    assert Objects(s);
    hide Inv, TakeFrom;
    GrowLive(s, k);
  }

  lemma {:induction false} GrowLive(s: State, k: nat)
    requires Objects(s) && k !in s.slabs
    ensures forall o :: IsLive(AddSlab(s, k), o) <==> IsLive(s, o)
    ensures forall i :: !IsLive(s, Obj(k, i))
  {
    hide SlabsOk, RoundsOk, FreeingOk, AllOk;
    AddSlabLoc(s, k);
  }

  lemma {:induction false} FreeTriedLive(s: State, t: nat, c: nat, otherwise: State, s': State)
    requires Inv(s) && t < |s.pcs| && FreedBy(s.pcs[t]).Some? && c < |s.cpus| && s.cpus[c].owner.None?
    requires FreeTried(s, t, c, otherwise, s') && LiveStep(s, None, None, otherwise)
    ensures LiveStep(s, None, None, s')
  {
    hide Inv;
    CpuFacts(s, c);
    if HasRoom(s, c) {
      PushLive(s, t, c);
    } else if Drained(s, s.cpus[c].previous) {
      SwapInv(s, c);
      PushLive(Swap(s, c), t, c);
    }
  }

  lemma {:induction false} FreeLoadLive(s: State, t: nat, s': State)
    requires Inv(s) && Next(s, FreeLoad(t), s')
    ensures LiveStep(s, None, None, s')
  {
    hide Inv;
    LockFacts(s, t);
    var c := s.pcs[t].cpu;
    RotateInv(s, t, c, s.pcs[t].mag, true, FreeingFast(c, s.pcs[t].obj));
    PushLive(Loaded2(s, t), t, c);
  }

  lemma {:induction false} FreeRetryLive(s: State, t: nat, s': State)
    requires Inv(s) && Next(s, FreeRetry(t), s')
    ensures LiveStep(s, None, None, s')
  {
    hide Inv, FreeTried;
    var c, o, g := s.pcs[t].cpu, s.pcs[t].obj, s.pcs[t].mag;
    CpuFacts(s, c);
    NewFacts(s, t);
    if HasRoom(s, c) || Drained(s, s.cpus[c].previous) {
      ForgetInv(s, t, c, o, g);
      FreeTriedLive(Forget(s, t, c, o, g), t, c, s, s');
    } else {
      RotateInv(s, t, c, g, true, FreeingFast(c, o));
      PushLive(Loaded2(s, t), t, c);
    }
  }

  lemma {:induction false} PutBackLive(s: State, t: nat, s': State)
    requires Inv(s) && Next(s, FreeSlow(t), s')
    ensures LiveStep(s, None, None, s')
  {
    hide Inv;
    RoomOnSlab(s, t, s.pcs[t].obj);
  }

  lemma {:induction false} UnmapLive(s: State, k: nat)
    requires Inv(s) && k in s.slabs && s.slabs[k].list == Free
    ensures LiveStep(s, None, None, Unmap(s, k))
  {
    hide Magazines, SlabsOk, RoundsOk, FreeingOk, AllOk;
    UnmapInv(s, k);
    forall o | IsLive(s, o) ensures o.slab != k {
      assert PlaceOk(s.cnt, s.slabs, s.mags, s.pcs, o, s.loc[o]);
      assert o == Obj(o.slab, o.idx);
    }
  }

  /** No step hands out an object that is live, or takes one from a client that did not give it back. */
  lemma {:induction false} NextLive(s: State, e: Step, s': State)
    requires Inv(s) && Next(s, e, s')
    ensures LiveStep(s, Result(s, e), GivenBack(e), s')
  {
    hide Inv, AllocTried, FreeTried, FreeRetried, Loaded1, Loaded2, Rotate, Pop, Push, AddSlab, Unmap, PutBack,
         TakeFrom, TopOf;
    match e
    case AllocTry(t) => AllocTryLive(s, t, s');
    case AllocLoad(t) => AllocLoadLive(s, t, s');
    case AllocSlow(t, k) => TakeFromLive(s, t, k);
    case AllocGrow(t, k) => AllocGrowLive(s, t, k, s');
    case FreeTry(t) =>
      var c, o := s.pcs[t].cpu, s.pcs[t].obj;
      FreeTriedLive(s, t, c, if s.empty != [] then TakeEmpty(s, t, c, o) else Goto(s, t, NeedMagazine(c, o)), s');
    case FreeLoad(t) => FreeLoadLive(s, t, s');
    case FreeRetry(t) => FreeRetryLive(s, t, s');
    case FreeSlow(t) => PutBackLive(s, t, s');
    case Reclaim(k) => UnmapLive(s, k);
    case _ =>
  }

  // ---------- runs ----------

  /** A cache nothing has been allocated from. */
  ghost predicate Init(s: State) {
    && s.cnt > 0 && s.slabs == map[] && s.mags == map[] && s.loc == map[] && s.home == map[]
    && s.full == [] && s.empty == []
    && (forall t :: 0 <= t < |s.pcs| ==> s.pcs[t] == Idle)
    && forall c :: 0 <= c < |s.cpus| ==> s.cpus[c] == Cpu(None, None, None)
  }

  ghost predicate Run(states: seq<State>, steps: seq<Step>) {
    && |states| == |steps| + 1 && Init(states[0])
    && forall i :: 0 <= i < |steps| ==> Next(states[i], steps[i], states[i + 1])
  }

  lemma {:induction false} InitInv(s: State)
    requires Init(s)
    ensures Inv(s)
  {
  }

  /** Every state of every run satisfies the invariant. */
  lemma {:induction false} RunInv(states: seq<State>, steps: seq<Step>, n: nat)
    requires Run(states, steps) && n <= |steps|
    ensures Inv(states[n])
  {
    hide Inv, Init, Next;
    if n == 0 {
      InitInv(states[0]);
    } else {
      RunInv(states, steps, n - 1);
      NextKeepsInv(states[n - 1], steps[n - 1], states[n]);
    }
  }

  /** The objects clients have been given and have not given back. */
  ghost function Outstanding(states: seq<State>, steps: seq<Step>, n: nat): set<Obj>
    requires Run(states, steps) && n <= |steps|
  {
    if n == 0 then {}
    else
      var before := Outstanding(states, steps, n - 1);
      assert Next(states[n - 1], steps[n - 1], states[n]);
      var result := Result(states[n - 1], steps[n - 1]);
      if GivenBack(steps[n - 1]).Some? then before - {GivenBack(steps[n - 1]).value}
      else if result.Some? then before + {result.value} else before
  }

  /** In every run the live objects are exactly those outstanding. */
  lemma {:induction false} RunLive(states: seq<State>, steps: seq<Step>, n: nat)
    requires Run(states, steps) && n <= |steps|
    ensures forall o :: o in Outstanding(states, steps, n) <==> IsLive(states[n], o)
  {
    hide Inv, Next, LiveStep, Result;
    if n > 0 {
      RunLive(states, steps, n - 1);
      RunInv(states, steps, n - 1);
      assert Next(states[n - 1], steps[n - 1], states[n]);
      EnabledNow(states[n - 1], steps[n - 1], states[n]);
      NextLive(states[n - 1], steps[n - 1], states[n]);
      LiveParts(states[n - 1], Result(states[n - 1], steps[n - 1]), GivenBack(steps[n - 1]), states[n]);
      NotBoth(states[n - 1], steps[n - 1]);
    }
  }

  lemma {:induction false} EnabledNow(s: State, e: Step, s': State)
    requires Next(s, e, s')
    ensures Enabled(s, e)
  {
  }

  lemma {:induction false} NotBoth(s: State, e: Step)
    requires Enabled(s, e)
    ensures GivenBack(e).Some? ==> Result(s, e).None?
  {
  }

  lemma {:induction false} LiveParts(s: State, result: Option<Obj>, given: Option<Obj>, s': State)
    requires LiveStep(s, result, given, s')
    ensures result.Some? ==> !IsLive(s, result.value) && IsLive(s', result.value) && result.value.slab in s'.slabs
    ensures given.Some? ==> IsLive(s, given.value) && !IsLive(s', given.value)
    ensures forall o :: Some(o) != result && Some(o) != given ==> (IsLive(s', o) <==> IsLive(s, o))
  {
  }

  /** In every run an allocation returns an object that no client has, in a slab that is mapped. */
  lemma {:induction false} RunReturnsFresh(states: seq<State>, steps: seq<Step>, n: nat)
    requires Run(states, steps) && n < |steps|
    ensures Enabled(states[n], steps[n])
    ensures Result(states[n], steps[n]).Some? ==>
              var o := Result(states[n], steps[n]).value;
              && o !in Outstanding(states, steps, n) && o in Outstanding(states, steps, n + 1)
              && o.slab in states[n + 1].slabs
  {
    hide Inv, Next, LiveStep, Result;
    RunLive(states, steps, n);
    RunLive(states, steps, n + 1);
    RunInv(states, steps, n);
    assert Next(states[n], steps[n], states[n + 1]);
    EnabledNow(states[n], steps[n], states[n + 1]);
    NextLive(states[n], steps[n], states[n + 1]);
    LiveParts(states[n], Result(states[n], steps[n]), GivenBack(steps[n]), states[n + 1]);
  }

  /** An object really is at a place. */
  ghost predicate Occurs(s: State, o: Obj, p: Place) {
    match p
    case OnSlab(i) => exists k :: k in s.slabs && i < |s.slabs[k].free| && s.slabs[k].free[i] == o
    case Round(g, i) => g in s.mags && i < |s.mags[g]| && s.mags[g][i] == o
    case Live => IsLive(s, o)
    case Freeing(t) => t < |s.pcs| && FreedBy(s.pcs[t]) == Some(o)
  }

  /** Every object of every mapped slab is in exactly one place: with a client, on its way back, on its
      own slab's freelist, or a round of one magazine. */
  lemma {:induction false} OnePlace(s: State, o: Obj)
    requires Inv(s) && o.slab in s.slabs && o.idx < s.cnt
    ensures o in s.loc && Occurs(s, o, s.loc[o]) && forall p :: Occurs(s, o, p) ==> p == s.loc[o]
  {
    hide Magazines;
    assert Obj(o.slab, o.idx) in s.loc;
    assert PlaceOk(s.cnt, s.slabs, s.mags, s.pcs, o, s.loc[o]);
    forall p | Occurs(s, o, p) ensures p == s.loc[o] {
      match p
      case OnSlab(i) =>
        var k :| k in s.slabs && i < |s.slabs[k].free| && s.slabs[k].free[i] == o;
        assert s.loc[s.slabs[k].free[i]] == OnSlab(i);
      case Round(g, i) => assert s.loc[s.mags[g][i]] == Round(g, i);
      case Live =>
      case Freeing(t) => assert s.loc[FreedBy(s.pcs[t]).value] == Freeing(t);
    }
  }

  /** In every run the objects of a slab about to be unmapped are all on its freelist. */
  lemma {:induction false} RunUnmapsIdleSlabs(states: seq<State>, steps: seq<Step>, n: nat, k: nat, idx: nat)
    requires Run(states, steps) && n < |steps| && steps[n] == Reclaim(k) && idx < states[n].cnt
    ensures Obj(k, idx) in states[n].loc && states[n].loc[Obj(k, idx)].OnSlab?
  {
    hide Inv;
    RunInv(states, steps, n);
    assert Next(states[n], steps[n], states[n + 1]);
    UnmapInv(states[n], k);
  }

  /** In every run, on every CPU, the previous magazine is absent, empty or full; the depot of full
      magazines holds only full ones and the depot of empty magazines only empty ones. */
  lemma {:induction false} RunMagazines(states: seq<State>, steps: seq<Step>, n: nat)
    requires Run(states, steps) && n <= |steps|
    ensures var s := states[n];
            && (forall c :: 0 <= c < |s.cpus| ==> AllOrNothing(s.mags, s.cpus[c].previous))
            && (forall i :: 0 <= i < |s.full| ==> Sized(s.mags, Some(s.full[i]), MAGAZINE_SIZE))
            && forall i :: 0 <= i < |s.empty| ==> Sized(s.mags, Some(s.empty[i]), 0)
  {
    hide Objects;
    RunInv(states, steps, n);
  }

  // ---------- which way a call goes ----------

  // The rounds of a magazine, or none if there is no magazine.
  function RoundsIn(s: State, g: Option<nat>): seq<Obj> { if g.Some? && g.value in s.mags then s.mags[g.value] else [] }

  // The step ends the call with object `o`, out of a magazine of the CPU; slabs and depots are as they were.
  ghost predicate TakesRound(s: State, t: nat, o: Obj, s': State) {
    && t < |s'.pcs| && s'.pcs[t] == Idle && IsLive(s', o) && !IsLive(s, o)
    && s'.slabs == s.slabs && s'.full == s.full && s'.empty == s.empty
  }

  /** An allocation takes the last round of the loaded magazine; if that has none, the last round of the previous
      one; if that has none either, the top magazine of the depot of full ones; and goes on to the slabs exactly
      when there is none. */
  lemma {:induction false} AllocChooses(s: State, t: nat, s': State)
    requires Inv(s) && Next(s, AllocTry(t), s')
    ensures var c := s.pcs[t].cpu;
            var l, p := RoundsIn(s, s.cpus[c].loaded), RoundsIn(s, s.cpus[c].previous);
            && (l != [] ==> TakesRound(s, t, l[|l| - 1], s'))
            && (l == [] && p != [] ==> TakesRound(s, t, p[|p| - 1], s'))
            && (l == p == [] && s.full != [] ==>
                  && s'.pcs == s.pcs[t := Stolen(c, s.full[|s.full| - 1])] && s'.full == s.full[..|s.full| - 1]
                  && s'.slabs == s.slabs && s'.mags == s.mags && s'.loc == s.loc)
            && (l == p == [] && s.full == [] ==> s' == s.(pcs := s.pcs[t := SlowAllocating]))
  {
    hide Inv, LiveStep;
    var c := s.pcs[t].cpu;
    CpuFacts(s, c);
    NextLive(s, AllocTry(t), s');
    LiveParts(s, Result(s, AllocTry(t)), None, s');
  }

  /** A free goes into the loaded magazine if that has fewer than eight rounds; into the previous one if that is
      empty; else into the top magazine of the depot of empty ones; and asks for a new magazine exactly when
      there is none. */
  lemma {:induction false} FreeChooses(s: State, t: nat, s': State)
    requires Inv(s) && Next(s, FreeTry(t), s')
    ensures var c, o, cpu := s.pcs[t].cpu, s.pcs[t].obj, s.cpus[s.pcs[t].cpu];
            var room := cpu.loaded.Some? && |RoundsIn(s, cpu.loaded)| < 8;
            var spare := cpu.previous.Some? && RoundsIn(s, cpu.previous) == [];
            && (room ==> s'.pcs[t] == Idle && s'.cpus == s.cpus &&
                         RoundsIn(s', cpu.loaded) == RoundsIn(s, cpu.loaded) + [o])
            && (!room && spare ==> s'.pcs[t] == Idle && s'.cpus[c].loaded == cpu.previous &&
                                   s'.cpus[c].previous == cpu.loaded && RoundsIn(s', cpu.previous) == [o])
            && (room || spare ==> s'.slabs == s.slabs && s'.full == s.full && s'.empty == s.empty)
            && (!room && !spare && s.empty != [] ==>
                  && s'.pcs == s.pcs[t := Refilling(c, o, s.empty[|s.empty| - 1])]
                  && s'.empty == s.empty[..|s.empty| - 1] && s'.slabs == s.slabs && s'.mags == s.mags)
            && (!room && !spare && s.empty == [] ==> s' == s.(pcs := s.pcs[t := NeedMagazine(c, o)]))
  {
    hide Inv;
    CpuFacts(s, s.pcs[t].cpu);
  }

  /** Whatever thread allocates next on a CPU gets the object that was freed there last. */
  lemma {:induction false} LastInFirstOut(s: State, t: nat, s1: State, u: nat, s2: State, s3: State)
    requires Inv(s) && Next(s, FreeTry(t), s1) && s1.pcs[t] == Idle
    requires Next(s1, BeginAlloc(u, s.pcs[t].cpu), s2) && Next(s2, AllocTry(u), s3)
    ensures TakesRound(s2, u, s.pcs[t].obj, s3)
  {
    hide Inv;
    NextKeepsInv(s, FreeTry(t), s1);
    NextKeepsInv(s1, BeginAlloc(u, s.pcs[t].cpu), s2);
    FreeChooses(s, t, s1);
    AllocChooses(s2, u, s3);
  }

  /** On the slow path an allocation takes the last object of a slab's freelist, and a free puts the object
      there; no other slab and no magazine changes. */
  lemma {:induction false} SlowOutcome(s: State, t: nat, k: nat, s': State)
    requires Inv(s) && t < |s.pcs|
    requires || Next(s, AllocSlow(t, k), s')
             || (s.pcs[t].SlowFreeing? && s.pcs[t].obj.slab == k && Next(s, FreeSlow(t), s'))
    ensures k in s.slabs && s'.slabs.Keys == s.slabs.Keys && s'.mags == s.mags && s'.pcs == s.pcs[t := Idle]
    ensures forall j :: j in s.slabs && j != k ==> s'.slabs[j] == s.slabs[j]
    ensures var free, free' := s.slabs[k].free, s'.slabs[k].free;
            if s.pcs[t].SlowFreeing? then free' == free + [s.pcs[t].obj] && !IsLive(s', s.pcs[t].obj)
            else free != [] && free' == free[..|free| - 1] && IsLive(s', free[|free| - 1])
  {
    hide Objects, Magazines;
  }

  /** The slow path turns to a slab on the free list only when none is partial, and to a new one, or to failure,
      only when none is on either. */
  lemma {:induction false} SlowChooses(s: State, t: nat, k: nat, s': State)
    requires Inv(s)
    ensures Next(s, AllocSlow(t, k), s') ==>
              && k in s.slabs && s.slabs[k].free != []
              && (|s.slabs[k].free| == s.cnt > 1 ==>
                    forall j :: j in s.slabs ==> s.slabs[j].free == [] || |s.slabs[j].free| == s.cnt)
    ensures Next(s, AllocGrow(t, k), s') ==> k !in s.slabs
    ensures Next(s, AllocGrow(t, k), s') || Next(s, AllocFail(t), s') ==>
              forall j :: j in s.slabs ==> s.slabs[j].free == []
  {
    hide Objects, Magazines;
    assert forall j :: j in s.slabs && s.slabs[j].list == Partial ==> HasList(s, Partial);
    assert forall j :: j in s.slabs && s.slabs[j].list == Free ==> HasList(s, Free);
  }

  /** In every run a slab is on the full list exactly when it has no free object, on the free list exactly when
      all of its objects are free, and on the partial list otherwise. */
  lemma {:induction false} RunListsSlabs(states: seq<State>, steps: seq<Step>, n: nat, k: nat)
    requires Run(states, steps) && n <= |steps| && k in states[n].slabs
    ensures var s := states[n];
            && (s.slabs[k].list == Full <==> s.slabs[k].free == [])
            && (s.slabs[k].list == Free <==> |s.slabs[k].free| == s.cnt)
            && (s.slabs[k].list == Partial <==> 0 < |s.slabs[k].free| < s.cnt)
  {
    hide Objects, Magazines;
    RunInv(states, steps, n);
  }

  // ---------- magazines that get lost ----------

  predicate IsLost(s: State, g: nat) { g in s.home && s.home[g] == Lost }

  /** The thread allocated magazine `g`, retook the lock and found room after all. */
  predicate Forgets(s: State, e: Step, g: nat) {
    && e.FreeRetry? && e.t < |s.pcs| && s.pcs[e.t].GotMagazine? && s.pcs[e.t].mag == g && s.pcs[e.t].cpu < |s.cpus|
    && (HasRoom(s, s.pcs[e.t].cpu) || Drained(s, s.cpus[s.pcs[e.t].cpu].previous))
  }

  // The same magazines are lost, and their rounds are as they were.
  ghost predicate SameLost(s: State, s': State) {
    forall g :: (IsLost(s', g) <==> IsLost(s, g)) && (IsLost(s, g) ==> Rounds(s', g) == Rounds(s, g))
  }

  function Rounds(s: State, g: nat): seq<Obj> { if g in s.mags then s.mags[g] else [] }

  // The CPU's loaded magazine, if any, is where it should be.
  ghost predicate LoadedHome(s: State, c: nat) {
    c < |s.cpus| && s.cpus[c].loaded.Some? ==> s.cpus[c].loaded.value in s.home && !IsLost(s, s.cpus[c].loaded.value)
  }

  lemma {:induction false} PopSameLost(s: State, c: nat)
    requires HasRounds(s, c) && LoadedHome(s, c)
    ensures SameLost(s, Pop(s, c))
  {
  }

  lemma {:induction false} PushSameLost(s: State, t: nat, c: nat)
    requires HasRoom(s, c) && LoadedHome(s, c) && t < |s.pcs| && FreedBy(s.pcs[t]).Some?
    ensures SameLost(s, Push(s, t, c))
  {
  }

  lemma {:induction false} SwapSameLost(s: State, c: nat)
    requires Inv(s) && c < |s.cpus| && s.cpus[c].previous.Some?
    ensures SameLost(s, Swap(s, c)) && LoadedHome(Swap(s, c), c)
  {
    hide Objects, ListsOk, DepotsOk, HeldOk, LocksOk, PcsOk;
    assert s.cpus[c].loaded.Some? ==> s.home[s.cpus[c].loaded.value] == Loaded(c);
    assert s.home[s.cpus[c].previous.value] == Previous(c);
  }

  lemma {:induction false} RotateSameLost(s: State, t: nat, c: nat, g: nat, toFull: bool, pc: Pc)
    requires Inv(s) && t < |s.pcs| && c < |s.cpus| && HeldBy(s.pcs[t]) == Some(g)
    ensures SameLost(s, Rotate(s, t, c, g, toFull, pc)) && LoadedHome(Rotate(s, t, c, g, toFull, pc), c)
  {
    hide Objects, ListsOk, DepotsOk, LocksOk, PcsOk;
    assert s.home[g] == Held(t);
    assert s.cpus[c].loaded.Some? ==> s.home[s.cpus[c].loaded.value] == Loaded(c);
    assert s.cpus[c].previous.Some? ==> s.home[s.cpus[c].previous.value] == Previous(c);
  }

  lemma {:induction false} DepotSameLost(s: State, t: nat, c: nat, o: Obj)
    requires Inv(s) && t < |s.pcs| && c < |s.cpus|
    ensures s.full != [] ==> SameLost(s, Steal(s, t, c))
    ensures s.empty != [] ==> SameLost(s, TakeEmpty(s, t, c, o))
  {
    hide Objects, ListsOk, CpusOk, HeldOk, LocksOk, PcsOk;
    assert s.full != [] ==> s.home[Top(s.full)] == InFull(|s.full| - 1);
    assert s.empty != [] ==> s.home[Top(s.empty)] == InEmpty(|s.empty| - 1);
  }

  lemma {:induction false} LoadedIsHome(s: State, c: nat)
    requires Inv(s) && c < |s.cpus|
    ensures LoadedHome(s, c)
  {
    hide Objects, ListsOk, DepotsOk, HeldOk, LocksOk, PcsOk;
  }

  lemma {:induction false} LostTrans(s: State, s1: State, s2: State)
    requires SameLost(s, s1) && SameLost(s1, s2)
    ensures SameLost(s, s2)
  {
  }

  lemma {:induction false} AllocTryLost(s: State, t: nat, s': State)
    requires Inv(s) && Next(s, AllocTry(t), s')
    ensures SameLost(s, s')
  {
    hide Inv, SameLost;
    var c := s.pcs[t].cpu;
    var idle := Goto(s, t, Idle);
    LoadedIsHome(s, c);
    GotoLost(s, t, Idle, c);
    GotoLost(s, t, SlowAllocating, c);
    if HasRounds(s, c) {
      PopSameLost(idle, c);
      LostTrans(s, idle, s');
    } else if Charged(s, s.cpus[c].previous) {
      SwapSameLost(s, c);
      assert Swap(idle, c) == Goto(Swap(s, c), t, Idle);
      GotoLost(Swap(s, c), t, Idle, c);
      PopSameLost(Swap(idle, c), c);
      LostTrans(s, Swap(s, c), Swap(idle, c));
      LostTrans(s, Swap(idle, c), s');
    } else {
      DepotSameLost(s, t, c, Obj(0, 0));
    }
  }

  lemma {:induction false} GotoLost(s: State, t: nat, pc: Pc, c: nat)
    requires t < |s.pcs|
    ensures SameLost(s, Goto(s, t, pc)) && (LoadedHome(s, c) ==> LoadedHome(Goto(s, t, pc), c))
  {
  }

  // Either locked part of a free, when one of the magazines has room.
  lemma {:induction false} FreeTriedLost(s: State, t: nat, c: nat, other: State, s': State)
    requires Inv(s) && t < |s.pcs| && c < |s.cpus| && FreedBy(s.pcs[t]).Some? && FreeTried(s, t, c, other, s')
    ensures HasRoom(s, c) || Drained(s, s.cpus[c].previous) ==> SameLost(s, s')
  {
    hide Inv, SameLost;
    LoadedIsHome(s, c);
    if HasRoom(s, c) {
      PushSameLost(s, t, c);
    } else if Drained(s, s.cpus[c].previous) {
      SwapSameLost(s, c);
      PushSameLost(Swap(s, c), t, c);
      LostTrans(s, Swap(s, c), s');
    }
  }

  lemma {:induction false} FreeTryLost(s: State, t: nat, s': State)
    requires Inv(s) && Next(s, FreeTry(t), s')
    ensures SameLost(s, s')
  {
    hide Inv, SameLost;
    var c, o := s.pcs[t].cpu, s.pcs[t].obj;
    FreeTriedLost(s, t, c, if s.empty != [] then TakeEmpty(s, t, c, o) else Goto(s, t, NeedMagazine(c, o)), s');
    DepotSameLost(s, t, c, o);
    GotoLost(s, t, NeedMagazine(c, o), c);
  }

  lemma {:induction false} LoadLost(s: State, t: nat, c: nat, g: nat, toFull: bool, pc: Pc, s': State)
    requires Inv(s) && t < |s.pcs| && c < |s.cpus| && HeldBy(s.pcs[t]) == Some(g)
    requires var s1 := Rotate(s, t, c, g, toFull, pc);
             || (HasRounds(s1, c) && s' == Pop(s1, c))
             || (HasRoom(s1, c) && FreedBy(pc).Some? && s' == Push(s1, t, c))
    ensures SameLost(s, s')
  {
    hide Inv, SameLost;
    var s1 := Rotate(s, t, c, g, toFull, pc);
    RotateSameLost(s, t, c, g, toFull, pc);
    if HasRounds(s1, c) && s' == Pop(s1, c) { PopSameLost(s1, c); } else { PushSameLost(s1, t, c); }
    LostTrans(s, s1, s');
  }

  lemma {:induction false} NewLost(s: State, t: nat, g: nat, s': State)
    requires Inv(s) && Next(s, MagazineNew(t, g), s')
    ensures SameLost(s, s')
  {
    hide Objects, ListsOk, CpusOk, DepotsOk, HeldOk, LocksOk, PcsOk;
  }

  lemma {:induction false} ForgetLost(s: State, t: nat, c: nat, o: Obj, g: nat)
    requires Inv(s) && t < |s.pcs| && s.pcs[t] == GotMagazine(c, o, g)
    ensures var s1 := Forget(s, t, c, o, g);
            forall h :: (IsLost(s1, h) <==> IsLost(s, h) || h == g) && Rounds(s1, h) == Rounds(s, h)
    ensures Rounds(s, g) == [] && g in s.home && !IsLost(s, g)
  {
    hide Objects, ListsOk, CpusOk, DepotsOk, LocksOk, PcsOk;
    assert s.home[g] == Held(t);
  }

  /** A magazine becomes lost in a step exactly when its thread forgets it there; lost magazines stay lost,
      and their rounds as they are. */
  ghost predicate LostStep(s: State, e: Step, s': State) {
    forall g :: && (IsLost(s', g) <==> IsLost(s, g) || Forgets(s, e, g))
                && (IsLost(s, g) ==> Rounds(s', g) == Rounds(s, g))
                && (Forgets(s, e, g) ==> Rounds(s', g) == [])
  }

  lemma {:induction false} FreeRetryLost(s: State, t: nat, s': State)
    requires Inv(s) && Next(s, FreeRetry(t), s')
    ensures LostStep(s, FreeRetry(t), s')
  {
    hide Inv, FreeTried, SameLost;
    var c, o, g := s.pcs[t].cpu, s.pcs[t].obj, s.pcs[t].mag;
    if HasRoom(s, c) || Drained(s, s.cpus[c].previous) {
      var s1 := Forget(s, t, c, o, g);
      ForgetLost(s, t, c, o, g);
      ForgetInv(s, t, c, o, g);
      FreeTriedLost(s1, t, c, s, s');
      Retried(s, t, s', s1);
    } else {
      LoadLost(s, t, c, g, true, FreeingFast(c, o), s');
      Unforgotten(s, FreeRetry(t), s');
    }
  }

  lemma {:induction false} Unforgotten(s: State, e: Step, s': State)
    requires SameLost(s, s') && forall g :: !Forgets(s, e, g)
    ensures LostStep(s, e, s')
  {
  }

  lemma {:induction false} Retried(s: State, t: nat, s': State, s1: State)
    requires Enabled(s, FreeRetry(t)) && (HasRoom(s, s.pcs[t].cpu) || Drained(s, s.cpus[s.pcs[t].cpu].previous))
    requires Rounds(s, s.pcs[t].mag) == []
    requires forall h :: (IsLost(s1, h) <==> IsLost(s, h) || h == s.pcs[t].mag) && Rounds(s1, h) == Rounds(s, h)
    requires SameLost(s1, s')
    ensures LostStep(s, FreeRetry(t), s')
  {
    hide HasRoom, Drained;
  }

  lemma {:induction false} NextLost(s: State, e: Step, s': State)
    requires Inv(s) && Next(s, e, s')
    ensures LostStep(s, e, s')
  {
    hide Inv, LostStep, SameLost;
    match e {
      case AllocTry(t) => AllocTryLost(s, t, s');
      case AllocLoad(t) => LoadLost(s, t, s.pcs[t].cpu, s.pcs[t].mag, false, Idle, s');
      case FreeTry(t) => FreeTryLost(s, t, s');
      case FreeLoad(t) => LoadLost(s, t, s.pcs[t].cpu, s.pcs[t].mag, true, FreeingFast(s.pcs[t].cpu, s.pcs[t].obj), s');
      case MagazineNew(t, g) => NewLost(s, t, g, s');
      case FreeRetry(t) => FreeRetryLost(s, t, s');
      case _ => HomeKept(s, s');
    }
    if !e.FreeRetry? { Unforgotten(s, e, s'); }
  }

  lemma {:induction false} HomeKept(s: State, s': State)
    requires s'.home == s.home && s'.mags == s.mags
    ensures SameLost(s, s')
  {
  }

  lemma {:induction false} LostAt(s: State, e: Step, s': State, g: nat)
    requires LostStep(s, e, s')
    ensures IsLost(s', g) <==> IsLost(s, g) || Forgets(s, e, g)
    ensures IsLost(s, g) ==> Rounds(s', g) == Rounds(s, g)
    ensures Forgets(s, e, g) ==> Rounds(s', g) == []
  {
  }

  /** In every run a magazine is lost if and only if some thread allocated it, retook the lock and found room;
      it is then empty, so that no object is lost with it. */
  lemma {:induction false} RunLostIff(states: seq<State>, steps: seq<Step>, n: nat, g: nat)
    requires Run(states, steps) && n <= |steps|
    ensures IsLost(states[n], g) <==> exists i :: 0 <= i < n && Forgets(states[i], steps[i], g)
    ensures IsLost(states[n], g) ==> Rounds(states[n], g) == []
  {
    if n > 0 {
      hide Inv, Init, Next, Forgets, LostStep, IsLost, Rounds;
      RunLostIff(states, steps, n - 1, g);
      RunInv(states, steps, n - 1);
      assert Next(states[n - 1], steps[n - 1], states[n]);
      NextLost(states[n - 1], steps[n - 1], states[n]);
      LostAt(states[n - 1], steps[n - 1], states[n], g);
      if i :| 0 <= i < n && Forgets(states[i], steps[i], g) {
        assert i == n - 1 || (0 <= i < n - 1 && Forgets(states[i], steps[i], g));
      }
    }
  }
}

/** How a slow free finds an object's slab from its address, and for which object sizes that is right. */
module SlabLookup {
  import opened Common

  const HEADER := 32          // sizeof(slab_t)

  function PageUp(x: nat): nat { (x + 4095) / PAGE_SIZE * PAGE_SIZE }

  function SlabSize(size: nat): nat { PageUp(size + HEADER) }

  function Count(size: nat): nat
    requires size > 0
  {
    (SlabSize(size) - HEADER) / size
  }

  function Address(base: nat, size: nat, i: nat): nat { base + HEADER + i * size }

  /** Masking with the complement of 4094 clears bits 1 to 11 and keeps bit 0. */
  function Lookup(address: nat): nat { address - address % PAGE_SIZE + address % 2 }

  lemma {:induction false} LookupOffset(base: nat, off: nat)
    requires base % PAGE_SIZE == 0
    ensures Lookup(base + off) == base <==> off < PAGE_SIZE && off % 2 == 0
  {
    var p, q, r := base / PAGE_SIZE, off / PAGE_SIZE, off % PAGE_SIZE;
    Remainder(base + off, p + q, r);
    Remainder(off, q, r);
  }

  lemma {:induction false} Remainder(a: nat, q: nat, r: nat)
    requires a == PAGE_SIZE * q + r && r < PAGE_SIZE
    ensures a % PAGE_SIZE == r && a % 2 == r % 2
  {
    assert a % PAGE_SIZE == r by { assert a / PAGE_SIZE == q; }
    assert a % 2 == r % 2 by { assert a == 2 * (2048 * q + r / 2) + r % 2; }
  }

  lemma {:induction false} LookupRight(base: nat, size: nat, i: nat)
    requires base % PAGE_SIZE == 0
    ensures Lookup(Address(base, size, i)) == base <==> HEADER + i * size < PAGE_SIZE && i * size % 2 == 0
  {
    hide Lookup;
    LookupOffset(base, HEADER + i * size);
  }

  lemma {:induction false} Quotient(n: nat, size: nat)
    requires size > 0
    ensures n / size * size <= n < n / size * size + size
  {
    assert n / size * size + n % size == n;
  }

  lemma {:induction false} CountIs(size: nat)
    requires size > 0
    ensures Count(size) * size <= SlabSize(size) - HEADER < Count(size) * size + size
    ensures size + HEADER <= SlabSize(size) < size + HEADER + PAGE_SIZE && Count(size) >= 1
  {
    Quotient(SlabSize(size) - HEADER, size);
  }

  /** Every object of every slab is traced to its slab if and only if a slab has one object only, or the
      object size is even and not between 4065 and 4080. */
  lemma {:induction false} LookupRightIff(base: nat, size: nat)
    requires base % PAGE_SIZE == 0 && size > 0
    ensures (forall i: nat :: i < Count(size) ==> Lookup(Address(base, size, i)) == base) <==>
            Count(size) == 1 || (size % 2 == 0 && !(4065 <= size <= 4080))
  {
    CountIs(size);
    if Count(size) == 1 {
      forall i: nat | i < Count(size) ensures Lookup(Address(base, size, i)) == base { LookupRight(base, size, i); }
    } else {
      Several(size);
      LookupRight(base, size, 1);
      hide Lookup, Count;
      if size % 2 == 0 && size <= 4064 {
        forall i: nat | i < Count(size) ensures Lookup(Address(base, size, i)) == base {
          LookupRight(base, size, i);
          Fits(size, i);
        }
      }
    }
  }

  lemma {:induction false} AtLeast(a: nat, b: nat, size: nat)
    requires a <= b
    ensures a * size <= b * size
  {
    assert b * size == a * size + (b - a) * size;
  }

  lemma {:induction false} Several(size: nat)
    requires size > 0 && Count(size) >= 2
    ensures size <= 4080 && (size <= 4064 <==> SlabSize(size) == PAGE_SIZE)
  {
    CountIs(size);
    AtLeast(2, Count(size), size);
    hide Count;
  }

  lemma {:induction false} EvenTimes(i: nat, half: nat)
    ensures i * (2 * half) % 2 == 0
  {
    assert i * (2 * half) == 2 * (i * half);
  }

  lemma {:induction false} Fits(size: nat, i: nat)
    requires size > 0 && size % 2 == 0 && SlabSize(size) == PAGE_SIZE && i < Count(size)
    ensures HEADER + i * size < PAGE_SIZE && i * size % 2 == 0
  {
    CountIs(size);
    AtLeast(i + 1, Count(size), size);
    assert (i + 1) * size == i * size + size;
    EvenTimes(i, size / 2);
  }

  const LINK := 8             // sizeof(void *)

  /** The links that a new slab writes into its objects lie apart and inside the slab. */
  ghost predicate LinksApart(base: nat, size: nat)
    requires size > 0
  {
    && (forall i: nat, j: nat {:trigger Address(base, size, i), Address(base, size, j)} :: i < j < Count(size) ==>
          Address(base, size, i) + LINK <= Address(base, size, j))
    && forall i: nat :: i < Count(size) ==> Address(base, size, i) + LINK <= base + SlabSize(size)
  }

  /** They do if and only if objects are at least as large as a link. */
  lemma {:induction false} LinksApartIff(base: nat, size: nat)
    requires size > 0
    ensures LinksApart(base, size) <==> size >= LINK
  {
    CountIs(size);
    if size >= LINK {
      hide Count;
      forall i: nat, j: nat | i < j < Count(size) ensures Address(base, size, i) + LINK <= Address(base, size, j) {
        AtLeast(i + 1, j, size);
        assert (i + 1) * size == i * size + size;
      }
      forall i: nat | i < Count(size) ensures Address(base, size, i) + LINK <= base + SlabSize(size) {
        AtLeast(i + 1, Count(size), size);
        assert (i + 1) * size == i * size + size;
      }
    } else {
      Dozens(size);
      assert Address(base, size, 0) + LINK > Address(base, size, 1);
    }
  }

  // A slab of small objects has more than one.
  lemma {:induction false} Dozens(size: nat)
    requires 0 < size < LINK
    ensures Count(size) >= 2
  {
    CountIs(size);
    assert SlabSize(size) == PAGE_SIZE;
    if Count(size) < 2 { AtLeast(Count(size), 1, size); }
  }

  /** With 33-byte objects the second object of a slab is traced to an odd address. */
  lemma {:induction false} OddSizeGoesWrong()
    ensures Count(33) >= 2 && Lookup(Address(0, 33, 1)) == 1
  {
  }
}
