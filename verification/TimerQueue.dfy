/** The timer queue of `hexahedron/subsystems/timer.c` in the abstract: a sorted list of
expiry times and what an interrupt does to it. */
module TimerSpec {

  /** A queued timer.  `base` is the tick at which it was inserted and `fires` how often
      it has fired since; no operation reads either. */
  datatype Entry<T> = Entry(id: T, expire: nat, intv: nat, repeat: bool, base: nat, fires: nat)

  predicate Sorted<T>(q: seq<Entry<T>>) { forall i, j :: 0 <= i < j < |q| ==> q[i].expire <= q[j].expire }

  predicate DistinctIds<T(==)>(q: seq<Entry<T>>) { forall i, j :: 0 <= i < j < |q| ==> q[i].id != q[j].id }

  /** Where a timer goes: before the first one that expires no earlier. */
  function Position<T>(q: seq<Entry<T>>, expire: nat): (k: nat)
    ensures k <= |q| && (k < |q| ==> expire <= q[k].expire) && forall i :: 0 <= i < k ==> q[i].expire < expire
  {
    if q == [] || expire <= q[0].expire then 0 else 1 + Position(q[1..], expire)
  }

  function Insert<T>(q: seq<Entry<T>>, e: Entry<T>): seq<Entry<T>> {
    q[..Position(q, e.expire)] + [e] + q[Position(q, e.expire)..]
  }

  /** The timers that an interrupt finds expired: the longest prefix due at `now`. */
  function Due<T>(q: seq<Entry<T>>, now: nat): (n: nat)
    ensures n <= |q| && (n < |q| ==> q[n].expire > now) && forall i :: 0 <= i < n ==> q[i].expire <= now
  {
    if q == [] || q[0].expire > now then 0 else 1 + Due(q[1..], now)
  }

  function Rearmed<T>(e: Entry<T>, now: nat): Entry<T> { e.(expire := now + e.intv, fires := e.fires + 1) }

  /** The queue after firing `due` in order in front of `rest`.  A repeating timer is queued
      again; one with interval 0 goes to the head, where it is dropped when the
      interrupt goes on to a further expired timer. */
  function Fired<T>(due: seq<Entry<T>>, rest: seq<Entry<T>>, now: nat): seq<Entry<T>> {
    if due == [] then rest
    else if !due[0].repeat || (due[0].intv == 0 && |due| > 1) then Fired(due[1..], rest, now)
    else Fired(due[1..], Insert(rest, Rearmed(due[0], now)), now)
  }

  /** timer_irq on a queue that is not empty. */
  function AfterIrq<T>(q: seq<Entry<T>>): seq<Entry<T>>
    requires q != []
  {
    var now := q[0].expire;
    Fired(q[..Due(q, now)], q[Due(q, now)..], now)
  }

  // ---------- insertion ----------

  predicate Ids<T(==)>(q: seq<Entry<T>>, x: T) { exists i :: 0 <= i < |q| && q[i].id == x }

  lemma {:induction false} MembersInserted<T>(a: seq<T>, k: nat, x: T)
    requires k <= |a|
    ensures forall y :: y in a[..k] + [x] + a[k..] <==> y == x || y in a
  {
    assert a == a[..k] + a[k..];
  }

  lemma {:induction false} InsertKeepsOrder<T>(q: seq<Entry<T>>, e: Entry<T>)
    requires Sorted(q)
    ensures Sorted(Insert(q, e)) && forall x :: x in Insert(q, e) <==> x == e || x in q
  {
    var k := Position(q, e.expire);
    MembersInserted(q, k, e);
    var r := Insert(q, e);
    forall i, j | 0 <= i < j < |r| ensures r[i].expire <= r[j].expire {
      assert r[i] == if i < k then q[i] else if i == k then e else q[i - 1];
      assert r[j] == if j < k then q[j] else if j == k then e else q[j - 1];
    }
  }

  /** Timers that expire earlier are stepped over. */
  lemma {:induction false} PositionSkips<T>(a: seq<Entry<T>>, b: seq<Entry<T>>, expire: nat)
    requires forall i :: 0 <= i < |a| ==> a[i].expire < expire
    ensures Position(a + b, expire) == |a| + Position(b, expire)
  {
    if a == [] {
      assert a + b == b;
    } else {
      assert (a + b)[1..] == a[1..] + b;
      PositionSkips(a[1..], b, expire);
    }
  }

  // ---------- an interrupt ----------

  // `due` all expire at `now`, in front of a sorted rest that does not expire before.
  predicate Split<T>(due: seq<Entry<T>>, rest: seq<Entry<T>>, now: nat) {
    && (forall i :: 0 <= i < |due| ==> due[i].expire == now)
    && Sorted(rest) && forall i :: 0 <= i < |rest| ==> rest[i].expire >= now
  }

  /** Firing keeps the queue sorted and never leaves an expiry in the past. */
  lemma {:induction false} FiredSorted<T>(due: seq<Entry<T>>, rest: seq<Entry<T>>, now: nat)
    requires Split(due, rest, now)
    ensures Split([], Fired(due, rest, now), now)
    decreases |due|
  {
    if due != [] {
      var again := Rearmed(due[0], now);
      var next := if !due[0].repeat || (due[0].intv == 0 && |due| > 1) then rest else Insert(rest, again);
      InsertKeepsOrder(rest, Rearmed(due[0], now));
      FiredSorted(due[1..], next, now);
    }
  }

  // Fires at its insertion plus a whole number of intervals.
  predicate OnTime<T>(e: Entry<T>) { e.expire == e.base + (e.fires + 1) * e.intv }

  lemma {:induction false} OnTimeAgain<T>(e: Entry<T>, now: nat)
    requires OnTime(e) && e.expire == now
    ensures OnTime(Rearmed(e, now))
  {
    assert (e.fires + 2) * e.intv == (e.fires + 1) * e.intv + e.intv;
  }

  lemma {:induction false} FiredOnTime<T>(due: seq<Entry<T>>, rest: seq<Entry<T>>, now: nat)
    requires Split(due, rest, now)
    requires forall e :: e in due || e in rest ==> OnTime(e)
    ensures forall e :: e in Fired(due, rest, now) ==> OnTime(e)
    decreases |due|
  {
    if due != [] {
      hide OnTime;
      assert due[0] in due && OnTime(due[0]);
      var again := Rearmed(due[0], now);
      OnTimeAgain(due[0], now);
      InsertKeepsOrder(rest, again);
      var next := if !due[0].repeat || (due[0].intv == 0 && |due| > 1) then rest else Insert(rest, again);
      assert forall e :: e in next ==> e in rest || e == again;
      FiredOnTime(due[1..], next, now);
    }
  }

  // A timer that the interrupt puts back.
  predicate Kept<T>(due: seq<Entry<T>>, i: nat)
    requires i < |due|
  {
    due[i].repeat && (due[i].intv > 0 || i == |due| - 1)
  }

  /** The ids left after firing: the rest's, and those of the timers that were put back. */
  lemma {:induction false} FiredIds<T>(due: seq<Entry<T>>, rest: seq<Entry<T>>, now: nat, x: T)
    ensures Ids(Fired(due, rest, now), x) <==>
            Ids(rest, x) || exists i :: 0 <= i < |due| && due[i].id == x && Kept(due, i)
    decreases |due|
  {
    if due != [] {
      var again := Rearmed(due[0], now);
      var next := if !due[0].repeat || (due[0].intv == 0 && |due| > 1) then rest else Insert(rest, again);
      FiredIds(due[1..], next, now, x);
      InsertIds(rest, again, x);
      assert forall i :: 0 <= i < |due| - 1 ==> Kept(due[1..], i) == Kept(due, i + 1) && due[1..][i] == due[i + 1];
      if i :| 0 <= i < |due| && due[i].id == x && Kept(due, i) {
        if i > 0 { assert Kept(due[1..], i - 1) && due[1..][i - 1].id == x; }
      }
    }
  }

  lemma {:induction false} InsertIds<T>(q: seq<Entry<T>>, e: Entry<T>, x: T)
    ensures Ids(Insert(q, e), x) <==> e.id == x || Ids(q, x)
  {
    var k, r := Position(q, e.expire), Insert(q, e);
    assert r[k] == e;
    if i :| 0 <= i < |q| && q[i].id == x { assert r[if i < k then i else i + 1] == q[i]; }
    if i :| 0 <= i < |r| && r[i].id == x { assert i == k || r[i] == q[if i < k then i else i - 1]; }
  }

  // No id of `a` is in `b`.
  ghost predicate Apart<T>(a: seq<Entry<T>>, b: seq<Entry<T>>) {
    forall i, j :: 0 <= i < |a| && 0 <= j < |b| ==> a[i].id != b[j].id
  }

  lemma {:induction false} FiredDistinct<T>(due: seq<Entry<T>>, rest: seq<Entry<T>>, now: nat)
    requires DistinctIds(due) && DistinctIds(rest) && Apart(due, rest)
    ensures DistinctIds(Fired(due, rest, now))
    decreases |due|
  {
    if due != [] {
      var again := Rearmed(due[0], now);
      var next := if !due[0].repeat || (due[0].intv == 0 && |due| > 1) then rest else Insert(rest, again);
      var k := Position(rest, again.expire);
      assert Insert(rest, again)[k] == again;
      FiredDistinct(due[1..], next, now);
    }
  }

  /** An interrupt keeps every repeating timer queued exactly when no expired one with
      interval 0 stands before another expired timer. */
  lemma {:induction false} NoneLostIff<T>(due: seq<Entry<T>>, rest: seq<Entry<T>>, now: nat)
    requires DistinctIds(due) && DistinctIds(rest) && Apart(due, rest)
    ensures (forall i :: 0 <= i < |due| && due[i].repeat ==> Ids(Fired(due, rest, now), due[i].id)) <==>
            (forall i :: 0 <= i < |due| - 1 && due[i].repeat ==> due[i].intv > 0)
  {
    forall i | 0 <= i < |due| && due[i].repeat ensures Ids(Fired(due, rest, now), due[i].id) == Kept(due, i) {
      FiredIds(due, rest, now, due[i].id);
    }
    if forall i :: 0 <= i < |due| && due[i].repeat ==> Ids(Fired(due, rest, now), due[i].id) {
      forall i | 0 <= i < |due| - 1 && due[i].repeat ensures due[i].intv > 0 { assert Kept(due, i); }
    }
  }

  /** With two expired timers, the first repeating at interval 0, the first is lost. */
  lemma {:induction false} ZeroIntervalIsLost()
    ensures var q := [Entry(0, 5, 0, true, 5, 0), Entry(1, 5, 7, true, 5, 0)];
            AfterIrq(q) == [Entry(1, 12, 7, true, 5, 1)] && !Ids(AfterIrq(q), 0)
  {
    var a, b := Entry(0, 5, 0, true, 5, 0), Entry(1, 5, 7, true, 5, 0);
    var q := [a, b];
    assert q[1..] == [b] && q[1..][1..] == [];
    assert Due(q, 5) == 2 && q[..2] == q && q[2..] == [];
    assert Insert([], Rearmed(b, 5)) == [Entry(1, 12, 7, true, 5, 1)];
  }

  // ---------- the links an interrupt leaves behind ----------

  /** Timers that an interrupt loses keep a link to the timer that fired after them. */
  function FiredLost<T>(due: seq<Entry<T>>, lost: map<T, T>): map<T, T> {
    if |due| <= 1 then lost
    else FiredLost(due[1..], if due[0].repeat && due[0].intv == 0 then lost[due[0].id := due[1].id] else lost)
  }

  // Queueing in front of position `k` mends the back link of the timer there.
  function Mended<T>(cut: set<T>, q: seq<Entry<T>>, k: nat): set<T> { if k < |q| then cut - {q[k].id} else cut }

  /** The queued timers whose back link is still cut after firing `due` in front of `rest`: the fired ones
      are out, whatever comes first needs none, and queueing again mends. */
  function FiredCut<T>(due: seq<Entry<T>>, rest: seq<Entry<T>>, now: nat, cut: set<T>): set<T> {
    if due == [] then cut
    else
      var left := Mended(cut - {due[0].id}, due[1..] + rest, 0);
      if !due[0].repeat || (due[0].intv == 0 && |due| > 1) then FiredCut(due[1..], rest, now, left)
      else FiredCut(due[1..], Insert(rest, Rearmed(due[0], now)), now,
                    Mended(left, rest, Position(rest, now + due[0].intv)))
  }

  // ---------- whole runs ----------

  /** The timers of a device: the queue; which timers are marked active; the active ones that an interrupt
      lost, each with the timer its forward link still names; and the queued ones, not first, whose back
      link is NULL. */
  datatype State<T> = State(now: nat, queue: seq<Entry<T>>, active: set<T>, lost: map<T, T>, cut: set<T>)

  function Fresh<T>(now: nat): State<T> { State(now, [], {}, map[], {}) }

  // Queued, but not first.
  predicate Behind<T(==)>(q: seq<Entry<T>>, x: T) { exists i :: 1 <= i < |q| && q[i].id == x }

  ghost predicate InOrder<T>(q: seq<Entry<T>>, now: nat) {
    Split([], q, now) && DistinctIds(q) && forall e :: e in q ==> OnTime(e)
  }

  ghost predicate LinksOk<T(!new)>(q: seq<Entry<T>>, lost: map<T, T>, cut: set<T>) {
    (forall x :: x in cut ==> Behind(q, x)) && forall x :: x in lost ==> !Ids(q, x)
  }

  ghost predicate Inv<T(!new)>(s: State<T>) { InOrder(s.queue, s.now) && LinksOk(s.queue, s.lost, s.cut) }

  /** The queue holds active timers only, and every active timer that is not lost. */
  ghost predicate Right<T(!new)>(s: State<T>) { forall x :: x in s.active <==> Ids(s.queue, x) || x in s.lost }

  // How long the hardware may have run since it was armed: at most until the first expiry.
  function Slack<T>(s: State<T>): nat {
    if s.queue == [] || s.queue[0].expire < s.now then 0 else s.queue[0].expire - s.now
  }

  function Find<T(==)>(q: seq<Entry<T>>, x: T): (k: nat)
    ensures k <= |q| && (k < |q| ==> q[k].id == x) && forall i :: 0 <= i < k ==> q[i].id != x
  {
    if q == [] || q[0].id == x then 0 else 1 + Find(q[1..], x)
  }

  function Without<T(==)>(q: seq<Entry<T>>, x: T): seq<Entry<T>> {
    var k := Find(q, x);
    if k < |q| then q[..k] + q[k + 1..] else q
  }

  datatype Event<T> =
    | Start(elapsed: nat, id: T, intv: nat, repeat: bool)  // timer_insert
    | Stop(elapsed: nat, id: T)                            // timer_remove
    | Interrupt                                            // timer_irq

  /** What callers and hardware may do: only a timer that is not queued is inserted, and the hardware counts
      no further than it was armed for. */
  predicate Enabled<T(==)>(s: State<T>, e: Event<T>) {
    match e
    case Start(elapsed, id, _, _) => elapsed <= Slack(s) && !Ids(s.queue, id)
    case Stop(elapsed, _) => elapsed <= Slack(s)
    case Interrupt => s.queue != []
  }

  predicate OneShot<T(==)>(due: seq<Entry<T>>, x: T) { exists i :: 0 <= i < |due| && due[i].id == x && !due[i].repeat }

  /** timer_insert, once the time is known. */
  function Started<T(==)>(s: State<T>, id: T, intv: nat, repeat: bool): State<T> {
    State(s.now, Insert(s.queue, Entry(id, s.now + intv, intv, repeat, s.now, 0)), s.active + {id}, s.lost - {id},
          Mended(s.cut, s.queue, Position(s.queue, s.now + intv)))
  }

  /** timer_remove on a timer that is marked active.  One that is queued behind another and whose back link
      is cut stays in the queue, and the timer behind it loses its back link; one that was lost cuts the
      back link of the timer it still names. */
  function Stopped<T(==)>(s: State<T>, x: T): State<T> {
    var k := Find(s.queue, x);
    var out := s.(active := s.active - {x});
    if k < |s.queue| then
      if k > 0 && x in s.cut then out.(cut := if k + 1 < |s.queue| then s.cut + {s.queue[k + 1].id} else s.cut)
      else out.(queue := Without(s.queue, x), cut := Mended(s.cut, s.queue, k + 1))
    else if x in s.lost then
      out.(lost := s.lost - {x}, cut := if Behind(s.queue, s.lost[x]) then s.cut + {s.lost[x]} else s.cut)
    else out
  }

  function Interrupted<T(==)>(s: State<T>): State<T>
    requires s.queue != []
  {
    var now := s.queue[0].expire;
    var n := Due(s.queue, now);
    var due, rest := s.queue[..n], s.queue[n..];
    State(now, AfterIrq(s.queue), (set x | x in s.active && !OneShot(due, x)), FiredLost(due, s.lost),
          FiredCut(due, rest, now, s.cut))
  }

  function Apply<T(==)>(s: State<T>, e: Event<T>): State<T>
    requires Enabled(s, e)
  {
    match e
    case Start(elapsed, id, intv, repeat) => Started(s.(now := s.now + elapsed), id, intv, repeat)
    case Stop(elapsed, id) =>
      var s' := s.(now := s.now + elapsed);
      if id in s.active then Stopped(s', id) else s'
    case Interrupt => Interrupted(s)
  }

  /** The guard of the removal that goes wrong: the timer is queued, not first, and its back link is NULL. */
  predicate Misses<T(==)>(s: State<T>, e: Event<T>) { e.Stop? && e.id in s.active && e.id in s.cut }

  /** A run: one event after the other, as long as the queue is right. */
  ghost predicate Leads<T(!new)>(s: State<T>, evs: seq<Event<T>>, s': State<T>)
    decreases |evs|
  {
    if evs == [] then s' == s
    else Right(s) && Enabled(s, evs[0]) && Leads(Apply(s, evs[0]), evs[1..], s')
  }

  lemma {:induction false} InsertKeepsDistinct<T>(q: seq<Entry<T>>, e: Entry<T>)
    requires DistinctIds(q) && !Ids(q, e.id)
    ensures DistinctIds(Insert(q, e))
  {
    assert forall m :: 0 <= m < |q| ==> q[m].id != e.id;
  }

  lemma {:induction false} StartOrder<T>(q: seq<Entry<T>>, n: Entry<T>, now: nat)
    requires InOrder(q, now) && !Ids(q, n.id) && n.expire >= now && OnTime(n)
    ensures InOrder(Insert(q, n), now)
  {
    hide Insert, Ids;
    InsertKeepsOrder(q, n);
    InsertKeepsDistinct(q, n);
    var r := Insert(q, n);
    assert forall x :: x in q ==> x.expire >= now;
    assert forall i :: 0 <= i < |r| ==> r[i] in r;
    assert Split([], r, now);
  }

  // Time may pass up to the first expiry.
  lemma {:induction false} OrderLater<T>(s: State<T>, elapsed: nat)
    requires InOrder(s.queue, s.now) && elapsed <= Slack(s)
    ensures InOrder(s.queue, s.now + elapsed)
  {
  }

  lemma {:induction false} BehindInsert<T>(q: seq<Entry<T>>, e: Entry<T>, x: T)
    requires Behind(q, x)
    ensures Behind(Insert(q, e), x)
  {
    var k, r := Position(q, e.expire), Insert(q, e);
    var i :| 1 <= i < |q| && q[i].id == x;
    assert r[if i < k then i else i + 1] == q[i];
  }

  lemma {:induction false} StartInv<T(!new)>(s: State<T>, e: Event<T>)
    requires Inv(s) && e.Start? && Enabled(s, e)
    ensures Inv(Apply(s, e)) && (Right(s) ==> Right(Apply(s, e)))
  {
    hide Insert, InOrder, Ids, Behind;
    var now := s.now + e.elapsed;
    var n := Entry(e.id, now + e.intv, e.intv, e.repeat, now, 0);
    OrderLater(s, e.elapsed);
    StartOrder(s.queue, n, now);
    forall x ensures Ids(Insert(s.queue, n), x) <==> n.id == x || Ids(s.queue, x) { InsertIds(s.queue, n, x); }
    forall x | Behind(s.queue, x) ensures Behind(Insert(s.queue, n), x) { BehindInsert(s.queue, n, x); }
  }

  lemma {:induction false} WithoutKeeps<T>(q: seq<Entry<T>>, x: T)
    requires Sorted(q) && DistinctIds(q)
    ensures Sorted(Without(q, x)) && DistinctIds(Without(q, x)) && forall e :: e in Without(q, x) ==> e in q
  {
    var k, r := Find(q, x), Without(q, x);
    forall i, j | 0 <= i < j < |r| ensures r[i].expire <= r[j].expire && r[i].id != r[j].id {
      assert r[i] == q[if i < k then i else i + 1] && r[j] == q[if j < k then j else j + 1];
    }
  }

  lemma {:induction false} WithoutOrder<T>(q: seq<Entry<T>>, x: T, now: nat)
    requires InOrder(q, now)
    ensures InOrder(Without(q, x), now)
  {
    hide Without;
    WithoutKeeps(q, x);
    var r := Without(q, x);
    assert forall i :: 0 <= i < |r| ==> r[i] in r;
  }

  lemma {:induction false} WithoutIds<T>(q: seq<Entry<T>>, x: T, y: T)
    requires DistinctIds(q)
    ensures Ids(Without(q, x), y) <==> Ids(q, y) && y != x
  {
    var k, r := Find(q, x), Without(q, x);
    if i :| 0 <= i < |q| && q[i].id == y && y != x { assert r[if i < k then i else i - 1] == q[i]; }
    if i :| 0 <= i < |r| && r[i].id == y { assert r[i] == q[if i < k then i else i + 1]; }
  }

  lemma {:induction false} WithoutBehind<T>(q: seq<Entry<T>>, x: T, y: T)
    requires DistinctIds(q) && Behind(q, y) && y != x
    requires Find(q, x) + 1 < |q| ==> q[Find(q, x) + 1].id != y
    ensures Behind(Without(q, x), y)
  {
    var k, r := Find(q, x), Without(q, x);
    var i :| 1 <= i < |q| && q[i].id == y;
    assert r[if i < k then i else i - 1] == q[i];
  }

  lemma {:induction false} StoppedInv<T(!new)>(s: State<T>, x: T)
    requires Inv(s)
    ensures Inv(Stopped(s, x))
  {
    hide InOrder, Ids, Behind, Without;
    OrderFacts(s.queue, s.now);
    FindFacts(s.queue, x);
    WithoutOrder(s.queue, x, s.now);
    forall y | && y != x && Behind(s.queue, y)
               && (Find(s.queue, x) + 1 < |s.queue| ==> s.queue[Find(s.queue, x) + 1].id != y)
      ensures Behind(Without(s.queue, x), y)
    {
      WithoutBehind(s.queue, x, y);
    }
    forall y ensures Ids(Without(s.queue, x), y) <==> Ids(s.queue, y) && y != x { WithoutIds(s.queue, x, y); }
    if x in s.cut { HeadNotCut(s, x); }
  }

  lemma {:induction false} OrderFacts<T>(q: seq<Entry<T>>, now: nat)
    requires InOrder(q, now)
    ensures Sorted(q) && DistinctIds(q)
  {
  }

  lemma {:induction false} FindFacts<T>(q: seq<Entry<T>>, x: T)
    ensures Find(q, x) < |q| <==> Ids(q, x)
    ensures Find(q, x) + 1 < |q| ==> Behind(q, q[Find(q, x) + 1].id)
  {
  }

  // A cut timer that is queued is not the first.
  lemma {:induction false} HeadNotCut<T(!new)>(s: State<T>, x: T)
    requires Inv(s) && x in s.cut
    ensures 0 < Find(s.queue, x) < |s.queue|
  {
    assert Behind(s.queue, x);
  }

  lemma {:induction false} StopInv<T(!new)>(s: State<T>, e: Event<T>)
    requires Inv(s) && e.Stop? && Enabled(s, e)
    ensures Inv(Apply(s, e))
  {
    hide InOrder, Stopped, LinksOk;
    OrderLater(s, e.elapsed);
    StoppedInv(s.(now := s.now + e.elapsed), e.id);
  }

  /** A removal leaves the queue right exactly when it does not meet a cut back link. */
  lemma {:induction false} StopRightIff<T(!new)>(s: State<T>, e: Event<T>)
    requires Inv(s) && Right(s) && e.Stop? && Enabled(s, e)
    ensures Right(Apply(s, e)) <==> !Misses(s, e)
  {
    hide InOrder, Ids, Behind, Without;
    var x := e.id;
    OrderFacts(s.queue, s.now);
    FindFacts(s.queue, x);
    forall y ensures Ids(Without(s.queue, x), y) <==> Ids(s.queue, y) && y != x { WithoutIds(s.queue, x, y); }
    if x in s.cut { HeadNotCut(s, x); }
    assert Misses(s, e) ==> Ids(Apply(s, e).queue, x) && x !in Apply(s, e).active;
  }

  // ---------- what an interrupt does to the links ----------

  lemma {:induction false} BehindNext<T>(due: seq<Entry<T>>, rest: seq<Entry<T>>, x: T)
    requires due != [] && Behind(due + rest, x) && x != due[0].id
    requires due[1..] + rest != [] ==> x != (due[1..] + rest)[0].id
    ensures Behind(due[1..] + rest, x)
  {
    var i :| 1 <= i < |due + rest| && (due + rest)[i].id == x;
    assert (due[1..] + rest)[i - 1] == (due + rest)[i];
  }

  lemma {:induction false} BehindLater<T>(due: seq<Entry<T>>, rest: seq<Entry<T>>, e: Entry<T>, x: T)
    requires Behind(due + rest, x)
    ensures Behind(due + Insert(rest, e), x)
  {
    var k := Position(rest, e.expire);
    var i :| 1 <= i < |due + rest| && (due + rest)[i].id == x;
    assert (due + Insert(rest, e))[if i < |due| + k then i else i + 1] == (due + rest)[i];
  }

  /** Back links still cut after an interrupt belong to queued timers that are not first. */
  lemma {:induction false} FiredCutBehind<T>(due: seq<Entry<T>>, rest: seq<Entry<T>>, now: nat, cut: set<T>, x: T)
    requires forall y :: y in cut ==> Behind(due + rest, y)
    requires x in FiredCut(due, rest, now, cut)
    ensures Behind(Fired(due, rest, now), x)
    decreases |due|
  {
    hide Behind, Insert;
    if due == [] {
      assert due + rest == rest;
    } else {
      var again := Rearmed(due[0], now);
      var left := Mended(cut - {due[0].id}, due[1..] + rest, 0);
      forall y | y in left ensures Behind(due[1..] + rest, y) && Behind(due[1..] + Insert(rest, again), y) {
        BehindNext(due, rest, y);
        BehindLater(due[1..], rest, again, y);
      }
      if !due[0].repeat || (due[0].intv == 0 && |due| > 1) {
        FiredCutBehind(due[1..], rest, now, left, x);
      } else {
        FiredCutBehind(due[1..], Insert(rest, again), now, Mended(left, rest, Position(rest, again.expire)), x);
      }
    }
  }

  // A timer that the interrupt loses.
  predicate Dropped<T>(due: seq<Entry<T>>, i: nat)
    requires i < |due|
  {
    due[i].repeat && due[i].intv == 0 && i < |due| - 1
  }

  /** The timers lost after an interrupt: those lost before and those it drops. */
  lemma {:induction false} FiredLostIs<T>(due: seq<Entry<T>>, lost: map<T, T>, x: T)
    ensures x in FiredLost(due, lost) <==> x in lost || exists i :: 0 <= i < |due| && due[i].id == x && Dropped(due, i)
    decreases |due|
  {
    if |due| > 1 {
      FiredLostIs(due[1..], if due[0].repeat && due[0].intv == 0 then lost[due[0].id := due[1].id] else lost, x);
      assert forall i :: 0 <= i < |due| - 1 ==>
               Dropped(due[1..], i) == Dropped(due, i + 1) && due[1..][i] == due[i + 1];
      if i :| 0 <= i < |due| && due[i].id == x && Dropped(due, i) {
        if i > 0 { assert Dropped(due[1..], i - 1) && due[1..][i - 1].id == x; }
      }
    }
  }

  lemma {:induction false} InterruptOrder<T>(q: seq<Entry<T>>, now: nat)
    requires InOrder(q, now) && q != []
    ensures InOrder(AfterIrq(q), q[0].expire)
  {
    var t := q[0].expire;
    var due, rest := q[..Due(q, t)], q[Due(q, t)..];
    FiredSorted(due, rest, t);
    FiredOnTime(due, rest, t);
    FiredDistinct(due, rest, t);
  }

  // Where a timer of the queue is once an interrupt has split it.
  lemma {:induction false} IdsSplit<T>(q: seq<Entry<T>>, n: nat, x: T)
    requires n <= |q|
    ensures Ids(q, x) <==> Ids(q[..n], x) || Ids(q[n..], x)
  {
    if i :| 0 <= i < |q| && q[i].id == x {
      if i < n { assert q[..n][i] == q[i]; } else { assert q[n..][i - n] == q[i]; }
    }
  }

  /** A timer due is afterwards queued, lost or, if it fires once only, neither. */
  lemma {:induction false} DueEnds<T>(due: seq<Entry<T>>, rest: seq<Entry<T>>, now: nat, lost: map<T, T>, x: T)
    requires DistinctIds(due) && Apart(due, rest) && (Ids(due, x) || Ids(rest, x) ==> x !in lost)
    ensures Ids(due, x) ==> (Ids(Fired(due, rest, now), x) || x in FiredLost(due, lost) <==> !OneShot(due, x))
    ensures !Ids(due, x) ==> (Ids(Fired(due, rest, now), x) <==> Ids(rest, x))
    ensures !Ids(due, x) ==> (x in FiredLost(due, lost) <==> x in lost)
    ensures !Ids(due, x) ==> !OneShot(due, x)
    ensures !(Ids(Fired(due, rest, now), x) && x in FiredLost(due, lost))
  {
    FiredIds(due, rest, now, x);
    FiredLostIs(due, lost, x);
    if Ids(due, x) {
      var i :| 0 <= i < |due| && due[i].id == x;
      assert forall j :: 0 <= j < |due| && due[j].id == x ==> j == i;
      assert !Ids(rest, x);
      assert due[i].repeat ==> Kept(due, i) != Dropped(due, i);
      assert !due[i].repeat ==> !Kept(due, i) && !Dropped(due, i);
    }
  }

  lemma {:induction false} InterruptInv<T(!new)>(s: State<T>)
    requires Inv(s) && s.queue != []
    ensures Inv(Apply(s, Interrupt)) && (Right(s) ==> Right(Apply(s, Interrupt)))
  {
    hide InOrder, Ids, Behind, Fired, FiredLost, FiredCut, OneShot;
    var now := s.queue[0].expire;
    var n := Due(s.queue, now);
    var due, rest := s.queue[..n], s.queue[n..];
    InterruptOrder(s.queue, s.now);
    OrderFacts(s.queue, s.now);
    assert s.queue == due + rest;
    forall x | x in FiredCut(due, rest, now, s.cut) ensures Behind(Fired(due, rest, now), x) {
      FiredCutBehind(due, rest, now, s.cut, x);
    }
    forall x
      ensures Ids(due, x) ==> (Ids(Fired(due, rest, now), x) || x in FiredLost(due, s.lost) <==> !OneShot(due, x))
      ensures !Ids(due, x) ==> (Ids(Fired(due, rest, now), x) <==> Ids(rest, x))
      ensures !Ids(due, x) ==> (x in FiredLost(due, s.lost) <==> x in s.lost)
      ensures !Ids(due, x) ==> !OneShot(due, x)
      ensures !(Ids(Fired(due, rest, now), x) && x in FiredLost(due, s.lost))
      ensures Ids(s.queue, x) <==> Ids(due, x) || Ids(rest, x)
    {
      IdsSplit(s.queue, n, x);
      DueEnds(due, rest, now, s.lost, x);
    }
  }

  lemma {:induction false} ApplyInv<T(!new)>(s: State<T>, e: Event<T>)
    requires Inv(s) && Enabled(s, e)
    ensures Inv(Apply(s, e)) && (Right(s) ==> (Right(Apply(s, e)) <==> !Misses(s, e)))
  {
    hide Inv, Right, Apply, Enabled;
    match e {
      case Start(_, _, _, _) => StartInv(s, e);
      case Stop(_, _) =>
        StopInv(s, e);
        if Right(s) { StopRightIff(s, e); }
      case Interrupt =>
        assert s.queue != [] by { NotEmpty(s); }
        InterruptInv(s);
    }
  }

  lemma {:induction false} NotEmpty<T>(s: State<T>)
    requires Enabled(s, Interrupt)
    ensures s.queue != []
  {
  }

  /** Some removal of the run meets a cut back link. */
  ghost predicate MissesIn<T(!new)>(s: State<T>, evs: seq<Event<T>>, s': State<T>)
    requires Leads(s, evs, s')
    decreases |evs|
  {
    evs != [] && (Misses(s, evs[0]) || MissesIn(Apply(s, evs[0]), evs[1..], s'))
  }

  lemma {:induction false} LeadsInv<T(!new)>(s: State<T>, evs: seq<Event<T>>, s': State<T>)
    requires Inv(s) && Right(s) && Leads(s, evs, s')
    ensures Inv(s') && (Right(s') <==> !MissesIn(s, evs, s'))
    decreases |evs|
  {
    if evs != [] {
      hide Inv, Right, Apply, Enabled, Misses;
      var s1 := Apply(s, evs[0]);
      ApplyInv(s, evs[0]);
      if evs[1..] == [] {
      } else {
        LeadsInv(s1, evs[1..], s');
      }
    }
  }

  lemma {:induction false} FreshRight<T(!new)>(now: nat)
    ensures Inv<T>(Fresh(now)) && Right<T>(Fresh(now))
  {
  }

  /** After any run of insertions, removals and interrupts the queue is sorted, holds each timer once, expires
      nothing in the past, and every timer is due at its insertion plus a whole number of its intervals. */
  lemma {:induction false} RunInv<T(!new)>(now: nat, evs: seq<Event<T>>, s: State<T>)
    requires Leads(Fresh(now), evs, s)
    ensures Inv(s)
  {
    FreshRight<T>(now);
    LeadsInv(Fresh(now), evs, s);
  }

  /** A run leaves exactly the active timers queued, but for those lost to an interrupt, if and only if none
      of its removals meets a queued timer, not the first, whose back link was cut. */
  lemma {:induction false} RunRightIff<T(!new)>(now: nat, evs: seq<Event<T>>, s: State<T>)
    requires Leads(Fresh(now), evs, s)
    ensures Right(s) <==> !MissesIn(Fresh(now), evs, s)
  {
    FreshRight<T>(now);
    LeadsInv(Fresh(now), evs, s);
  }

  // One more event at the end of a run.
  lemma {:induction false} LeadsSnoc<T(!new)>(s: State<T>, evs: seq<Event<T>>, s': State<T>, e: Event<T>)
    requires Leads(s, evs, s') && Right(s') && Enabled(s', e)
    ensures Leads(s, evs + [e], Apply(s', e))
    decreases |evs|
  {
    hide Right, Apply, Enabled;
    if evs == [] {
      assert [e][1..] == [] && [] + [e] == [e];
    } else {
      assert (evs + [e])[1..] == evs[1..] + [e];
      LeadsSnoc(Apply(s, evs[0]), evs[1..], s', e);
    }
  }

  /** An interrupt after any run fires at least one timer, exactly those whose time has come,
      and each at its insertion plus a whole number of intervals. */
  lemma {:induction false} InterruptFiresExactlyTheDue<T(!new)>(now: nat, evs: seq<Event<T>>, s: State<T>)
    requires Leads(Fresh(now), evs, s) && s.queue != []
    ensures var t, n := Apply(s, Interrupt).now, Due(s.queue, Apply(s, Interrupt).now);
            && 0 < n && s.now <= t
            && (forall i :: 0 <= i < |s.queue| ==> (i < n <==> s.queue[i].expire <= t))
            && (forall i :: 0 <= i < n ==> t == s.queue[i].base + (s.queue[i].fires + 1) * s.queue[i].intv)
  {
    hide Fired, FiredCut, FiredLost, LinksOk;
    RunInv(now, evs, s);
    var t := s.queue[0].expire;
    forall i | 0 <= i < Due(s.queue, t) ensures s.queue[i].expire == t && OnTime(s.queue[i]) {
      assert s.queue[i] in s.queue;
    }
  }

  /** When the expired repeating timers have positive intervals, the interrupt leaves only
      later expiries, and all of those timers are queued again. */
  lemma {:induction false} InterruptRequeues<T(!new)>(now: nat, evs: seq<Event<T>>, s: State<T>)
    requires Leads(Fresh(now), evs, s) && s.queue != []
    requires forall i :: 0 <= i < |s.queue| && s.queue[i].repeat ==> s.queue[i].intv > 0
    ensures forall e :: e in Apply(s, Interrupt).queue ==> e.expire > s.queue[0].expire
    ensures forall i :: 0 <= i < |s.queue| && s.queue[i].repeat ==> Ids(Apply(s, Interrupt).queue, s.queue[i].id)
  {
    hide Fired, FiredCut, FiredLost, LinksOk;
    RunInv(now, evs, s);
    var t := s.queue[0].expire;
    var n := Due(s.queue, t);
    var due, rest := s.queue[..n], s.queue[n..];
    FiredLater(due, rest, t);
    forall i | 0 <= i < |s.queue| && s.queue[i].repeat ensures Ids(Fired(due, rest, t), s.queue[i].id) {
      FiredIds(due, rest, t, s.queue[i].id);
      if i < n { assert Kept(due, i) && due[i].id == s.queue[i].id; }
      else { assert rest[i - n].id == s.queue[i].id; }
    }
  }

  // ---------- what one event does ----------

  /** Total ticks grow by what the hardware counted; an interrupt sets them to the first expiry. */
  lemma {:induction false} EventTime<T>(s: State<T>, e: Event<T>)
    requires Enabled(s, e)
    ensures e.Start? || e.Stop? ==> Apply(s, e).now == s.now + e.elapsed
    ensures e.Interrupt? ==> s.queue != [] && Apply(s, e).now == s.queue[0].expire
  {
  }

  /** What the events alone say has passed. */
  function Counted<T>(evs: seq<Event<T>>): nat {
    if evs == [] then 0 else (if evs[0].Interrupt? then 0 else evs[0].elapsed) + Counted(evs[1..])
  }

  /** In every run total ticks never fall behind what was counted between the interrupts, and equal it when
      there are none. */
  lemma {:induction false} RunTime<T(!new)>(s: State<T>, evs: seq<Event<T>>, s': State<T>)
    requires Inv(s) && Leads(s, evs, s')
    ensures s'.now >= s.now + Counted(evs)
    ensures (forall i :: 0 <= i < |evs| ==> !evs[i].Interrupt?) ==> s'.now == s.now + Counted(evs)
    decreases |evs|
  {
    if evs != [] {
      EventTime(s, evs[0]);
      assert s.queue != [] ==> s.queue[0].expire >= s.now;
      ApplyInv(s, evs[0]);
      hide Inv, Right, Apply, Enabled;
      RunTime(Apply(s, evs[0]), evs[1..], s');
    }
  }

  /** An insertion adds one entry, due one interval from now, and changes no other; the timer is active. */
  lemma {:induction false} StartOutcome<T(!new)>(s: State<T>, e: Event<T>, x: Entry<T>)
    requires e.Start? && Enabled(s, e)
    ensures var now := s.now + e.elapsed;
            x in Apply(s, e).queue <==> x in s.queue || x == Entry(e.id, now + e.intv, e.intv, e.repeat, now, 0)
    ensures Apply(s, e).active == s.active + {e.id} && |Apply(s, e).queue| == |s.queue| + 1
  {
    hide Insert, Position, Mended;
    var now := s.now + e.elapsed;
    var n := Entry(e.id, now + e.intv, e.intv, e.repeat, now, 0);
    InsertMembers(s.queue, n);
    InsertSize(s.queue, n);
  }

  lemma {:induction false} InsertSize<T>(q: seq<Entry<T>>, e: Entry<T>)
    ensures |Insert(q, e)| == |q| + 1
  {
  }

  /** A removal of an active timer clears its mark and takes its entry, and no other, out of the queue, unless
      that entry stands behind another without a back link; any other removal leaves the queue alone. */
  lemma {:induction false} StopOutcome<T(!new)>(s: State<T>, e: Event<T>, x: Entry<T>)
    requires Inv(s) && e.Stop? && Enabled(s, e)
    ensures Apply(s, e).active == s.active - {e.id}
    ensures x in Apply(s, e).queue <==> x in s.queue && !(x.id == e.id && e.id in s.active && e.id !in s.cut)
  {
    hide LinksOk;
    OrderFacts(s.queue, s.now);
    OneGone(s.queue, e.id, x);
    if e.id in s.cut { assert e.id in s.active ==> Find(s.queue, e.id) > 0 by { HeadNotCut(s, e.id); } }
    FindMember(s.queue, x);
  }

  lemma {:induction false} FindMember<T>(q: seq<Entry<T>>, x: Entry<T>)
    ensures x in q ==> Find(q, x.id) < |q|
  {
    if x in q {
      var i :| 0 <= i < |q| && q[i] == x;
      assert q[i].id == x.id;
    }
  }

  lemma {:induction false} OneGone<T>(q: seq<Entry<T>>, id: T, x: Entry<T>)
    requires DistinctIds(q)
    ensures x in Without(q, id) <==> x in q && x.id != id
  {
    var k, r := Find(q, id), Without(q, id);
    if x in q && x.id != id {
      var i :| 0 <= i < |q| && q[i] == x;
      if k < |q| { assert r[if i < k then i else i - 1] == q[i]; }
    }
    if x in r {
      var i :| 0 <= i < |r| && r[i] == x;
      if k < |q| { assert r[i] == q[if i < k then i else i + 1] && q[k].id == id; }
    }
  }

  /** An interrupt leaves the entries that are not due as they are, and of those due exactly the repeating ones
      with a positive interval, or at the end of the expired ones, each due one interval later and counting one
      firing more. */
  lemma {:induction false} InterruptOutcome<T(!new)>(s: State<T>, x: Entry<T>)
    requires Inv(s) && s.queue != []
    ensures var q, now := s.queue, s.queue[0].expire;
            x in Apply(s, Interrupt).queue <==>
            || (x in q && x.expire > now)
            || exists i :: 0 <= i < |q| && PutAgain(q, i, now, x)
  {
    hide FiredCut, FiredLost, LinksOk, OneShot;
    var q, now := s.queue, s.queue[0].expire;
    var n := Due(q, now);
    FiredEntries(q[..n], q[n..], now, x);
    DueEntries(q, now, n, x);
  }

  /** `x` is the entry at `i` of the queue as the interrupt puts it back. */
  ghost predicate PutAgain<T(!new)>(q: seq<Entry<T>>, i: nat, now: nat, x: Entry<T>)
    requires i < |q|
  {
    && q[i].expire <= now && q[i].repeat && (q[i].intv > 0 || i == |q| - 1 || q[i + 1].expire > now)
    && x == Entry(q[i].id, now + q[i].intv, q[i].intv, true, q[i].base, q[i].fires + 1)
  }

  // The entries after firing: the rest's, and those of the timers put back.
  lemma {:induction false} FiredEntries<T>(due: seq<Entry<T>>, rest: seq<Entry<T>>, now: nat, x: Entry<T>)
    ensures x in Fired(due, rest, now) <==>
            x in rest || exists i :: 0 <= i < |due| && Kept(due, i) && x == Rearmed(due[i], now)
    decreases |due|
  {
    if due != [] {
      var again := Rearmed(due[0], now);
      var next := if !due[0].repeat || (due[0].intv == 0 && |due| > 1) then rest else Insert(rest, again);
      FiredEntries(due[1..], next, now, x);
      InsertMembers(rest, again);
      assert forall i :: 0 <= i < |due| - 1 ==> Kept(due[1..], i) == Kept(due, i + 1) && due[1..][i] == due[i + 1];
      if i :| 0 <= i < |due| && Kept(due, i) && x == Rearmed(due[i], now) {
        if i > 0 { assert Kept(due[1..], i - 1) && x == Rearmed(due[1..][i - 1], now); }
      }
      if i :| 0 <= i < |due| - 1 && Kept(due[1..], i) && x == Rearmed(due[1..][i], now) {
        assert Kept(due, i + 1) && x == Rearmed(due[i + 1], now);
      }
    }
  }

  lemma {:induction false} DueEntries<T(!new)>(q: seq<Entry<T>>, now: nat, n: nat, x: Entry<T>)
    requires Sorted(q) && n == Due(q, now)
    ensures x in q[n..] <==> x in q && x.expire > now
    ensures (exists i :: 0 <= i < n && Kept(q[..n], i) && x == Rearmed(q[..n][i], now)) <==>
            exists i :: 0 <= i < |q| && PutAgain(q, i, now, x)
  {
    if x in q && x.expire > now {
      var i :| 0 <= i < |q| && q[i] == x;
      assert q[n..][i - n] == x;
    }
    if i :| 0 <= i < n && Kept(q[..n], i) && x == Rearmed(q[..n][i], now) { assert PutAgain(q, i, now, x); }
    if i :| 0 <= i < |q| && PutAgain(q, i, now, x) {
      assert i < n && q[..n][i] == q[i];
      assert i < n - 1 ==> q[i + 1].expire <= now;
      assert Kept(q[..n], i) && x == Rearmed(q[..n][i], now);
    }
  }

  // Repeating timers have positive intervals, and no link is stale.
  ghost predicate Sound<T>(s: State<T>) {
    s.lost == map[] && s.cut == {} && AllPositive(s.queue)
  }

  predicate Positive<T>(e: Event<T>) { e.Start? && e.repeat ==> e.intv > 0 }

  lemma {:induction false} NoneCut<T>(due: seq<Entry<T>>, rest: seq<Entry<T>>, now: nat)
    ensures FiredCut(due, rest, now, {}) == {}
    decreases |due|
  {
    if due != [] {
      NoneCut(due[1..], rest, now);
      NoneCut(due[1..], Insert(rest, Rearmed(due[0], now)), now);
      assert Mended({} - {due[0].id}, due[1..] + rest, 0) == {};
      assert Mended({}, rest, Position(rest, now + due[0].intv)) == {};
    }
  }

  lemma {:induction false} NoneLost<T>(due: seq<Entry<T>>)
    requires forall i :: 0 <= i < |due| && due[i].repeat ==> due[i].intv > 0
    ensures FiredLost(due, map[]) == map[]
    decreases |due|
  {
    if |due| > 1 { NoneLost(due[1..]); }
  }

  lemma {:induction false} FiredPositive<T>(due: seq<Entry<T>>, rest: seq<Entry<T>>, now: nat)
    requires forall e :: e in due || e in rest ==> (e.repeat ==> e.intv > 0)
    ensures forall e :: e in Fired(due, rest, now) ==> (e.repeat ==> e.intv > 0)
    decreases |due|
  {
    if due != [] {
      var again := Rearmed(due[0], now);
      var next := if !due[0].repeat || (due[0].intv == 0 && |due| > 1) then rest else Insert(rest, again);
      assert due[0] in due;
      MembersInserted(rest, Position(rest, again.expire), again);
      FiredPositive(due[1..], next, now);
    }
  }

  // Every repeating entry has a positive interval.
  ghost predicate AllPositive<T>(q: seq<Entry<T>>) { forall i :: 0 <= i < |q| && q[i].repeat ==> q[i].intv > 0 }

  lemma {:induction false} PositiveMembers<T>(q: seq<Entry<T>>, r: seq<Entry<T>>, n: Entry<T>)
    requires AllPositive(q) && (n.repeat ==> n.intv > 0) && forall e :: e in r ==> e == n || e in q
    ensures AllPositive(r)
  {
    forall i | 0 <= i < |r| && r[i].repeat ensures r[i].intv > 0 {
      assert r[i] in r;
    }
  }

  lemma {:induction false} SoundStart<T(!new)>(s: State<T>, e: Event<T>)
    requires Sound(s) && e.Start? && Enabled(s, e) && Positive(e)
    ensures Sound(Apply(s, e))
  {
    hide Insert;
    var now := s.now + e.elapsed;
    var n := Entry(e.id, now + e.intv, e.intv, e.repeat, now, 0);
    InsertMembers(s.queue, n);
    PositiveMembers(s.queue, Insert(s.queue, n), n);
  }

  lemma {:induction false} InsertMembers<T>(q: seq<Entry<T>>, e: Entry<T>)
    ensures forall x :: x in Insert(q, e) <==> x == e || x in q
  {
    MembersInserted(q, Position(q, e.expire), e);
  }

  lemma {:induction false} SoundStop<T(!new)>(s: State<T>, e: Event<T>)
    requires Inv(s) && Sound(s) && e.Stop? && Enabled(s, e)
    ensures Sound(Apply(s, e)) && !Misses(s, e)
  {
    hide InOrder, LinksOk, Without;
    OrderFacts(s.queue, s.now);
    WithoutKeeps(s.queue, e.id);
    PositiveMembers(s.queue, Without(s.queue, e.id), Entry(e.id, 0, 0, false, 0, 0));
  }

  lemma {:induction false} SoundInterrupt<T(!new)>(s: State<T>)
    requires Sound(s) && s.queue != []
    ensures Sound(Apply(s, Interrupt))
  {
    hide Fired, FiredLost, FiredCut;
    var now := s.queue[0].expire;
    var due, rest := s.queue[..Due(s.queue, now)], s.queue[Due(s.queue, now)..];
    NoneCut(due, rest, now);
    NoneLost(due);
    FiredPositive(due, rest, now);
    var r := Fired(due, rest, now);
    assert forall i :: 0 <= i < |r| ==> r[i] in r;
  }

  lemma {:induction false} SoundNext<T(!new)>(s: State<T>, e: Event<T>)
    requires Inv(s) && Sound(s) && Enabled(s, e) && Positive(e)
    ensures Sound(Apply(s, e)) && !Misses(s, e)
  {
    hide Inv, Sound, Apply, Enabled;
    match e
    case Start(_, _, _, _) => SoundStart(s, e);
    case Stop(_, _) => SoundStop(s, e);
    case Interrupt =>
      NotEmpty(s);
      SoundInterrupt(s);
  }

  lemma {:induction false} SoundLeads<T(!new)>(s: State<T>, evs: seq<Event<T>>, s': State<T>)
    requires Inv(s) && Sound(s) && Leads(s, evs, s') && Right(s) && forall i :: 0 <= i < |evs| ==> Positive(evs[i])
    ensures Sound(s') && Right(s')
    decreases |evs|
  {
    if evs != [] {
      hide Inv, Right, Apply, Enabled, Misses, Sound;
      ApplyInv(s, evs[0]);
      SoundNext(s, evs[0]);
      SoundLeads(Apply(s, evs[0]), evs[1..], s');
    }
  }

  /** In every run that starts repeating timers with positive intervals only, a timer is active exactly when
      it is queued, and no removal goes wrong. */
  lemma {:induction false} RunOfPositiveIntervals<T(!new)>(now: nat, evs: seq<Event<T>>, s: State<T>)
    requires Leads(Fresh(now), evs, s) && forall i :: 0 <= i < |evs| ==> Positive(evs[i])
    ensures Right(s) && s.lost == map[] && s.cut == {} && forall x :: x in s.active <==> Ids(s.queue, x)
  {
    FreshRight<T>(now);
    SoundLeads(Fresh(now), evs, s);
  }

  // ---------- a run that goes wrong ----------

  lemma {:induction false} PositionIs<T>(q: seq<Entry<T>>, e: Entry<T>, k: nat)
    requires k <= |q| && (forall i :: 0 <= i < k ==> q[i].expire < e.expire) && (k < |q| ==> e.expire <= q[k].expire)
    ensures Position(q, e.expire) == k && Insert(q, e) == q[..k] + [e] + q[k..]
  {
    var p := Position(q, e.expire);
    assert p < |q| ==> e.expire <= q[p].expire;
  }

  lemma {:induction false} FindIs<T>(q: seq<Entry<T>>, x: T, k: nat)
    requires k < |q| && q[k].id == x && forall i :: 0 <= i < k ==> q[i].id != x
    ensures Find(q, x) == k && Ids(q, x) && (k > 0 ==> Behind(q, x))
  {
  }

  // One more event in front of a run.
  lemma {:induction false} LeadsCons<T(!new)>(s: State<T>, e: Event<T>, evs: seq<Event<T>>, s': State<T>)
    requires Right(s) && Enabled(s, e) && Leads(Apply(s, e), evs, s')
    ensures Leads(s, [e] + evs, s')
  {
    hide Right, Apply, Enabled;
    assert ([e] + evs)[1..] == evs;
  }

  const D := Entry('D', 7, 7, false, 0, 0)
  const B := Entry('B', 5, 5, true, 0, 0)
  const A := Entry('A', 5, 0, true, 5, 0)
  const B2 := Entry('B', 10, 5, true, 0, 1)

  lemma {:induction false} InterruptLosesA()
    ensures var s := State(5, [A, B, D], {'A', 'B', 'D'}, map[], {});
            Enabled(s, Interrupt) && Apply(s, Interrupt) == State(5, [D, B2], {'A', 'B', 'D'}, map['A' := 'B'], {})
  {
    var q, due, rest := [A, B, D], [A, B], [D];
    DueIs(q, 5, 2);
    assert q[..2] == due && q[2..] == rest && due[1..] == [B] && [B][1..] == [];
    PositionIs(rest, B2, 1);
    assert Fired(due, rest, 5) == Fired([B], rest, 5) == Fired([], [D, B2], 5) == [D, B2];
    assert FiredLost(due, map[]) == FiredLost([B], map['A' := 'B']) == map['A' := 'B'];
    NoneCut(due, rest, 5);
    assert (set x | x in {'A', 'B', 'D'} && !OneShot(due, x)) == {'A', 'B', 'D'};
  }

  lemma {:induction false} DueIs<T>(q: seq<Entry<T>>, now: nat, n: nat)
    requires n <= |q| && (forall i :: 0 <= i < n ==> q[i].expire <= now) && (n < |q| ==> q[n].expire > now)
    ensures Due(q, now) == n
  {
  }

  // Inserting a timer that expires no later than the first.
  lemma {:induction false} StartFirst(s: State<char>, e: Event<char>)
    requires e.Start? && Enabled(s, e) && (s.queue != [] ==> s.now + e.elapsed + e.intv <= s.queue[0].expire)
    requires s.lost == map[] && s.cut == {}
    ensures var now := s.now + e.elapsed;
            Apply(s, e) == State(now, [Entry(e.id, now + e.intv, e.intv, e.repeat, now, 0)] + s.queue,
                                 s.active + {e.id}, map[], {})
  {
    var now := s.now + e.elapsed;
    PositionIs(s.queue, Entry(e.id, now + e.intv, e.intv, e.repeat, now, 0), 0);
  }

  lemma {:induction false} StartsD()
    ensures var e := Start(0, 'D', 7, false); var s := Fresh(0);
            Enabled(s, e) && Apply(s, e) == State(0, [D], {'D'}, map[], {})
  {
    hide Apply;
    StartFirst(Fresh(0), Start(0, 'D', 7, false));
  }

  lemma {:induction false} StartsB()
    ensures var e := Start(0, 'B', 5, true); var s := State(0, [D], {'D'}, map[], {});
            Enabled(s, e) && Apply(s, e) == State(0, [B, D], {'B', 'D'}, map[], {})
  {
    hide Apply;
    StartFirst(State(0, [D], {'D'}, map[], {}), Start(0, 'B', 5, true));
  }

  lemma {:induction false} StartsA()
    ensures var e := Start(5, 'A', 0, true); var s := State(0, [B, D], {'B', 'D'}, map[], {});
            Enabled(s, e) && Apply(s, e) == State(5, [A, B, D], {'A', 'B', 'D'}, map[], {})
  {
    hide Apply;
    StartFirst(State(0, [B, D], {'B', 'D'}, map[], {}), Start(5, 'A', 0, true));
  }

  lemma {:induction false} TwoStops()
    ensures var e := Stop(0, 'A'); var s := State(5, [D, B2], {'A', 'B', 'D'}, map['A' := 'B'], {});
            Enabled(s, e) && !Misses(s, e) && Apply(s, e) == State(5, [D, B2], {'B', 'D'}, map[], {'B'})
    ensures var e := Stop(0, 'B'); var s := State(5, [D, B2], {'B', 'D'}, map[], {'B'});
            Enabled(s, e) && Misses(s, e) && Apply(s, e) == State(5, [D, B2], {'D'}, map[], {'B'})
  {
    FindIs([D, B2], 'B', 1);
    assert Find([D, B2], 'A') == 2;
    assert {'A', 'B', 'D'} - {'A'} == {'B', 'D'} && {'B', 'D'} - {'B'} == {'D'} && {} + {'B'} == {'B'};
    assert map['A' := 'B'] - {'A'} == map[];
  }

  lemma {:induction false} Late()
    requires var s := State(5, [A, B, D], {'A', 'B', 'D'}, map[], {}); Inv(s) && Right(s)
    ensures Leads(State(5, [A, B, D], {'A', 'B', 'D'}, map[], {}),
                  [Interrupt] + ([Stop(0, 'A')] + ([Stop(0, 'B')] + [])),
                  State(5, [D, B2], {'D'}, map[], {'B'}))
  {
    hide Inv, Right, Apply, Enabled, Misses;
    var s3 := State(5, [A, B, D], {'A', 'B', 'D'}, map[], {});
    var s4 := State(5, [D, B2], {'A', 'B', 'D'}, map['A' := 'B'], {});
    var s5, s6 := State(5, [D, B2], {'B', 'D'}, map[], {'B'}), State(5, [D, B2], {'D'}, map[], {'B'});
    InterruptLosesA();
    TwoStops();
    InterruptInv(s3);
    StopRightIff(s4, Stop(0, 'A'));
    LeadsCons(s5, Stop(0, 'B'), [], s6);
    LeadsCons(s4, Stop(0, 'A'), [Stop(0, 'B')] + [], s6);
    LeadsCons(s3, Interrupt, [Stop(0, 'A')] + ([Stop(0, 'B')] + []), s6);
  }

  lemma {:induction false} Early(evs: seq<Event<char>>, s': State<char>)
    requires var s := State(5, [A, B, D], {'A', 'B', 'D'}, map[], {}); Inv(s) && Right(s) ==> Leads(s, evs, s')
    ensures Leads(Fresh(0),
                  [Start(0, 'D', 7, false)] + ([Start(0, 'B', 5, true)] + ([Start(5, 'A', 0, true)] + evs)), s')
  {
    hide Inv, Right, Apply, Enabled, Misses, Leads;
    var s0, s1 := Fresh<char>(0), State(0, [D], {'D'}, map[], {});
    var s2 := State(0, [B, D], {'B', 'D'}, map[], {});
    StartsD();
    StartsB();
    StartsA();
    FreshRight<char>(0);
    StartInv(s0, Start(0, 'D', 7, false));
    StartInv(s1, Start(0, 'B', 5, true));
    StartInv(s2, Start(5, 'A', 0, true));
    LeadsCons(s2, Start(5, 'A', 0, true), evs, s');
    LeadsCons(s1, Start(0, 'B', 5, true), [Start(5, 'A', 0, true)] + evs, s');
    LeadsCons(s0, Start(0, 'D', 7, false), [Start(0, 'B', 5, true)] + ([Start(5, 'A', 0, true)] + evs), s');
  }

  /** Insert D and a repeating B; at tick 5 insert A, repeating at interval 0; after the interrupt, which loses
      A, remove A and then B: B stays in the queue although it is no longer active. */
  lemma {:induction false} RemovedTimerStaysQueued()
    ensures var evs := [Start(0, 'D', 7, false)] + ([Start(0, 'B', 5, true)] + ([Start(5, 'A', 0, true)] +
                       ([Interrupt] + ([Stop(0, 'A')] + ([Stop(0, 'B')] + [])))));
            var s := State(5, [D, B2], {'D'}, map[], {'B'});
            Leads(Fresh(0), evs, s) && Ids(s.queue, 'B') && 'B' !in s.active && !Right(s)
  {
    FindIs([D, B2], 'B', 1);
    hide Inv, Right, Leads, Ids;
    var s := State(5, [A, B, D], {'A', 'B', 'D'}, map[], {});
    if Inv(s) && Right(s) { Late(); }
    Early([Interrupt] + ([Stop(0, 'A')] + ([Stop(0, 'B')] + [])), State(5, [D, B2], {'D'}, map[], {'B'}));
    assert !Right(State(5, [D, B2], {'D'}, map[], {'B'})) by { NotRight(); }
  }

  lemma {:induction false} NotRight()
    ensures !Right(State(5, [D, B2], {'D'}, map[], {'B'}))
  {
    FindIs([D, B2], 'B', 1);
  }

  lemma {:induction false} FiredLater<T>(due: seq<Entry<T>>, rest: seq<Entry<T>>, now: nat)
    requires forall i :: 0 <= i < |due| && due[i].repeat ==> due[i].intv > 0
    requires forall e :: e in rest ==> e.expire > now
    ensures forall e :: e in Fired(due, rest, now) ==> e.expire > now
    decreases |due|
  {
    if due != [] {
      var next := if !due[0].repeat then rest else Insert(rest, Rearmed(due[0], now));
      assert forall e :: e in next ==> e in rest || e == Rearmed(due[0], now);
      FiredLater(due[1..], next, now);
    }
  }
}

/** The timer device and its events: a doubly linked queue changed in place.  Timer structures
are numbered; `next` and `prev` hold their link fields, `timers` their other fields. */
module TimerQueue {
  import opened Common
  import opened TimerSpec

  datatype Timer = Timer(expire: nat, intv: nat, repeat: bool, active: bool, base: nat, fires: nat)

  function EntryOf(ts: seq<Timer>, t: nat): Entry<nat>
    requires t < |ts|
  {
    Entry(t, ts[t].expire, ts[t].intv, ts[t].repeat, ts[t].base, ts[t].fires)
  }

  /** The queued timers as entries. */
  function Entries(ts: seq<Timer>, q: seq<nat>): (es: seq<Entry<nat>>)
    requires InRange(q, |ts|)
    ensures |es| == |q| && forall i :: 0 <= i < |q| ==> es[i] == EntryOf(ts, q[i])
  {
    seq(|q|, i requires 0 <= i < |q| => EntryOf(ts, q[i]))
  }

  ghost predicate NextLinked(next: seq<int>, q: seq<nat>)
    requires InRange(q, |next|)
  {
    && (forall i {:trigger next[q[i]]} :: 0 <= i < |q| - 1 ==> next[q[i]] == q[i + 1])
    && (q != [] ==> next[q[|q| - 1]] == NULL)
  }

  ghost predicate PrevLinked(prev: seq<int>, q: seq<nat>, cut: set<nat>)
    requires InRange(q, |prev|)
  {
    forall i {:trigger prev[q[i]]} :: 1 <= i < |q| ==> prev[q[i]] == if q[i] in cut then NULL else q[i - 1]
  }

  /** `q` is linked forward from `head`, and backward from its second timer on but for those in `cut`. */
  ghost predicate Linked(next: seq<int>, prev: seq<int>, head: int, q: seq<nat>, cut: set<nat>) {
    && |prev| == |next| && InRange(q, |next|) && Distinct(q)
    && head == (if q == [] then NULL else q[0])
    && NextLinked(next, q) && PrevLinked(prev, q, cut)
    && forall x :: x in cut ==> x in q && x != q[0]
  }

  /** The lost timers are not queued; each keeps its forward link and has no back link. */
  ghost predicate LostLinked(next: seq<int>, prev: seq<int>, q: seq<nat>, lost: map<nat, nat>) {
    |prev| == |next| && forall a :: a in lost ==> LostAt(next, prev, q, a, lost[a])
  }

  ghost predicate LostAt(next: seq<int>, prev: seq<int>, q: seq<nat>, a: nat, b: nat)
    requires |prev| == |next|
  {
    a < |next| && a !in q && b < |next| && next[a] == b && prev[a] == NULL
  }

  // What is left of `cut` once the timer at position `k` has its back link again.
  function Healed(cut: set<nat>, q: seq<nat>, k: nat): set<nat> { if k < |q| then cut - {q[k]} else cut }

  // The first timer has no predecessor.
  predicate HeadClear(prev: seq<int>, q: seq<nat>) { q != [] && q[0] < |prev| ==> prev[q[0]] == NULL }

  // ---------- the link updates ----------

  lemma {:induction false} FrontLinked(next: seq<int>, prev: seq<int>, head: int, q: seq<nat>, cut: set<nat>, t: nat)
    requires Linked(next, prev, head, q, cut) && t < |next| && t !in q
    ensures Linked(next[t := head], (if head == NULL then prev else prev[head := t])[t := NULL], t, [t] + q, cut)
    ensures Healed(cut, q, 0) == cut
  {
  }

  lemma {:induction false} DistinctInserted(q: seq<nat>, k: nat, t: nat, n: nat)
    requires Distinct(q) && InRange(q, n) && t < n && t !in q && k <= |q|
    ensures Distinct(q[..k] + [t] + q[k..]) && InRange(q[..k] + [t] + q[k..], n)
  {
  }

  lemma {:induction false} AfterNext(next: seq<int>, q: seq<nat>, k: nat, t: nat)
    requires InRange(q, |next|) && Distinct(q) && NextLinked(next, q) && t < |next| && t !in q && 1 <= k <= |q|
    ensures InRange(q[..k] + [t] + q[k..], |next|)
    ensures NextLinked(next[t := next[q[k - 1]]][q[k - 1] := t], q[..k] + [t] + q[k..])
  {
  }

  lemma {:induction false} AfterPrev(prev: seq<int>, q: seq<nat>, cut: set<nat>, k: nat, t: nat)
    requires InRange(q, |prev|) && Distinct(q) && PrevLinked(prev, q, cut) && t < |prev| && t !in q && t !in cut
    requires 1 <= k <= |q|
    ensures InRange(q[..k] + [t] + q[k..], |prev|)
    ensures var prev' := if k == |q| then prev[t := q[k - 1]] else prev[t := q[k - 1]][q[k] := t];
            PrevLinked(prev', q[..k] + [t] + q[k..], Healed(cut, q, k))
  {
  }

  lemma {:induction false} AfterLinked(next: seq<int>, prev: seq<int>, head: int, q: seq<nat>, cut: set<nat>,
                                       k: nat, t: nat)
    requires Linked(next, prev, head, q, cut) && t < |next| && t !in q && 1 <= k <= |q|
    ensures var c := q[k - 1];
            var prev' := if next[c] == NULL then prev[t := c] else prev[t := c][next[c] := t];
            var q' := q[..k] + [t] + q[k..];
            Linked(next[t := next[c]][c := t], prev', head, q', Healed(cut, q, k)) && prev'[q[0]] == prev[q[0]]
  {
    assert next[q[k - 1]] == if k == |q| then NULL else q[k];
    hide NextLinked, PrevLinked;
    DistinctInserted(q, k, t, |next|);
    AfterNext(next, q, k, t);
    AfterPrev(prev, q, cut, k, t);
    MembersInserted(q, k, t);
  }

  lemma {:induction false} UnlinkHead(next: seq<int>, prev: seq<int>, head: int, q: seq<nat>, cut: set<nat>)
    requires Linked(next, prev, head, q, cut) && q != []
    ensures var prev' := if next[q[0]] == NULL then prev else prev[next[q[0]] := NULL];
            Linked(next, prev', next[q[0]], q[1..], Healed(cut, q, 1)) && HeadClear(prev', q[1..])
  {
    assert q == [q[0]] + q[1..];
  }

  lemma {:induction false} UnlinkMiddle(next: seq<int>, prev: seq<int>, head: int, q: seq<nat>, cut: set<nat>, k: nat)
    requires Linked(next, prev, head, q, cut) && HeadClear(prev, q) && 0 < k < |q| && q[k] !in cut
    ensures var t := q[k];
            var prev' := if next[t] == NULL then prev else prev[next[t] := prev[t]];
            && 0 <= prev[t] < |next|
            && Linked(next[prev[t] := next[t]], prev', head, q[..k] + q[k + 1..], Healed(cut, q, k + 1))
            && HeadClear(prev', q[..k] + q[k + 1..])
  {
    MembersWithout(q, k);
  }

  /** Taking out a timer whose back link is cut cuts the one behind it instead. */
  lemma {:induction false} UnlinkCut(next: seq<int>, prev: seq<int>, head: int, q: seq<nat>, cut: set<nat>, k: nat)
    requires Linked(next, prev, head, q, cut) && HeadClear(prev, q) && 0 < k < |q| && q[k] in cut
    ensures var t := q[k];
            var prev' := if next[t] == NULL then prev else prev[next[t] := NULL];
            && prev[t] == NULL && (next[t] == NULL <==> k + 1 == |q|)
            && Linked(next, prev', head, q, if k + 1 < |q| then cut + {q[k + 1]} else cut)
            && HeadClear(prev', q)
  {
  }

  /** Clearing any timer's back link cuts it when the timer is queued behind another. */
  lemma {:induction false} CutBack(next: seq<int>, prev: seq<int>, head: int, q: seq<nat>, cut: set<nat>, y: nat)
    requires Linked(next, prev, head, q, cut) && HeadClear(prev, q) && y < |next|
    ensures Linked(next, prev[y := NULL], head, q, if y in q && y != q[0] then cut + {y} else cut)
    ensures HeadClear(prev[y := NULL], q)
  {
  }

  /** Dropping the front of the queue, whatever the dropped timers' links become. */
  lemma {:induction false} SuffixLinked(next: seq<int>, prev: seq<int>, head: int, q: seq<nat>, cut: set<nat>, f: nat)
    requires Linked(next, prev, head, q, cut) && f < |q| && (forall i :: 0 <= i < f ==> q[i] !in cut)
    ensures Linked(next[q[f] := NULL], prev[q[f] := NULL], next[q[f]], q[f + 1..], Healed(cut - {q[f]}, q, f + 1))
  {
    assert q == q[..f] + [q[f]] + q[f + 1..];
  }

  lemma {:induction false} LinkInRange(next: seq<int>, prev: seq<int>, head: int, q: seq<nat>, cut: set<nat>, i: nat)
    requires Linked(next, prev, head, q, cut) && i < |q|
    ensures |prev| == |next| && q[i] < |next| && (next[q[i]] == NULL || 0 <= next[q[i]] < |next|)
  {
  }

  /** A timer outside the queue does not show in it. */
  lemma {:induction false} EntriesKept(ts: seq<Timer>, q: seq<nat>, t: nat, v: Timer)
    requires InRange(q, |ts|) && t < |ts| && t !in q
    ensures Entries(ts[t := v], q) == Entries(ts, q)
  {
  }

  lemma {:induction false} EntriesInserted(ts: seq<Timer>, q: seq<nat>, k: nat, t: nat)
    requires InRange(q, |ts|) && t < |ts| && k <= |q|
    ensures InRange(q[..k] + [t] + q[k..], |ts|)
    ensures Entries(ts, q[..k] + [t] + q[k..]) == Entries(ts, q)[..k] + [EntryOf(ts, t)] + Entries(ts, q)[k..]
  {
  }

  lemma {:induction false} MembersWithout(q: seq<nat>, k: nat)
    requires Distinct(q) && k < |q|
    ensures Distinct(q[..k] + q[k + 1..]) && forall x :: x in q[..k] + q[k + 1..] <==> x in q && x != q[k]
  {
    assert q == q[..k] + [q[k]] + q[k + 1..];
  }

  lemma {:induction false} EntriesWithout(ts: seq<Timer>, q: seq<nat>, k: nat)
    requires InRange(q, |ts|) && Distinct(q) && k < |q|
    ensures InRange(q[..k] + q[k + 1..], |ts|)
    ensures Entries(ts, q[..k] + q[k + 1..]) == Without(Entries(ts, q), q[k])
  {
    hide Find;
    var es, r := Entries(ts, q), q[..k] + q[k + 1..];
    assert es[k].id == q[k] && Find(es, q[k]) == k;
    var w := es[..k] + es[k + 1..];
    forall i | 0 <= i < |r| ensures Entries(ts, r)[i] == w[i] {
      assert r[i] == q[if i < k then i else i + 1];
    }
  }

  // ---------- one round of the interrupt ----------

  predicate AllAt<T>(es: seq<Entry<T>>, now: nat) { forall i :: 0 <= i < |es| ==> es[i].expire == now }

  predicate AllAfter<T>(es: seq<Entry<T>>, now: nat) { forall i :: 0 <= i < |es| ==> es[i].expire > now }

  /** Where a fired timer goes back: in front when due at once, behind the expired ones otherwise. */
  lemma {:induction false} Spot<T>(due: seq<Entry<T>>, rest: seq<Entry<T>>, now: nat, expire: nat)
    requires AllAt(due, now) && AllAfter(rest, now)
    ensures expire == now ==> Position(due + rest, expire) == 0
    ensures expire > now ==> Position(due + rest, expire) == |due| + Position(rest, expire)
  {
    if expire > now { PositionSkips(due, rest, expire); }
  }

  /** What one round leaves to do. */
  lemma {:induction false} NextTarget<T>(due: seq<Entry<T>>, rest: seq<Entry<T>>, now: nat,
                                         front: seq<Entry<T>>, rest': seq<Entry<T>>)
    requires due != [] && AllAfter(rest, now)
    requires front == if due[0].repeat && due[0].intv == 0 then [Rearmed(due[0], now)] else []
    requires rest' == if due[0].repeat && due[0].intv > 0 then TimerSpec.Insert(rest, Rearmed(due[0], now)) else rest
    ensures Fired(due, rest, now) == if due[1..] == [] then front + rest' else Fired(due[1..], rest', now)
  {
    assert Position(rest, now) == 0;
    assert due[0].intv == 0 ==> TimerSpec.Insert(rest, Rearmed(due[0], now)) == [Rearmed(due[0], now)] + rest;
  }

  lemma {:induction false} InsertBehind<T>(a: seq<T>, b: seq<T>, x: T, k: nat)
    requires |a| <= k <= |a| + |b|
    ensures (a + b)[..k] + [x] + (a + b)[k..] == [] + a + (b[..k - |a|] + [x] + b[k - |a|..])
  {
  }

  lemma {:induction false} InsertBefore<T>(a: seq<T>, b: seq<T>, x: T)
    ensures (a + b)[..0] + [x] + (a + b)[0..] == [x] + a + b
  {
  }

  lemma {:induction false} EntriesConcat(ts: seq<Timer>, a: seq<nat>, b: seq<nat>)
    requires InRange(a, |ts|) && InRange(b, |ts|)
    ensures InRange(a + b, |ts|) && Entries(ts, a + b) == Entries(ts, a) + Entries(ts, b)
  {
  }

  /** Where a timer fired at `now` goes back: behind the expired ones, or, when its interval is 0,
      in front of them. */
  lemma {:induction false} Requeued(ts: seq<Timer>, due: seq<nat>, rest: seq<nat>, ev: nat, now: nat)
    returns (front: seq<nat>, rest': seq<nat>)
    requires InRange(due, |ts|) && InRange(rest, |ts|) && ev < |ts|
    requires AllAt(Entries(ts, due), now) && AllAfter(Entries(ts, rest), now)
    ensures InRange(due + rest, |ts|)
    ensures var k := Position(Entries(ts, due + rest), now + ts[ev].intv);
            && (due + rest)[..k] + [ev] + (due + rest)[k..] == front + due + rest'
            && if ts[ev].intv == 0 then k == 0 && front == [ev] && rest' == rest
               else var j := Position(Entries(ts, rest), now + ts[ev].intv);
                    k == |due| + j && front == [] && rest' == rest[..j] + [ev] + rest[j..]
  {
    hide Position, AllAt, AllAfter;
    EntriesConcat(ts, due, rest);
    Spot(Entries(ts, due), Entries(ts, rest), now, now + ts[ev].intv);
    var k := Position(Entries(ts, due + rest), now + ts[ev].intv);
    if ts[ev].intv == 0 {
      front, rest' := [ev], rest;
      InsertBefore(due, rest, ev);
    } else {
      var j := k - |due|;
      front, rest' := [], rest[..j] + [ev] + rest[j..];
      InsertBehind(due, rest, ev, k);
    }
  }

  // The entries of an interrupt in progress: `due` is still to fire, and what the code will leave is
  // `target`.  A timer with interval 0 may stand in front, about to be skipped.
  ghost predicate Progress(ts: seq<Timer>, front: seq<nat>, due: seq<nat>, rest: seq<nat>, now: nat,
                           target: seq<Entry<nat>>) {
    && |front| <= 1 && InRange(front, |ts|) && InRange(due, |ts|) && InRange(rest, |ts|)
    && AllAt(Entries(ts, due), now) && AllAfter(Entries(ts, rest), now)
    && target == if due == [] then Entries(ts, front) + Entries(ts, rest)
                 else Fired(Entries(ts, due), Entries(ts, rest), now)
  }

  /** One round took the first due timer out and, if it repeats at a positive interval, queued it among `rest`. */
  ghost predicate Moved(ts: seq<Timer>, ts': seq<Timer>, due: seq<nat>, rest: seq<nat>, now: nat, rest': seq<nat>) {
    && due != [] && InRange(due, |ts|) && InRange(rest, |ts|) && InRange(due[1..], |ts'|) && InRange(rest', |ts'|)
    && Entries(ts', due[1..]) == Entries(ts, due)[1..]
    && Entries(ts', rest') == if ts[due[0]].repeat && ts[due[0]].intv > 0
                              then TimerSpec.Insert(Entries(ts, rest), Rearmed(EntryOf(ts, due[0]), now))
                              else Entries(ts, rest)
  }

  function Refired(t: Timer, now: nat): Timer { t.(expire := now + t.intv, fires := t.fires + 1) }

  /** What a round needs to know about the timers behind the first one. */
  lemma {:induction false} BehindFirst(ts: seq<Timer>, front: seq<nat>, due: seq<nat>, rest: seq<nat>, now: nat,
                                       target: seq<Entry<nat>>)
    requires Progress(ts, front, due, rest, now, target) && due != []
    ensures due[0] < |ts| && InRange(due[1..], |ts|) && InRange(rest, |ts|)
    ensures AllAt(Entries(ts, due[1..]), now) && AllAfter(Entries(ts, rest), now)
    ensures Entries(ts, due[1..]) == Entries(ts, due)[1..] && Entries(ts, due)[0] == EntryOf(ts, due[0])
    ensures rest != [] ==> rest[0] < |ts| && ts[rest[0]].expire > now
  {
    assert rest != [] ==> Entries(ts, rest)[0] == EntryOf(ts, rest[0]);
  }

  /** Changing the first due timer does not show in the others. */
  lemma {:induction false} OthersKept(ts: seq<Timer>, due: seq<nat>, rest: seq<nat>, v: Timer)
    requires due != [] && InRange(due, |ts|) && InRange(rest, |ts|) && due[0] !in due[1..] + rest
    ensures Entries(ts[due[0] := v], due[1..]) == Entries(ts, due[1..])
    ensures Entries(ts[due[0] := v], rest) == Entries(ts, rest)
  {
    assert forall i :: 0 <= i < |due[1..]| ==> due[1..][i] == (due[1..] + rest)[i];
    assert forall i :: 0 <= i < |rest| ==> rest[i] == (due[1..] + rest)[|due| - 1 + i];
    EntriesKept(ts, due[1..], due[0], v);
    EntriesKept(ts, rest, due[0], v);
  }

  /** A round that fires a one-shot timer. */
  lemma {:induction false} RoundOnce(ts: seq<Timer>, front: seq<nat>, due: seq<nat>, rest: seq<nat>, now: nat,
                                     target: seq<Entry<nat>>, v: Timer)
    requires Progress(ts, front, due, rest, now, target) && due != [] && due[0] !in due[1..] + rest
    requires !ts[due[0]].repeat
    ensures Progress(ts[due[0] := v], [], due[1..], rest, now, target)
    ensures Moved(ts, ts[due[0] := v], due, rest, now, rest)
  {
    hide Fired, Entries;
    var es := Entries(ts, rest);
    BehindFirst(ts, front, due, rest, now, target);
    OthersKept(ts, due, rest, v);
    NextTarget(Entries(ts, due), es, now, [], es);
  }

  /** A round that fires a timer repeating at interval 0. */
  lemma {:induction false} RoundZero(ts: seq<Timer>, front: seq<nat>, due: seq<nat>, rest: seq<nat>, now: nat,
                                     target: seq<Entry<nat>>)
    requires Progress(ts, front, due, rest, now, target) && due != [] && due[0] !in due[1..] + rest
    requires ts[due[0]].repeat && ts[due[0]].intv == 0
    ensures Progress(ts[due[0] := Refired(ts[due[0]], now)], [due[0]], due[1..], rest, now, target)
    ensures Moved(ts, ts[due[0] := Refired(ts[due[0]], now)], due, rest, now, rest)
  {
    hide Fired, Entries;
    var ds, es, v := Entries(ts, due), Entries(ts, rest), Refired(ts[due[0]], now);
    BehindFirst(ts, front, due, rest, now, target);
    OthersKept(ts, due, rest, v);
    assert Entries(ts[due[0] := v], [due[0]]) == [Rearmed(ds[0], now)];
    NextTarget(ds, es, now, [Rearmed(ds[0], now)], es);
  }

  lemma {:induction false} InsertAfter<T>(es: seq<Entry<T>>, e: Entry<T>, now: nat)
    requires AllAfter(es, now) && e.expire > now
    ensures AllAfter(TimerSpec.Insert(es, e), now)
    ensures var j := Position(es, e.expire); TimerSpec.Insert(es, e) == es[..j] + [e] + es[j..]
  {
  }

  /** A round that fires a timer repeating at a positive interval. */
  lemma {:induction false} RoundLater(ts: seq<Timer>, front: seq<nat>, due: seq<nat>, rest: seq<nat>, now: nat,
                                      target: seq<Entry<nat>>, rest': seq<nat>)
    requires Progress(ts, front, due, rest, now, target) && due != [] && due[0] !in due[1..] + rest
    requires ts[due[0]].repeat && ts[due[0]].intv > 0
    requires var j := Position(Entries(ts, rest), now + ts[due[0]].intv); rest' == rest[..j] + [due[0]] + rest[j..]
    ensures Progress(ts[due[0] := Refired(ts[due[0]], now)], [], due[1..], rest', now, target)
    ensures Moved(ts, ts[due[0] := Refired(ts[due[0]], now)], due, rest, now, rest')
  {
    hide Fired, Entries, Position, AllAt, AllAfter, TimerSpec.Insert;
    var ds, es, v := Entries(ts, due), Entries(ts, rest), Refired(ts[due[0]], now);
    var j := Position(es, now + ts[due[0]].intv);
    BehindFirst(ts, front, due, rest, now, target);
    OthersKept(ts, due, rest, v);
    EntriesInserted(ts[due[0] := v], rest, j, due[0]);
    InsertAfter(es, Rearmed(ds[0], now), now);
    assert Entries(ts[due[0] := v], rest') == TimerSpec.Insert(es, Rearmed(ds[0], now));
    NextTarget(ds, es, now, [], TimerSpec.Insert(es, Rearmed(ds[0], now)));
  }

  // ---------- the links of one round ----------

  lemma {:induction false} CutStep<T>(due: seq<Entry<T>>, rest: seq<Entry<T>>, now: nat, cut: set<T>,
                                      rest': seq<Entry<T>>, cut': set<T>)
    requires due != [] && AllAfter(rest, now)
    requires rest' == if due[0].repeat && due[0].intv > 0 then TimerSpec.Insert(rest, Rearmed(due[0], now)) else rest
    requires var left := Mended(cut - {due[0].id}, due[1..] + rest, 0);
             cut' == if due[0].repeat && due[0].intv > 0
                     then Mended(left, rest, Position(rest, now + due[0].intv)) else left
    ensures FiredCut(due, rest, now, cut) == FiredCut(due[1..], rest', now, cut')
  {
    hide TimerSpec.Insert;
    assert Position(rest, now) == 0;
    assert due[1..] == [] ==> due[1..] + rest == rest;
  }

  // A timer waiting in front is lost to the next one that fires.
  function Pending(front: seq<nat>, due: seq<nat>, lost: map<nat, nat>): map<nat, nat> {
    if front != [] && due != [] then lost[front[0] := due[0]] else lost
  }

  /** The stale links of an interrupt in progress: what the code will leave is `tc` and `tl`. */
  ghost predicate Marks(ts: seq<Timer>, front: seq<nat>, due: seq<nat>, rest: seq<nat>, now: nat,
                        cut: set<nat>, lost: map<nat, nat>, tc: set<nat>, tl: map<nat, nat>) {
    && InRange(due, |ts|) && InRange(rest, |ts|)
    && tc == FiredCut(Entries(ts, due), Entries(ts, rest), now, cut)
    && tl == FiredLost(Entries(ts, due), Pending(front, due, lost))
  }

  // What one round makes of `cut`.
  function CutAfter(ts: seq<Timer>, due: seq<nat>, rest: seq<nat>, now: nat, cut: set<nat>): set<nat>
    requires due != [] && InRange(due, |ts|) && InRange(rest, |ts|)
  {
    var left := Healed(cut - {due[0]}, due[1..] + rest, 0);
    if ts[due[0]].repeat && ts[due[0]].intv > 0
    then Healed(left, rest, Position(Entries(ts, rest), now + ts[due[0]].intv))
    else left
  }

  lemma {:induction false} HealedIsMended(ts: seq<Timer>, q: seq<nat>, cut: set<nat>, k: nat)
    requires InRange(q, |ts|)
    ensures Healed(cut, q, k) == Mended(cut, Entries(ts, q), k)
  {
  }

  lemma {:induction false} CutAfterIs(ts: seq<Timer>, due: seq<nat>, rest: seq<nat>, now: nat, cut: set<nat>)
    requires due != [] && InRange(due, |ts|) && InRange(rest, |ts|)
    ensures var ds, es := Entries(ts, due), Entries(ts, rest);
            var left := Mended(cut - {ds[0].id}, ds[1..] + es, 0);
            CutAfter(ts, due, rest, now, cut) ==
            if ds[0].repeat && ds[0].intv > 0 then Mended(left, es, Position(es, now + ds[0].intv)) else left
  {
    hide Position;
    assert Entries(ts, due)[1..] == Entries(ts, due[1..]);
    EntriesConcat(ts, due[1..], rest);
    HealedIsMended(ts, due[1..] + rest, cut - {due[0]}, 0);
    var left := Healed(cut - {due[0]}, due[1..] + rest, 0);
    HealedIsMended(ts, rest, left, Position(Entries(ts, rest), now + ts[due[0]].intv));
  }

  lemma {:induction false} MarksNext(ts: seq<Timer>, ts': seq<Timer>, front: seq<nat>, due: seq<nat>, rest: seq<nat>,
                                     now: nat, cut: set<nat>, lost: map<nat, nat>, tc: set<nat>, tl: map<nat, nat>,
                                     front': seq<nat>, rest': seq<nat>)
    requires Marks(ts, front, due, rest, now, cut, lost, tc, tl) && Moved(ts, ts', due, rest, now, rest')
    requires AllAfter(Entries(ts, rest), now)
    requires front' == if ts[due[0]].repeat && ts[due[0]].intv == 0 then [due[0]] else []
    ensures Marks(ts', front', due[1..], rest', now, CutAfter(ts, due, rest, now, cut), Pending(front, due, lost),
                  tc, tl)
  {
    hide FiredCut, Mended, CutAfter, AllAfter;
    CutAfterIs(ts, due, rest, now, cut);
    CutStep(Entries(ts, due), Entries(ts, rest), now, cut, Entries(ts', rest'), CutAfter(ts, due, rest, now, cut));
  }

  /** The active timers. */
  ghost function ActiveSet(ts: seq<Timer>): set<nat> { set t: nat | t < |ts| && ts[t].active }

  /** The timers active after an interrupt that fired `due`. */
  lemma {:induction false} ActiveFired(ts: seq<Timer>, ts': seq<Timer>, due: seq<nat>)
    requires InRange(due, |ts|) && |ts'| == |ts|
    requires forall t :: 0 <= t < |ts| ==> ts'[t].active == (ts[t].active && (t in due ==> ts[t].repeat))
    ensures ActiveSet(ts') == (set x | x in ActiveSet(ts) && !OneShot(Entries(ts, due), x))
  {
    forall x: nat | x < |ts| ensures OneShot(Entries(ts, due), x) <==> x in due && !ts[x].repeat {
      if x in due {
        var i :| 0 <= i < |due| && due[i] == x;
        assert Entries(ts, due)[i].id == x;
      }
    }
  }

  lemma {:induction false} FirstDue(ts: seq<Timer>, front: seq<nat>, due: seq<nat>, rest: seq<nat>, now: nat,
                                    target: seq<Entry<nat>>)
    requires Progress(ts, front, due, rest, now, target)
    ensures due != [] ==> due[0] < |ts| && ts[due[0]].expire == now
  {
    assert due != [] ==> Entries(ts, due)[0] == EntryOf(ts, due[0]);
  }

  lemma {:induction false} AllFired(ts: seq<Timer>, front: seq<nat>, rest: seq<nat>, now: nat, target: seq<Entry<nat>>)
    requires Progress(ts, front, [], rest, now, target)
    ensures InRange(front + rest, |ts|) && Entries(ts, front + rest) == target
  {
    EntriesConcat(ts, front, rest);
  }

  lemma {:induction false} QueuedIffId(ts: seq<Timer>, q: seq<nat>, t: nat)
    requires InRange(q, |ts|)
    ensures t in q <==> Ids(Entries(ts, q), t)
  {
    if t in q {
      var i :| 0 <= i < |q| && q[i] == t;
      assert Entries(ts, q)[i].id == t;
    }
  }

  /** An interrupt starts with its expired timers in front. */
  lemma {:induction false} DueFirst(ts: seq<Timer>, q: seq<nat>, n: nat)
    requires InRange(q, |ts|) && q != [] && Sorted(Entries(ts, q)) && n == Due(Entries(ts, q), ts[q[0]].expire)
    ensures 0 < n <= |q| && q == [] + q[..n] + q[n..]
    ensures Progress(ts, [], q[..n], q[n..], ts[q[0]].expire, AfterIrq(Entries(ts, q)))
  {
    hide Fired, Due, AfterIrq, Entries, AllAt, AllAfter, Sorted;
    EntriesSplit(ts, q, n);
    DueSplit(Entries(ts, q));
  }

  lemma {:induction false} EntriesSplit(ts: seq<Timer>, q: seq<nat>, n: nat)
    requires InRange(q, |ts|) && n <= |Entries(ts, q)|
    ensures |Entries(ts, q)| == |q| && (q != [] ==> Entries(ts, q)[0].expire == ts[q[0]].expire)
    ensures InRange(q[..n], |ts|) && Entries(ts, q[..n]) == Entries(ts, q)[..n]
    ensures InRange(q[n..], |ts|) && Entries(ts, q[n..]) == Entries(ts, q)[n..]
  {
  }

  lemma {:induction false} DueSplit(es: seq<Entry<nat>>)
    requires Sorted(es) && es != []
    ensures var now := es[0].expire;
            var n := Due(es, now);
            && 0 < n && AllAt(es[..n], now) && AllAfter(es[n..], now) && AfterIrq(es) == Fired(es[..n], es[n..], now)
  {
    hide Fired;
  }

  // ---------- the device ----------

  lemma {:induction false} LostKept(next: seq<int>, prev: seq<int>, next': seq<int>, prev': seq<int>,
                                    q: seq<nat>, q': seq<nat>, lost: map<nat, nat>)
    requires LostLinked(next, prev, q, lost) && |next'| == |next| == |prev'|
    requires forall a :: a in lost && a < |next| && a !in q ==>
               a !in q' && next'[a] == next[a] && (prev'[a] == prev[a] || prev'[a] == NULL)
    ensures LostLinked(next', prev', q', lost)
  {
    forall a | a in lost ensures LostAt(next', prev', q', a, lost[a]) {
      assert LostAt(next, prev, q, a, lost[a]);
    }
  }

  lemma {:induction false} AfterLost(next: seq<int>, prev: seq<int>, head: int, q: seq<nat>, cut: set<nat>,
                                     lost: map<nat, nat>, k: nat, t: nat)
    requires Linked(next, prev, head, q, cut) && LostLinked(next, prev, q, lost) && t < |next| && t !in q && t !in lost
    requires 1 <= k <= |q|
    ensures q[k - 1] < |next| && NULL <= next[q[k - 1]] < |next|
    ensures var c := q[k - 1];
            var prev' := if next[c] == NULL then prev[t := c] else prev[t := c][next[c] := t];
            LostLinked(next[t := next[c]][c := t], prev', q[..k] + [t] + q[k..], lost)
  {
    var c := q[k - 1];
    assert next[c] == if k < |q| then q[k] else NULL;
    hide Linked, LostLinked;
    var prev' := if next[c] == NULL then prev[t := c] else prev[t := c][next[c] := t];
    MembersInserted(q, k, t);
    LostKept(next, prev, next[t := next[c]][c := t], prev', q, q[..k] + [t] + q[k..], lost);
  }

  lemma {:induction false} ActiveChanged(ts: seq<Timer>, t: nat, v: Timer)
    requires t < |ts|
    ensures ActiveSet(ts[t := v]) == if v.active then ActiveSet(ts) + {t} else ActiveSet(ts) - {t}
  {
  }

  lemma {:induction false} Enqueued(ts: seq<Timer>, v: Timer, q: seq<nat>, cut: set<nat>, k: nat, t: nat)
    requires InRange(q, |ts|) && t < |ts| && t !in q && k == Position(Entries(ts, q), v.expire)
    ensures InRange(q[..k] + [t] + q[k..], |ts|)
    ensures Entries(ts[t := v], q[..k] + [t] + q[k..]) == TimerSpec.Insert(Entries(ts, q), EntryOf(ts[t := v], t))
    ensures Healed(cut, q, k) == Mended(cut, Entries(ts, q), k)
  {
    hide Position, Entries;
    EntriesKept(ts, q, t, v);
    EntriesInserted(ts[t := v], q, k, t);
    HealedIsMended(ts, q, cut, k);
  }

  // `s` after `a` is linked past to `b`.
  function Past(s: seq<int>, a: int, b: int): seq<int>
    requires NULL <= a < |s|
  {
    if a == NULL then s else s[a := b]
  }

  // The links after a timer was linked past in both directions.
  ghost predicate Bypassed(next: seq<int>, prev: seq<int>, next': seq<int>, prev': seq<int>, t: nat) {
    && t < |next| == |prev| && NULL <= prev[t] < |next| && NULL <= next[t] < |next|
    && next' == Past(next, prev[t], next[t]) && prev' == Past(prev, next[t], prev[t])
  }

  function Index(q: seq<nat>, t: nat): (k: nat)
    requires t in q
    ensures k < |q| && q[k] == t
  {
    if q[0] == t then 0 else 1 + Index(q[1..], t)
  }

  lemma {:induction false} LinkedBack(next: seq<int>, prev: seq<int>, head: int, q: seq<nat>, cut: set<nat>, k: nat)
    requires Linked(next, prev, head, q, cut) && 0 < k < |q| && q[k] !in cut
    ensures prev[q[k]] == q[k - 1] && next[q[k]] == if k + 1 < |q| then q[k + 1] else NULL
  {
  }

  lemma {:induction false} FindEntry(ts: seq<Timer>, q: seq<nat>, k: nat)
    requires InRange(q, |ts|) && Distinct(q) && k < |q|
    ensures Find(Entries(ts, q), q[k]) == k
  {
    hide Find;
    var es := Entries(ts, q);
    assert es[k].id == q[k];
  }

  lemma {:induction false} StoppedInner(s: State<nat>, ts: seq<Timer>, q: seq<nat>, k: nat)
    requires InRange(q, |ts|) && Distinct(q) && k < |q| && s.queue == Entries(ts, q) && q[k] !in s.cut
    ensures InRange(q[..k] + q[k + 1..], |ts|)
    ensures Stopped(s, q[k]) == s.(queue := Entries(ts, q[..k] + q[k + 1..]), active := s.active - {q[k]},
                                   cut := Healed(s.cut, q, k + 1))
  {
    hide Find, Entries, Without;
    FindEntry(ts, q, k);
    EntriesWithout(ts, q, k);
    HealedIsMended(ts, q, s.cut, k + 1);
    EntriesSplit(ts, q, 0);
  }

  lemma {:induction false} StoppedHead(s: State<nat>, ts: seq<Timer>, q: seq<nat>)
    requires InRange(q, |ts|) && Distinct(q) && q != [] && s.queue == Entries(ts, q) && q[0] !in s.cut
    ensures InRange(q[1..], |ts|)
    ensures Stopped(s, q[0]) ==
              s.(queue := Entries(ts, q[1..]), active := s.active - {q[0]}, cut := Healed(s.cut, q, 1))
  {
    hide Find, Entries, Without, Healed, Stopped;
    StoppedInner(s, ts, q, 0);
    assert q[..0] + q[0 + 1..] == q[1..];
  }

  lemma {:induction false} StoppedCut(s: State<nat>, ts: seq<Timer>, q: seq<nat>, k: nat)
    requires InRange(q, |ts|) && Distinct(q) && 0 < k < |q| && s.queue == Entries(ts, q) && q[k] in s.cut
    ensures Stopped(s, q[k]) ==
              s.(active := s.active - {q[k]}, cut := if k + 1 < |q| then s.cut + {q[k + 1]} else s.cut)
  {
    hide Find;
    FindEntry(ts, q, k);
  }

  lemma {:induction false} StoppedLost(s: State<nat>, ts: seq<Timer>, q: seq<nat>, t: nat)
    requires InRange(q, |ts|) && Distinct(q) && t !in q && s.queue == Entries(ts, q) && t in s.lost
    ensures var y := s.lost[t];
            Stopped(s, t) == s.(active := s.active - {t}, lost := s.lost - {t},
                                cut := if y in q && y != q[0] then s.cut + {y} else s.cut)
  {
    hide Find;
    var y, es := s.lost[t], Entries(ts, q);
    assert Find(es, t) == |es| by { QueuedIffId(ts, q, t); }
    if y in q && y != q[0] {
      var i :| 0 <= i < |q| && q[i] == y;
      assert es[i].id == y;
    }
    assert Behind(es, y) <==> y in q && y != q[0];
  }

  lemma {:induction false} StoppedActive(s: State<nat>, x: nat)
    ensures Stopped(s, x).active == s.active - {x}
  {
  }

  /** What an interrupt leaves of the timers it takes off: the one standing before, if any, is lost. */
  lemma {:induction false} LeftBehind(next: seq<int>, prev: seq<int>, head: int, q: seq<nat>, cut: set<nat>,
                                      lost: map<nat, nat>, f: nat)
    requires Linked(next, prev, head, q, cut) && LostLinked(next, prev, q, lost) && f < |q|
    requires f == 0 || (f == 1 && HeadClear(prev, q))
    ensures var lost' := if f == 0 then lost else lost[q[0] := q[f]];
            && q[f] < |next| && q[f] !in q[f + 1..] && q[f] !in lost'
            && LostLinked(next[q[f] := NULL], prev[q[f] := NULL], q[f + 1..], lost')
    ensures next[q[f]] == (if f + 1 < |q| then q[f + 1] else NULL) && forall i :: 0 <= i < f ==> q[i] !in cut
  {
    var lost' := if f == 0 then lost else lost[q[0] := q[f]];
    forall a | a in lost' ensures a != q[f] && LostAt(next[q[f] := NULL], prev[q[f] := NULL], q[f + 1..], a, lost'[a]) {
      if a in lost { assert LostAt(next, prev, q, a, lost[a]); }
      assert q[0] !in q[f + 1..];
    }
  }

  lemma {:induction false} Cleared(next: seq<int>, prev: seq<int>, head: int, q: seq<nat>, cut: set<nat>,
                                   lost: map<nat, nat>)
    requires Linked(next, prev, head, q, cut) && LostLinked(next, prev, q, lost)
    ensures var prev' := if q == [] then prev else prev[q[0] := NULL];
            Linked(next, prev', head, q, cut) && LostLinked(next, prev', q, lost) && HeadClear(prev', q)
  {
    if q != [] { LostKept(next, prev, next, prev[q[0] := NULL], q, q, lost); }
  }

  // Queueing a fired timer again mends what it is put in front of, and nothing if that comes first.
  lemma {:induction false} HealedTwice(ts: seq<Timer>, due: seq<nat>, rest: seq<nat>, now: nat, cut: set<nat>)
    requires due != [] && InRange(due, |ts|) && InRange(rest, |ts|)
    ensures var left := Healed(cut - {due[0]}, due[1..] + rest, 0);
            && Healed(left, due[1..] + rest, 0) == left
            && forall j: nat {:trigger Healed(left, rest, j)} ::
                 Healed(left, due[1..] + rest, |due[1..]| + j) == Healed(left, rest, j)
  {
  }

  /** A round whose timer is queued again. */
  lemma {:induction false} FiredAgain(ts: seq<Timer>, front: seq<nat>, due: seq<nat>, rest: seq<nat>, now: nat,
                                      cut: set<nat>, lost: map<nat, nat>, target: State<nat>,
                                      front': seq<nat>, rest': seq<nat>, cut': set<nat>)
    requires Progress(ts, front, due, rest, now, target.queue)
    requires Marks(ts, front, due, rest, now, cut, lost, target.cut, target.lost)
    requires due != [] && due[0] < |ts| && due[0] !in due[1..] + rest && ts[due[0]].repeat
    requires var left := Healed(cut - {due[0]}, due[1..] + rest, 0);
             if ts[due[0]].intv == 0
             then front' == [due[0]] && rest' == rest && cut' == Healed(left, due[1..] + rest, 0)
             else InRange(rest, |ts|) && var j := Position(Entries(ts, rest), now + ts[due[0]].intv);
                  && front' == [] && rest' == rest[..j] + [due[0]] + rest[j..]
                  && cut' == Healed(left, due[1..] + rest, |due[1..]| + j)
    ensures var ts' := ts[due[0] := Refired(ts[due[0]], now)];
            && Progress(ts', front', due[1..], rest', now, target.queue)
            && Marks(ts', front', due[1..], rest', now, cut', Pending(front, due, lost), target.cut, target.lost)
  {
    hide Fired, Position, Progress, AllAt, AllAfter, Entries, Marks, InRange, Healed, Moved;
    BehindFirst(ts, front, due, rest, now, target.queue);
    if ts[due[0]].intv == 0 {
      RoundZero(ts, front, due, rest, now, target.queue);
    } else {
      RoundLater(ts, front, due, rest, now, target.queue, rest');
    }
    HealedTwice(ts, due, rest, now, cut);
    MarksNext(ts, ts[due[0] := Refired(ts[due[0]], now)], front, due, rest, now, cut, lost, target.cut, target.lost,
              front', rest');
  }

  /** A round whose timer fires once only. */
  lemma {:induction false} FiredOnce(ts: seq<Timer>, front: seq<nat>, due: seq<nat>, rest: seq<nat>, now: nat,
                                     cut: set<nat>, lost: map<nat, nat>, target: State<nat>, v: Timer)
    requires Progress(ts, front, due, rest, now, target.queue)
    requires Marks(ts, front, due, rest, now, cut, lost, target.cut, target.lost)
    requires due != [] && due[0] < |ts| && due[0] !in due[1..] + rest && !ts[due[0]].repeat
    ensures Progress(ts[due[0] := v], [], due[1..], rest, now, target.queue)
    ensures Marks(ts[due[0] := v], [], due[1..], rest, now, Healed(cut - {due[0]}, due[1..] + rest, 0),
                  Pending(front, due, lost), target.cut, target.lost)
  {
    hide Fired, Position, Progress, AllAt, AllAfter, Entries, Marks, InRange, Healed, Moved;
    BehindFirst(ts, front, due, rest, now, target.queue);
    RoundOnce(ts, front, due, rest, now, target.queue, v);
    MarksNext(ts, ts[due[0] := v], front, due, rest, now, cut, lost, target.cut, target.lost, [], rest);
  }

  class TimerDevice {
    var next: seq<int>
    var prev: seq<int>
    var timers: seq<Timer>
    var queue: int                // the first timer, or NULL
    var totalTicks: nat
    var armed: nat                // the delay last given to the hardware
    ghost var q: seq<nat>         // the queue in order
    ghost var lost: map<nat, nat> // the lost timers and what their forward links name
    ghost var cut: set<nat>       // the queued timers without a back link
    ghost var fired: seq<nat>     // the timers whose tasklets interrupts have scheduled
    ghost var log: seq<Event<nat>> // what was called so far

    ghost predicate Shape()
      reads `next, `prev, `timers, `queue, `q, `lost, `cut
    {
      |timers| == |next| && InRange(q, |timers|) && Linked(next, prev, queue, q, cut) && LostLinked(next, prev, q, lost)
    }

    ghost function Now(): State<nat>
      requires Shape()
      reads `next, `prev, `timers, `queue, `q, `lost, `cut, `totalTicks
    {
      State(totalTicks, Entries(timers, q), ActiveSet(timers), lost, cut)
    }

    ghost predicate QueueOk()
      reads `next, `prev, `timers, `queue, `q, `lost, `cut, `totalTicks
    {
      Shape() && HeadClear(prev, q) && Inv(Now())
    }

    /** The links are in order, and the calls so far are a run that leads here. */
    ghost predicate Traced()
      reads `next, `prev, `timers, `queue, `q, `lost, `cut, `totalTicks, `log
    {
      QueueOk() && Leads(Fresh(0), log, Now())
    }

    ghost predicate Valid()
      reads `next, `prev, `timers, `queue, `q, `lost, `cut, `totalTicks, `log
    {
      Traced() && Right(Now())
    }

    /** `n` inactive timers, none of them queued. */
    constructor (n: nat, ts: seq<Timer>)
      requires |ts| == n && forall t :: 0 <= t < n ==> !ts[t].active
      ensures Valid() && q == [] && fired == [] && log == [] && timers == ts && Now() == Fresh(0)
    {
      next, prev, timers := seq(n, _ => NULL), seq(n, _ => NULL), ts;
      queue, totalTicks, armed, q, fired := NULL, 0, 0, [], [];
      lost, cut, log := map[], {}, [];
    }

    /** As long as repeating timers are only inserted with positive intervals, nothing is lost and the device
        stays valid. */
    lemma {:induction false} PositiveStaysValid()
      requires Traced() && forall i :: 0 <= i < |log| ==> Positive(log[i])
      ensures Valid() && lost == map[] && cut == {}
    {
      RunOfPositiveIntervals(0, log, Now());
    }

    /** The last timer that expires strictly before `expire`, when the first one does. */
    method Locate(expire: nat) returns (check: nat, ghost k: nat)
      requires Shape() && queue != NULL && timers[queue].expire < expire
      ensures k == Position(Entries(timers, q), expire) && 1 <= k <= |q| && check == q[k - 1]
    {
      hide LostLinked, PrevLinked;
      k := Position(Entries(timers, q), expire);
      check := queue;
      ghost var i := 0;
      while true
        invariant 0 <= i < k && check == q[i]
        decreases k - i
      {
        if next[check] == NULL || expire <= timers[next[check]].expire { break; }
        check := next[check];
        i := i + 1;
      }
    }

    method LinkFront(t: nat)
      requires Linked(next, prev, queue, q, cut) && LostLinked(next, prev, q, lost) && t < |next| && t !in q
      requires t !in lost
      modifies this`next, this`prev, this`queue, this`q
      ensures Linked(next, prev, queue, q, cut) && LostLinked(next, prev, q, lost) && |next| == |old(next)|
      ensures q == [t] + old(q) && HeadClear(prev, q) && Healed(cut, old(q), 0) == cut
    {
      FrontLinked(next, prev, queue, q, cut, t);
      assert queue != NULL ==> q != [] && queue == q[0] && 0 <= queue < |next|;
      hide Linked, LostLinked;
      next := next[t := queue];
      if queue != NULL { prev := prev[queue := t]; }
      prev := prev[t := NULL];
      queue := t;
      q := [t] + q;
      LostKept(old(next), old(prev), next, prev, old(q), q, lost);
    }

    method LinkAfter(check: nat, t: nat, ghost k: nat)
      requires Linked(next, prev, queue, q, cut) && LostLinked(next, prev, q, lost) && t < |next| && t !in q
      requires t !in lost
      requires 1 <= k <= |q| && check == q[k - 1]
      modifies this`next, this`prev, this`q, this`cut
      ensures Linked(next, prev, queue, q, cut) && LostLinked(next, prev, q, lost) && |next| == |old(next)|
      ensures q == old(q)[..k] + [t] + old(q)[k..] && cut == Healed(old(cut), old(q), k)
      ensures HeadClear(old(prev), old(q)) ==> HeadClear(prev, q)
    {
      AfterLinked(next, prev, queue, q, cut, k, t);
      AfterLost(next, prev, queue, q, cut, lost, k, t);
      hide Linked, LostLinked, Healed;
      if next[check] == NULL {
        next := next[t := NULL][check := t];
        prev := prev[t := check];
      } else {
        prev := prev[t := check][next[check] := t];
        next := next[t := next[check]][check := t];
      }
      cut := Healed(cut, q, k);
      q := q[..k] + [t] + q[k..];
    }

    /** Link a timer in front of the first one that expires no earlier. */
    method LinkSorted(t: nat) returns (ghost k: nat)
      requires Shape() && t < |timers| && t !in q && t !in lost
      modifies this`next, this`prev, this`queue, this`q, this`cut
      ensures Shape() && k == Position(Entries(timers, old(q)), timers[t].expire)
      ensures q == old(q)[..k] + [t] + old(q)[k..] && cut == Healed(old(cut), old(q), k)
      ensures k == 0 || HeadClear(old(prev), old(q)) ==> HeadClear(prev, q)
    {
      hide Linked, LostLinked, Position, HeadClear, Entries;
      FrontIffZero(timers[t].expire);
      if queue == NULL || timers[t].expire <= timers[queue].expire {
        k := 0;
        LinkFront(t);
        assert old(q)[..0] + [t] + old(q)[0..] == [t] + old(q);
      } else {
        var check;
        check, k := Locate(timers[t].expire);
        LinkAfter(check, t, k);
      }
    }

    /** timer_insertLocked: the timer is due one interval from now. */
    method InsertLocked(t: nat) returns (ghost k: nat)
      requires Shape() && t < |timers| && t !in q && t !in lost
      modifies this`next, this`prev, this`timers, this`queue, this`q, this`cut
      ensures timers == old(timers)[t := old(timers[t]).(expire := totalTicks + old(timers[t].intv))]
      ensures Shape() && k == Position(Entries(old(timers), old(q)), timers[t].expire)
      ensures q == old(q)[..k] + [t] + old(q)[k..] && cut == Healed(old(cut), old(q), k)
      ensures k == 0 || HeadClear(old(prev), old(q)) ==> HeadClear(prev, q)
    {
      hide Linked, LostLinked, Position, HeadClear, Entries;
      timers := timers[t := timers[t].(expire := totalTicks + timers[t].intv)];
      EntriesKept(old(timers), q, t, timers[t]);
      k := LinkSorted(t);
    }

    lemma {:induction false} FrontIffZero(expire: nat)
      requires Shape()
      ensures queue != NULL ==> 0 <= queue < |timers|
      ensures queue == NULL || expire <= timers[queue].expire <==> Position(Entries(timers, q), expire) == 0
    {
    }

    /** timer_stop: what the hardware counted since it was armed, at most the armed delay. */
    method StopHardware(elapsed: nat)
      requires QueueOk() && (queue != NULL ==> totalTicks + elapsed <= timers[queue].expire)
      modifies this`totalTicks
      ensures totalTicks == old(totalTicks) + if queue == NULL then 0 else elapsed
      ensures QueueOk()
    {
      OrderLater(Now(), if queue == NULL then 0 else elapsed);
      hide InOrder, Linked, LostLinked;
      if queue != NULL {
        totalTicks := totalTicks + elapsed;
      }
    }

    /** timer_arm. */
    method Arm()
      requires QueueOk()
      modifies this`armed
      ensures queue != NULL ==> armed == timers[queue].expire - totalTicks
    {
      if queue == NULL { return; }
      assert Now().queue[0].expire == timers[queue].expire;
      armed := timers[queue].expire - totalTicks;
    }

    ghost predicate Elapsed(elapsed: nat)
      requires Shape()
      reads this
    {
      elapsed == 0 || (queue != NULL && totalTicks + elapsed <= timers[queue].expire)
    }

    lemma {:induction false} CanStart(t: nat, elapsed: nat)
      requires QueueOk() && t < |timers| && t !in q && Elapsed(elapsed)
      ensures var e := Start(elapsed, t, timers[t].intv, timers[t].repeat);
              Enabled(Now(), e) && Inv(Apply(Now(), e)) && (Right(Now()) ==> Right(Apply(Now(), e)))
    {
      QueuedIffId(timers, q, t);
      StartInv(Now(), Start(elapsed, t, timers[t].intv, timers[t].repeat));
    }

    /** Queue a timer as of now. */
    method Enqueue(t: nat)
      requires Shape() && HeadClear(prev, q) && t < |timers| && t !in q
      modifies this`next, this`prev, this`timers, this`queue, this`q, this`cut, this`lost
      ensures Shape() && HeadClear(prev, q) && lost == old(lost) - {t}
      ensures timers == old(timers)[t := old(timers[t]).(expire := totalTicks + old(timers[t].intv),
                                                         base := totalTicks, fires := 0)]
      ensures Entries(timers, q) == TimerSpec.Insert(old(Entries(timers, q)), EntryOf(timers, t))
      ensures cut == Mended(old(cut), old(Entries(timers, q)), Position(old(Entries(timers, q)), timers[t].expire))
    {
      hide Linked, LostLinked, Position, HeadClear, Entries, Mended, Healed, TimerSpec.Insert, InRange;
      Forget(t);
      Stamp(t);
      ghost var k := InsertLocked(t);
      Enqueued(old(timers), timers[t], old(q), old(cut), k, t);
    }

    // Note when a timer was inserted.
    method Stamp(t: nat)
      requires Shape() && t < |timers| && t !in q
      modifies this`timers
      ensures timers == old(timers)[t := old(timers[t]).(base := totalTicks, fires := 0)]
      ensures Shape() && Entries(timers, q) == old(Entries(timers, q))
    {
      hide Linked, LostLinked, Entries;
      EntriesKept(timers, q, t, timers[t].(base := totalTicks, fires := 0));
      timers := timers[t := timers[t].(base := totalTicks, fires := 0)];
    }

    // A timer about to be queued is no longer lost.
    ghost method Forget(t: nat)
      requires LostLinked(next, prev, q, lost)
      modifies this`lost
      ensures lost == old(lost) - {t} && LostLinked(next, prev, q, lost)
    {
      lost := lost - {t};
    }

    /** timer_insert. */
    method Insert(t: nat, elapsed: nat)
      requires Valid() && t < |timers| && t !in q
      requires queue != NULL ==> totalTicks + elapsed <= timers[queue].expire
      modifies this
      ensures Valid() && |timers| == |old(timers)| && timers[t].active && fired == old(fired)
      ensures var e := Start(if old(queue) == NULL then 0 else elapsed, t, old(timers[t].intv), old(timers[t].repeat));
              Enabled(old(Now()), e) && Now() == Apply(old(Now()), e) && log == old(log) + [e]
      ensures queue != NULL ==> armed == timers[queue].expire - totalTicks
    {
      hide Linked, LostLinked, HeadClear, Inv, Right, Leads, Started, Enabled, Entries, InRange, ActiveSet;
      ghost var e := Start(if queue == NULL then 0 else elapsed, t, timers[t].intv, timers[t].repeat);
      CanStart(t, e.elapsed);
      LeadsSnoc(Fresh(0), log, Now(), e);
      StopHardware(elapsed);
      Activate(t);
      log := log + [e];
      hide Apply;
      Reached(Apply(old(Now()), e));
      Arm();
    }

    /** Queue a timer as of now and mark it active. */
    method Activate(t: nat)
      requires Shape() && HeadClear(prev, q) && t < |timers| && t !in q
      modifies this`next, this`prev, this`timers, this`queue, this`q, this`cut, this`lost
      ensures Shape() && HeadClear(prev, q) && |timers| == |old(timers)| && timers[t].active
      ensures Now() == Started(old(Now()), t, old(timers[t].intv), old(timers[t].repeat))
    {
      hide Linked, LostLinked, HeadClear, TimerSpec.Insert, Entries, InRange, Mended, Position, ActiveSet;
      Enqueue(t);
      ActiveChanged(old(timers), t, timers[t]);
      SetActive(t, true);
    }

    lemma {:induction false} Reached(s: State<nat>)
      requires Shape() && HeadClear(prev, q) && Now() == s && Inv(s) && Leads(Fresh(0), log, s)
      ensures Traced() && (Right(s) ==> Valid())
    {
    }

    /** Change a timer's active flag, which the queue does not look at. */
    method SetActive(t: nat, b: bool)
      requires Shape() && t < |timers|
      modifies this`timers
      ensures timers == old(timers)[t := old(timers[t]).(active := b)] && Shape()
      ensures Now() == old(Now()).(active := if b then ActiveSet(old(timers)) + {t} else ActiveSet(old(timers)) - {t})
    {
      hide Linked, LostLinked;
      timers := timers[t := timers[t].(active := b)];
      ActiveChanged(old(timers), t, timers[t]);
    }

    method UnlinkFirst(t: nat)
      requires Linked(next, prev, queue, q, cut) && LostLinked(next, prev, q, lost) && q != [] && t == q[0]
      modifies this`prev, this`queue, this`q, this`cut
      ensures Linked(next, prev, queue, q, cut) && LostLinked(next, prev, q, lost) && HeadClear(prev, q)
      ensures q == old(q)[1..] && cut == Healed(old(cut), old(q), 1)
    {
      LinkInRange(next, prev, queue, q, cut, 0);
      UnlinkHead(next, prev, queue, q, cut);
      hide Linked, HeadClear, LostLinked;
      queue := next[t];
      if queue != NULL { prev := prev[queue := NULL]; }
      cut := Healed(cut, q, 1);
      q := q[1..];
      LostKept(next, old(prev), next, prev, old(q), q, lost);
    }

    /** Take a timer that is not the first out of the links it has. */
    method UnlinkOther(t: nat)
      requires |prev| == |next| && t < |next| && NULL <= prev[t] < |next| && NULL <= next[t] < |next| && prev[t] != t
      modifies this`next, this`prev
      ensures next == Past(old(next), old(prev[t]), old(next[t])) && prev == Past(old(prev), old(next[t]), old(prev[t]))
    {
      if prev[t] != NULL { next := next[prev[t] := next[t]]; }
      if next[t] != NULL { prev := prev[next[t] := prev[t]]; }
    }

    // A queued timer with a back link: it is out.
    ghost method SettleInner(k: nat, next0: seq<int>, prev0: seq<int>)
      requires Linked(next0, prev0, queue, q, cut) && LostLinked(next0, prev0, q, lost) && HeadClear(prev0, q)
      requires 0 < k < |q| && q[k] !in cut && Bypassed(next0, prev0, next, prev, q[k])
      modifies this`q, this`cut
      ensures Linked(next, prev, queue, q, cut) && LostLinked(next, prev, q, lost) && HeadClear(prev, q)
      ensures q == old(q)[..k] + old(q)[k + 1..] && cut == Healed(old(cut), old(q), k + 1)
    {
      UnlinkMiddle(next0, prev0, queue, q, cut, k);
      LinkedBack(next0, prev0, queue, q, cut, k);
      hide Linked, HeadClear, LostLinked;
      MembersWithout(q, k);
      LostKept(next0, prev0, next, prev, q, q[..k] + q[k + 1..], lost);
      cut := Healed(cut, q, k + 1);
      q := q[..k] + q[k + 1..];
    }

    // A queued timer without a back link: it stays, and the next one's back link is cut.
    ghost method SettleCut(k: nat, next0: seq<int>, prev0: seq<int>)
      requires Linked(next0, prev0, queue, q, cut) && LostLinked(next0, prev0, q, lost) && HeadClear(prev0, q)
      requires 0 < k < |q| && q[k] in cut && Bypassed(next0, prev0, next, prev, q[k])
      modifies this`cut
      ensures Linked(next, prev, queue, q, cut) && LostLinked(next, prev, q, lost) && HeadClear(prev, q)
      ensures cut == if k + 1 < |q| then old(cut) + {q[k + 1]} else old(cut)
    {
      UnlinkCut(next0, prev0, queue, q, cut, k);
      hide Linked, HeadClear, LostLinked;
      LostKept(next0, prev0, next, prev, q, q, lost);
      cut := if k + 1 < |q| then cut + {q[k + 1]} else cut;
    }

    // A lost timer: the back link of the timer it names is cut.
    ghost method SettleLost(t: nat, next0: seq<int>, prev0: seq<int>)
      requires Linked(next0, prev0, queue, q, cut) && LostLinked(next0, prev0, q, lost) && HeadClear(prev0, q)
      requires t in lost && Bypassed(next0, prev0, next, prev, t)
      modifies this`cut, this`lost
      ensures Linked(next, prev, queue, q, cut) && LostLinked(next, prev, q, lost) && HeadClear(prev, q)
      ensures lost == old(lost) - {t}
      ensures cut == if old(lost)[t] in q && old(lost)[t] != q[0] then old(cut) + {old(lost)[t]} else old(cut)
    {
      var y := lost[t];
      assert LostAt(next0, prev0, q, t, y);
      CutBack(next0, prev0, queue, q, cut, y);
      hide Linked, HeadClear;
      LostKept(next0, prev0, next, prev, q, q, lost);
      Forget(t);
      cut := if y in q && y != q[0] then cut + {y} else cut;
    }

    // What unlinking may rely on: a timer that is queued, not first, or lost.
    lemma {:induction false} LinksInRange(t: nat)
      requires Shape() && ((t in q && t != queue) || t in lost)
      ensures t < |next| && |prev| == |next| && NULL <= prev[t] < |next| && NULL <= next[t] < |next| && prev[t] != t
    {
      if t in lost {
        assert LostAt(next, prev, q, t, lost[t]);
      } else {
        var k :| 0 <= k < |q| && q[k] == t;
        assert prev[q[k]] == if q[k] in cut then NULL else q[k - 1];
        LinkInRange(next, prev, queue, q, cut, k);
      }
    }

    // What becomes of an unlinked timer that was not the first depends on its back link.
    ghost method Settle(t: nat, s: State<nat>, next0: seq<int>, prev0: seq<int>)
      requires Linked(next0, prev0, queue, q, cut) && LostLinked(next0, prev0, q, lost) && HeadClear(prev0, q)
      requires |timers| == |next0| == |next| && InRange(q, |timers|) && Distinct(q)
      requires Bypassed(next0, prev0, next, prev, t)
      requires if t in lost then t !in q else t in q && Index(q, t) > 0
      requires s == State(totalTicks, Entries(timers, q), ActiveSet(timers), lost, cut)
      modifies this`q, this`cut, this`lost
      ensures Shape() && HeadClear(prev, q) && Now() == Stopped(s, t).(active := s.active)
    {
      hide Linked, HeadClear, LostLinked, Entries, ActiveSet, Stopped, Bypassed;
      if t in lost {
        SettleLost(t, next0, prev0);
        StoppedLost(s, timers, q, t);
      } else {
        var k := Index(q, t);
        if t in cut {
          SettleCut(k, next0, prev0);
          StoppedCut(s, timers, q, k);
        } else {
          SettleInner(k, next0, prev0);
          StoppedInner(s, timers, old(q), k);
        }
      }
    }

    /** Unlink a timer that is not the first. */
    method UnlinkRest(t: nat)
      requires Shape() && HeadClear(prev, q) && ((t in q && t != queue) || t in lost)
      modifies this`next, this`prev, this`q, this`cut, this`lost
      ensures Shape() && HeadClear(prev, q) && Now() == Stopped(old(Now()), t).(active := old(Now()).active)
    {
      LinksInRange(t);
      Outside(t);
      hide Linked, HeadClear, LostLinked, Entries, ActiveSet, Stopped;
      UnlinkOther(t);
      Settle(t, old(Now()), old(next), old(prev));
    }

    lemma {:induction false} Outside(t: nat)
      requires Shape()
      ensures (t in lost ==> t !in q) && Distinct(q)
      ensures t in q && t != queue ==> Index(q, t) > 0
    {
      if t in lost { assert LostAt(next, prev, q, t, lost[t]); }
    }

    method UnlinkLead(t: nat)
      requires Shape() && q != [] && t == q[0]
      modifies this`prev, this`queue, this`q, this`cut
      ensures Shape() && HeadClear(prev, q) && Now() == Stopped(old(Now()), t).(active := old(Now()).active)
    {
      hide Linked, HeadClear, LostLinked, Entries, ActiveSet, Stopped, Healed, InRange, Distinct;
      HeadQueued(t);
      StoppedHead(Now(), timers, q);
      UnlinkFirst(t);
    }

    /** Take a timer that is marked active out of the list. */
    method Unlink(t: nat)
      requires Shape() && HeadClear(prev, q) && (t in q || t in lost)
      modifies this`next, this`prev, this`queue, this`q, this`cut, this`lost
      ensures Shape() && HeadClear(prev, q) && Now() == Stopped(old(Now()), t).(active := old(Now()).active)
    {
      HeadQueued(t);
      hide Shape, HeadClear, Stopped;
      if t == queue {
        UnlinkLead(t);
      } else {
        UnlinkRest(t);
      }
    }

    lemma {:induction false} HeadQueued(t: nat)
      requires Shape()
      ensures t == queue <==> q != [] && t == q[0]
      ensures Distinct(q) && (q != [] ==> q[0] !in cut)
    {
    }

    /** Take a timer that is marked active out of the list and clear the mark. */
    method Deactivate(t: nat)
      requires Shape() && HeadClear(prev, q) && (t in q || t in lost) && t < |timers|
      modifies this`next, this`prev, this`timers, this`queue, this`q, this`cut, this`lost
      ensures Shape() && HeadClear(prev, q) && |timers| == |old(timers)| && !timers[t].active
      ensures Now() == Stopped(old(Now()), t)
    {
      hide Linked, HeadClear, LostLinked, Stopped, Entries, InRange;
      StoppedActive(Now(), t);
      Unlink(t);
      SetActive(t, false);
    }

    lemma {:induction false} CanStop(t: nat, elapsed: nat)
      requires QueueOk() && Right(Now()) && Elapsed(elapsed) && t < |timers|
      ensures var e := Stop(elapsed, t);
              && Enabled(Now(), e) && Inv(Apply(Now(), e))
              && (Right(Apply(Now(), e)) <==> !Misses(Now(), e))
              && (timers[t].active <==> t in Now().active) && (timers[t].active ==> t in q || t in lost)
    {
      QueuedIffId(timers, q, t);
      StopInv(Now(), Stop(elapsed, t));
      StopRightIff(Now(), Stop(elapsed, t));
      assert timers[t].active <==> t in Now().active;
    }

    /** timer_remove: 1 and no change to the queue when the timer is not active.  The queue is right afterwards
        exactly when the timer is not an active one queued without a back link. */
    method Remove(t: nat, elapsed: nat) returns (r: int)
      requires Valid() && t < |timers|
      requires queue != NULL ==> totalTicks + elapsed <= timers[queue].expire
      modifies this
      ensures Traced() && |timers| == |old(timers)| && !timers[t].active && fired == old(fired)
      ensures Valid() <==> !(old(timers[t].active) && t in old(cut))
      ensures r == if old(timers[t].active) then 0 else 1
      ensures var e := Stop(if old(queue) == NULL then 0 else elapsed, t);
              Enabled(old(Now()), e) && Now() == Apply(old(Now()), e) && log == old(log) + [e]
      ensures queue != NULL ==> armed == timers[queue].expire - totalTicks
    {
      hide Linked, LostLinked, HeadClear, Inv, Right, Leads, Enabled, Entries, InRange, Stopped, ActiveSet;
      ghost var e := Stop(if queue == NULL then 0 else elapsed, t);
      CanStop(t, e.elapsed);
      LeadsSnoc(Fresh(0), log, Now(), e);
      StopHardware(elapsed);
      if timers[t].active {
        Deactivate(t);
        r := 0;
      } else {
        r := 1;
      }
      log := log + [e];
      hide Apply;
      Reached(Apply(old(Now()), e));
      Arm();
    }

    /** Take a timer off the list, and with it the one that may stand before it, which is lost. */
    method Detach(ev: nat, ghost f: nat) returns (nextEv: int)
      requires Linked(next, prev, queue, q, cut) && LostLinked(next, prev, q, lost) && f < |q| && q[f] == ev
      requires f == 0 || (f == 1 && HeadClear(prev, q))
      modifies this`next, this`prev, this`queue, this`q, this`cut, this`lost
      ensures Linked(next, prev, queue, q, cut) && LostLinked(next, prev, q, lost) && |next| == |old(next)|
      ensures q == old(q)[f + 1..] && ev !in q && ev !in lost && nextEv == (if q == [] then NULL else q[0])
      ensures cut == Healed(old(cut) - {ev}, old(q), f + 1)
      ensures lost == if f == 0 then old(lost) else old(lost)[old(q)[0] := ev]
    {
      SuffixLinked(next, prev, queue, q, cut, f);
      LeftBehind(next, prev, queue, q, cut, lost, f);
      nextEv := next[ev];
      hide LostLinked;
      queue := nextEv;
      next, prev := next[ev := NULL], prev[ev := NULL];
      cut := Healed(cut - {ev}, q, f + 1);
      lost := if f == 0 then lost else lost[q[0] := ev];
      q := q[f + 1..];
    }

    /** Count a firing and queue the timer again. */
    method Rearm(ev: nat) returns (ghost k: nat)
      requires Shape() && ev < |timers| && ev !in q && ev !in lost
      modifies this`next, this`prev, this`timers, this`queue, this`q, this`cut
      ensures timers == old(timers)[ev := Refired(old(timers[ev]), totalTicks)]
      ensures Shape() && k == Position(Entries(old(timers), old(q)), timers[ev].expire)
      ensures q == old(q)[..k] + [ev] + old(q)[k..] && cut == Healed(old(cut), old(q), k)
      ensures k == 0 ==> HeadClear(prev, q)
    {
      hide Linked, LostLinked, Position, HeadClear, Healed, Entries;
      timers := timers[ev := timers[ev].(fires := timers[ev].fires + 1)];
      EntriesKept(old(timers), q, ev, timers[ev]);
      k := InsertLocked(ev);
    }

    /** A fired timer goes back behind the expired timers `due` still to come, or, when its interval
        is 0, in front of them. */
    method Requeue(ev: nat, ghost due: seq<nat>, ghost rest: seq<nat>)
      returns (ghost front: seq<nat>, ghost rest': seq<nat>)
      requires Shape() && ev < |timers| && ev !in q && ev !in lost && q == due + rest
      requires InRange(due, |timers|) && InRange(rest, |timers|)
      requires AllAt(Entries(timers, due), totalTicks) && AllAfter(Entries(timers, rest), totalTicks)
      modifies this`next, this`prev, this`timers, this`queue, this`q, this`cut
      ensures timers == old(timers)[ev := Refired(old(timers[ev]), totalTicks)]
      ensures Shape() && q == front + due + rest'
      ensures if timers[ev].intv == 0
              then front == [ev] && rest' == rest && HeadClear(prev, q) && cut == Healed(old(cut), due + rest, 0)
              else var j := Position(Entries(old(timers), rest), timers[ev].expire);
                   && front == [] && rest' == rest[..j] + [ev] + rest[j..]
                   && cut == Healed(old(cut), due + rest, |due| + j)
    {
      hide Linked, Position, Shape, AllAt, AllAfter, Entries, InRange, Healed, HeadClear;
      front, rest' := Requeued(timers, due, rest, ev, totalTicks);
      ghost var k := Rearm(ev);
    }

    // The state of an interrupt in progress.
    ghost predicate Serving(front: seq<nat>, due: seq<nat>, rest: seq<nat>, target: State<nat>)
      reads `next, `prev, `timers, `queue, `q, `lost, `cut, `totalTicks
    {
      && Shape() && q == front + due + rest && (front != [] ==> HeadClear(prev, q))
      && Progress(timers, front, due, rest, totalTicks, target.queue)
      && Marks(timers, front, due, rest, totalTicks, cut, lost, target.cut, target.lost)
    }

    /** Start a round: take the first due timer off. */
    method TakeOff(ev: nat, ghost front: seq<nat>, ghost due: seq<nat>, ghost rest: seq<nat>, ghost target: State<nat>)
      returns (nextEv: int)
      requires Serving(front, due, rest, target) && due != [] && ev == due[0]
      modifies this`next, this`prev, this`queue, this`q, this`cut, this`lost
      ensures Shape() && q == due[1..] + rest && ev < |timers| && ev !in q && ev !in lost
      ensures nextEv == if q == [] then NULL else q[0]
      ensures cut == Healed(old(cut) - {ev}, due[1..] + rest, 0) && lost == Pending(front, due, old(lost))
    {
      hide Linked, LostLinked, Marks, HeadClear, Entries;
      assert q[|front|] == ev && q[|front| + 1..] == due[1..] + rest;
      assert |front| + 1 < |q| ==> q[|front| + 1] == (due[1..] + rest)[0];
      nextEv := Detach(ev, |front|);
    }

    /** One round of the interrupt's loop. */
    method FireNext(ev: nat, ghost front: seq<nat>, ghost due: seq<nat>, ghost rest: seq<nat>, ghost target: State<nat>)
      returns (nextEv: int, ghost front': seq<nat>, ghost rest': seq<nat>)
      requires Serving(front, due, rest, target) && due != [] && ev == due[0]
      modifies this`next, this`prev, this`timers, this`queue, this`q, this`cut, this`lost
      ensures |timers| == |old(timers)| && Serving(front', due[1..], rest', target)
      ensures if |due| > 1 then nextEv == due[1]
              else nextEv == NULL || (0 <= nextEv < |timers| && timers[nextEv].expire > totalTicks)
      ensures ev < |timers|
      ensures timers == old(timers)[ev := if old(timers[ev].repeat) then Refired(old(timers[ev]), totalTicks)
                                          else old(timers[ev]).(active := false)]
    {
      hide Shape, Progress, AllAt, AllAfter, Entries, Marks, HeadClear, InRange, Healed;
      BehindFirst(timers, front, due, rest, totalTicks, target.queue);
      nextEv := TakeOff(ev, front, due, rest, target);
      front', rest' := PutBack(ev, front, due, rest, target, old(cut), old(lost));
    }

    /** End a round: queue the timer again if it repeats. */
    method PutBack(ev: nat, ghost front: seq<nat>, ghost due: seq<nat>, ghost rest: seq<nat>, ghost target: State<nat>,
                   ghost cut0: set<nat>, ghost lost0: map<nat, nat>)
      returns (ghost front': seq<nat>, ghost rest': seq<nat>)
      requires due != [] && ev == due[0] && Shape() && q == due[1..] + rest && ev < |timers| && ev !in q && ev !in lost
      requires Progress(timers, front, due, rest, totalTicks, target.queue)
      requires Marks(timers, front, due, rest, totalTicks, cut0, lost0, target.cut, target.lost)
      requires cut == Healed(cut0 - {ev}, due[1..] + rest, 0) && lost == Pending(front, due, lost0)
      modifies this`next, this`prev, this`timers, this`queue, this`q, this`cut
      ensures Serving(front', due[1..], rest', target)
      ensures timers == old(timers)[ev := if old(timers[ev].repeat) then Refired(old(timers[ev]), totalTicks)
                                          else old(timers[ev]).(active := false)]
    {
      hide Shape, Fired, Position, Progress, AllAt, AllAfter, Entries, Marks, HeadClear, InRange, Healed;
      BehindFirst(timers, front, due, rest, totalTicks, target.queue);
      if timers[ev].repeat {
        front', rest' := Requeue(ev, due[1..], rest);
        FiredAgain(old(timers), front, due, rest, totalTicks, cut0, lost0, target, front', rest', cut);
      } else {
        Retire(ev);
        front', rest' := [], rest;
        FiredOnce(old(timers), front, due, rest, totalTicks, cut0, lost0, target, timers[ev]);
      }
    }

    // A timer that fires once is no longer active.
    method Retire(ev: nat)
      requires Shape() && ev < |timers|
      modifies this`timers
      ensures Shape() && timers == old(timers)[ev := old(timers[ev]).(active := false)]
    {
      timers := timers[ev := timers[ev].(active := false)];
    }

    /** The interrupt's loop: fire every expired timer, in order. */
    method FireAll(first: nat, ghost due0: seq<nat>, ghost rest0: seq<nat>, ghost target: State<nat>)
      requires Serving([], due0, rest0, target) && due0 != [] && first == due0[0]
      modifies this`next, this`prev, this`timers, this`queue, this`q, this`fired, this`cut, this`lost
      ensures Shape() && Entries(timers, q) == target.queue && cut == target.cut && lost == target.lost
      ensures fired == old(fired) + due0 && |timers| == |old(timers)|
      ensures forall t :: 0 <= t < |timers| ==>
                && timers[t].repeat == old(timers)[t].repeat && timers[t].intv == old(timers)[t].intv
                && timers[t].active == (old(timers)[t].active && (t in due0 ==> old(timers)[t].repeat))
    {
      hide Serving, Entries;
      ghost var front: seq<nat>, rest := [], rest0;
      ghost var i := 0;
      var ev: int := first;
      FirstServed(front, due0, rest, target);
      assert due0[0..] == due0;
      while ev != NULL && timers[ev].expire <= totalTicks
        invariant 0 <= i <= |due0| && |timers| == |old(timers)|
        invariant Serving(front, due0[i..], rest, target)
        invariant if i < |due0| then ev == due0[i] && ev < |timers| && timers[ev].expire == totalTicks
                  else ev == NULL || (0 <= ev < |timers| && timers[ev].expire > totalTicks)
        invariant fired == old(fired) + due0[..i]
        invariant forall t :: 0 <= t < |timers| ==>
                    && timers[t].repeat == old(timers)[t].repeat && timers[t].intv == old(timers)[t].intv
                    && timers[t].active == (old(timers)[t].active && (t in due0[..i] ==> old(timers)[t].repeat))
        decreases |due0| - i
      {
        assert due0[i..][1..] == due0[i + 1..] && due0[..i + 1] == due0[..i] + [ev];
        fired := fired + [ev];
        ev, front, rest := FireNext(ev, front, due0[i..], rest, target);
        i := i + 1;
        FirstServed(front, due0[i..], rest, target);
      }
      assert due0[i..] == [] && due0[..i] == due0;
      AllServed(front, rest, target);
    }

    lemma {:induction false} FirstServed(front: seq<nat>, due: seq<nat>, rest: seq<nat>, target: State<nat>)
      requires Serving(front, due, rest, target)
      ensures due != [] ==> due[0] < |timers| && timers[due[0]].expire == totalTicks
    {
      FirstDue(timers, front, due, rest, totalTicks, target.queue);
    }

    lemma {:induction false} AllServed(front: seq<nat>, rest: seq<nat>, target: State<nat>)
      requires Serving(front, [], rest, target)
      ensures Shape() && Entries(timers, q) == target.queue && cut == target.cut && lost == target.lost
    {
      AllFired(timers, front, rest, totalTicks, target.queue);
      assert front + [] + rest == front + rest;
    }

    /** Clear the new head's back link, which may still name a timer that fired. */
    method ClearHead()
      requires Shape()
      modifies this`prev
      ensures Shape() && HeadClear(prev, q)
    {
      Cleared(next, prev, queue, q, cut, lost);
      if queue != NULL { prev := prev[queue := NULL]; }
    }

    /** The body of timer_irq on a queue whose first `n` timers are due. */
    method Serve(ghost n: nat)
      requires QueueOk() && q != [] && n == Due(Now().queue, timers[q[0]].expire)
      modifies this`next, this`prev, this`timers, this`queue, this`q, this`fired, this`totalTicks, this`cut, this`lost
      ensures Shape() && HeadClear(prev, q) && Now() == Apply(old(Now()), Interrupt) && |timers| == |old(timers)|
      ensures n <= |old(q)| && fired == old(fired) + old(q)[..n]
    {
      hide QueueOk, Inv, Sorted, DistinctIds, HeadClear, AfterIrq, Due, Serving, Entries;
      hide Linked, LostLinked, ActiveSet, OneShot;
      QueueFacts();
      ghost var target := Apply(Now(), Interrupt);
      totalTicks := timers[queue].expire;
      StartServing(n, old(Now()));
      FireAll(queue, q[..n], q[n..], target);
      ClearHead();
      ActiveFired(old(timers), timers, old(q)[..n]);
    }

    lemma {:induction false} QueueFacts()
      requires QueueOk()
      ensures Shape() && Sorted(Now().queue) && DistinctIds(Now().queue) && Inv(Now())
      ensures if q == [] then queue == NULL else queue == q[0] && q[0] < |timers|
      ensures |Now().queue| == |q| && (q != [] ==> timers[q[0]].expire == Now().queue[0].expire)
    {
    }

    lemma {:induction false} StartServing(n: nat, s: State<nat>)
      requires Shape() && q != [] && Sorted(Entries(timers, q)) && n == Due(Entries(timers, q), timers[q[0]].expire)
      requires totalTicks == timers[q[0]].expire && s == Now().(now := s.now)
      ensures 0 < n <= |q| && InRange(q[..n], |timers|) && Entries(timers, q[..n]) == s.queue[..n]
      ensures s.queue != [] && Serving([], q[..n], q[n..], Apply(s, Interrupt))
    {
      hide Fired, FiredCut, FiredLost, Linked, LostLinked, Sorted, Due;
      DueFirst(timers, q, n);
      EntriesSplit(timers, q, n);
    }

    /** timer_irq: the first expiry has come; every timer due by then fires, in order.  The repeating ones among
        them are queued again exactly when no one with interval 0 stood before another. */
    method Irq() returns (ghost n: nat)
      requires Valid()
      modifies this
      ensures Valid() && |timers| == |old(timers)| && n <= |old(q)| && fired == old(fired) + old(q)[..n]
      ensures old(q) == [] ==> n == 0 && Now() == old(Now()) && log == old(log)
      ensures old(q) != [] ==> && n == Due(old(Now().queue), old(Now().queue)[0].expire)
                               && log == old(log) + [Interrupt]
                               && Now() == Apply(old(Now()), Interrupt)
      ensures (forall i :: 0 <= i < n && old(Now().queue)[i].repeat ==> old(q)[i] in q) <==>
              (forall i :: 0 <= i < n - 1 && old(Now().queue)[i].repeat ==> old(Now().queue)[i].intv > 0)
      ensures old(q) != [] && queue != NULL ==> armed == timers[queue].expire - totalTicks
    {
      hide QueueOk, Shape, Inv, Right, Leads, Sorted, DistinctIds, Due, Apply, Enabled, Entries;
      n := 0;
      QueueFacts();
      if queue == NULL { return; }
      ghost var s := Now();
      n := Due(s.queue, s.queue[0].expire);
      CanServe(s);
      LeadsSnoc(Fresh(0), log, s, Interrupt);
      Serve(n);
      log := log + [Interrupt];
      Reached(Apply(s, Interrupt));
      Requeues(s, n, old(timers), old(q));
      Arm();
    }

    lemma {:induction false} CanServe(s: State<nat>)
      requires Inv(s) && Right(s) && s.queue != []
      ensures Enabled(s, Interrupt) && Inv(Apply(s, Interrupt)) && Right(Apply(s, Interrupt))
    {
      hide Inv, Right, Apply;
      InterruptInv(s);
    }

    /** A repeating timer that fired is queued again, unless an expired timer with interval 0 stood before another. */
    lemma {:induction false} Requeues(s: State<nat>, n: nat, was: seq<Timer>, before: seq<nat>)
      requires Shape() && s.queue != [] && n == Due(s.queue, s.queue[0].expire) && DistinctIds(s.queue)
      requires InRange(before, |was|) && s.queue == Entries(was, before) && Now() == Apply(s, Interrupt)
      ensures n <= |before| == |s.queue|
      ensures (forall i :: 0 <= i < n && s.queue[i].repeat ==> before[i] in q) <==>
              (forall i :: 0 <= i < n - 1 && s.queue[i].repeat ==> s.queue[i].intv > 0)
    {
      hide Fired, FiredCut, FiredLost, Linked, LostLinked, OneShot, ActiveSet;
      var now, due, rest := s.queue[0].expire, s.queue[..n], s.queue[n..];
      NoneLostIff(due, rest, now);
      forall i | 0 <= i < n ensures before[i] in q <==> Ids(Fired(due, rest, now), due[i].id) {
        QueuedIffId(timers, q, before[i]);
      }
    }
  }
}
