/** The dirty pages of one inode's page cache, as values: what marking a range and writing the list
    back do to the pages, and what every run of the two keeps. */
module DirtySpec {
  import opened Common

  const SYNC_MAX_PAGES := 128

  datatype Flags = Flags(dirty: bool, ready: bool, loading: bool, error: bool, permanent: bool, truncated: bool)

  /** One cached page: its flags, its references and its entry's mark that it is listed. */
  datatype Page = Page(flags: Flags, refs: nat, listed: bool)

  /** The pages of a cache by number, the list of dirty ones and the dirty count. */
  datatype State = State(pages: seq<Page>, list: seq<nat>, dirty: int)

  datatype Range = Range(offset: nat, pages: seq<nat>)

  // ---------- marking ----------

  /** The position of the first permanent page, at which marking gives up. */
  function FirstPermanent(pages: seq<Page>, range: seq<nat>): (p: nat)
    requires InRange(range, |pages|)
    ensures p <= |range| && (p < |range| ==> pages[range[p]].flags.permanent)
    ensures forall i :: 0 <= i < p ==> !pages[range[i]].flags.permanent
  {
    if range == [] || pages[range[0]].flags.permanent then 0 else 1 + FirstPermanent(pages, range[1..])
  }

  /** How many of the pages are clean. */
  ghost function Clean(pages: seq<Page>, range: seq<nat>): nat
    requires InRange(range, |pages|)
  {
    if range == [] then 0
    else Clean(pages, range[..|range| - 1]) + if pages[range[|range| - 1]].flags.dirty then 0 else 1
  }

  predicate Fresh(p: Page) { !p.listed && !p.flags.loading }

  /** How many of the pages marking would list. */
  ghost function CountFresh(pages: seq<Page>, range: seq<nat>): nat
    requires InRange(range, |pages|)
  {
    if range == [] then 0
    else CountFresh(pages, range[..|range| - 1]) + if Fresh(pages[range[|range| - 1]]) then 1 else 0
  }

  // A dirty page, pinned by one reference if it was clean.
  function Dirtied(p: Page): Page {
    p.(flags := p.flags.(dirty := true), refs := p.refs + if p.flags.dirty then 0 else 1)
  }

  /** The pages of a range as marking leaves their flags and references. */
  ghost predicate FlagsMarked(was: seq<Page>, now: seq<Page>, marked: seq<nat>) {
    |now| == |was| &&
    forall x :: 0 <= x < |was| ==> now[x] == if x in marked then Dirtied(was[x]) else was[x]
  }

  /** Whether marking the range touches the list at all. */
  ghost predicate Lists(pages: seq<Page>, range: seq<nat>)
    requires InRange(range, |pages|)
  {
    FirstPermanent(pages, range) == |range| && Clean(pages, range) > 0
  }

  /** What marking a range does to a cache whose pages lie at `offsets`. */
  ghost predicate Marked(offsets: seq<nat>, s: State, range: seq<nat>, s': State)
    requires InRange(range, |s.pages|)
  {
    var marked := range[..FirstPermanent(s.pages, range)];
    if Lists(s.pages, range) then
      && |s'.pages| == |s.pages| && s'.dirty == s.dirty + Clean(s.pages, range)
      && Ascending(offsets, s'.list)
      && (forall x :: 0 <= x < |s.pages| ==>
            s'.pages[x] == if x !in range then s.pages[x]
                           else Dirtied(s.pages[x]).(listed := s.pages[x].listed || !s.pages[x].flags.loading))
      && (forall x :: x in s'.list <==> x in s.list || (x in range && Fresh(s.pages[x])))
      && |s'.list| == |s.list| + CountFresh(s.pages, range)
    else
      FlagsMarked(s.pages, s'.pages, marked) && s'.list == s.list && s'.dirty == s.dirty
  }

  ghost predicate Ascending(offsets: seq<nat>, list: seq<nat>) {
    InRange(list, |offsets|) && forall i, j :: 0 <= i < j < |list| ==> offsets[list[i]] < offsets[list[j]]
  }

  /** Consecutive pages of the file. */
  ghost predicate Contiguous(offsets: seq<nat>, offset: nat, pages: seq<nat>) {
    InRange(pages, |offsets|) && forall i :: 0 <= i < |pages| ==> offsets[pages[i]] == offset + i * PAGE_SIZE
  }

  // ---------- writing back ----------

  /** Writeback takes a page that is dirty, not being loaded and not truncated. */
  predicate Claimable(f: Flags) { f.dirty && !f.loading && !f.truncated }

  function Claim(f: Flags): Flags { f.(dirty := false, ready := false, error := false, loading := true) }

  function Written(f: Flags): Flags { f.(dirty := false, ready := true, error := false, loading := false) }

  ghost function Claimed(pages: seq<Page>, list: seq<nat>): seq<nat>
    requires InRange(list, |pages|)
  {
    if list == [] then []
    else Claimed(pages, list[..|list| - 1]) +
         if Claimable(pages[list[|list| - 1]].flags) then [list[|list| - 1]] else []
  }

  ghost function Concat(ranges: seq<Range>): seq<nat> {
    if ranges == [] then [] else Concat(ranges[..|ranges| - 1]) + ranges[|ranges| - 1].pages
  }

  /** A write: 1 to 128 pages, consecutive in the list and in the file, and ending only where the list
      ends, the next page is not to be taken, the file leaves a gap, or the buffer is full. */
  ghost predicate WriteOk(offsets: seq<nat>, pages: seq<Page>, list: seq<nat>, r: Range)
    requires InRange(list, |pages|)
  {
    && 1 <= |r.pages| <= SYNC_MAX_PAGES && Contiguous(offsets, r.offset, r.pages)
    && exists i: nat, j: nat :: WriteAt(offsets, pages, list, r, i, j)
  }

  ghost predicate WriteAt(offsets: seq<nat>, pages: seq<Page>, list: seq<nat>, r: Range, i: nat, j: nat)
    requires InRange(list, |pages|)
  {
    && i < j <= |list| && r.pages == list[i..j]
    && (j == |list| || !Claimable(pages[list[j]].flags) || j - i == SYNC_MAX_PAGES ||
        (list[j] < |offsets| && offsets[list[j]] != r.offset + (j - i) * PAGE_SIZE))
  }

  /** A listed page after writeback: it lost the list's reference and, if it was taken, is clean. */
  function Synced(p: Page): Page
    requires p.refs > 0
  {
    if Claimable(p.flags) then Page(Written(p.flags), p.refs - 1, false) else p.(refs := p.refs - 1)
  }

  /** What writing the whole list back does. */
  ghost predicate WrittenBack(offsets: seq<nat>, s: State, ranges: seq<Range>, s': State)
    requires InRange(s.list, |s.pages|) && forall x :: x in s.list ==> s.pages[x].refs > 0
  {
    && Concat(ranges) == Claimed(s.pages, s.list) && s'.list == []
    && (forall i :: 0 <= i < |ranges| ==> WriteOk(offsets, s.pages, s.list, ranges[i]))
    && s'.dirty == s.dirty - |Claimed(s.pages, s.list)| && |s'.pages| == |s.pages|
    && forall x :: 0 <= x < |s.pages| ==> s'.pages[x] == if x in s.list then Synced(s.pages[x]) else s.pages[x]
  }

  // ---------- what every run keeps ----------

  /** The list, the marks, the flags and the count agree, and every listed page is pinned. */
  ghost predicate Consistent(offsets: seq<nat>, s: State) {
    && |s.pages| == |offsets| && Ascending(offsets, s.list) && s.dirty == |s.list|
    && forall x :: 0 <= x < |s.pages| ==>
         && (s.pages[x].flags.dirty <==> x in s.list) && (s.pages[x].listed <==> x in s.list)
         && (x in s.list ==> s.pages[x].refs > 0)
  }

  /** The guard under which marking keeps the cache consistent: every clean page before the first
      permanent one gets listed. */
  ghost predicate MarksCleanly(pages: seq<Page>, range: seq<nat>)
    requires InRange(range, |pages|)
  {
    var p := FirstPermanent(pages, range);
    forall i :: 0 <= i < p && !pages[range[i]].flags.dirty ==> p == |range| && !pages[range[i]].flags.loading
  }

  lemma {:induction false} FreshAreClean(pages: seq<Page>, range: seq<nat>)
    requires InRange(range, |pages|)
    requires forall i :: 0 <= i < |range| ==> pages[range[i]].listed == pages[range[i]].flags.dirty
    requires forall i :: 0 <= i < |range| && !pages[range[i]].flags.dirty ==> !pages[range[i]].flags.loading
    ensures CountFresh(pages, range) == Clean(pages, range)
  {
    if range != [] { FreshAreClean(pages, range[..|range| - 1]); }
  }

  lemma {:induction false} CleanIff(pages: seq<Page>, range: seq<nat>)
    requires InRange(range, |pages|)
    ensures Clean(pages, range) > 0 <==> exists i :: 0 <= i < |range| && !pages[range[i]].flags.dirty
  {
    if range != [] {
      var front := range[..|range| - 1];
      CleanIff(pages, front);
      assert forall i :: 0 <= i < |front| ==> front[i] == range[i];
    }
  }

  /** Marking keeps a consistent cache consistent exactly when its guard holds. */
  lemma {:induction false} MarkedConsistentIff(offsets: seq<nat>, s: State, range: seq<nat>, s': State)
    requires Consistent(offsets, s) && InRange(range, |s.pages|) && Marked(offsets, s, range, s')
    ensures Consistent(offsets, s') <==> MarksCleanly(s.pages, range)
  {
    CleanIff(s.pages, range);
    if Lists(s.pages, range) {
      if MarksCleanly(s.pages, range) { FreshAreClean(s.pages, range); }
    } else if MarksCleanly(s.pages, range) {
      assert forall i :: 0 <= i < FirstPermanent(s.pages, range) ==> s.pages[range[i]].flags.dirty;
    } else {
      var i :| 0 <= i < FirstPermanent(s.pages, range) && !s.pages[range[i]].flags.dirty;
      assert range[i] in range[..FirstPermanent(s.pages, range)];
    }
  }

  lemma {:induction false} ClaimedAll(pages: seq<Page>, list: seq<nat>)
    requires InRange(list, |pages|)
    ensures |Claimed(pages, list)| <= |list|
    ensures Claimed(pages, list) == list <==> forall x :: x in list ==> Claimable(pages[x].flags)
    ensures |Claimed(pages, list)| == |list| ==> Claimed(pages, list) == list
  {
    if list != [] {
      var front, last := list[..|list| - 1], list[|list| - 1];
      ClaimedAll(pages, front);
      assert list == front + [last];
    }
  }

  /** Writeback leaves a consistent cache consistent exactly when it can take every listed page. */
  lemma {:induction false} SyncedConsistentIff(offsets: seq<nat>, s: State, ranges: seq<Range>, s': State)
    requires Consistent(offsets, s) && WrittenBack(offsets, s, ranges, s')
    ensures Consistent(offsets, s') <==> forall x :: x in s.list ==> Claimable(s.pages[x].flags)
  {
    hide WriteOk, Claimed, Concat;
    ClaimedAll(s.pages, s.list);
  }

  // ---------- runs ----------

  datatype Event =
    | Mark(range: seq<nat>)     // cache_markRangeDirty
    | Sync(ranges: seq<Range>)  // cache_syncInode
    | Reading(page: nat)        // cache_getRange marks a page that is present, to read it with its neighbours
    | Loaded(page: nat)         // the read is done

  ghost predicate Next(offsets: seq<nat>, s: State, e: Event, s': State) {
    match e
    case Mark(range) => InRange(range, |s.pages|) && Marked(offsets, s, range, s')
    case Sync(ranges) =>
      && InRange(s.list, |s.pages|) && (forall x :: x in s.list ==> s.pages[x].refs > 0)
      && WrittenBack(offsets, s, ranges, s')
    case Reading(x) =>
      x < |s.pages| &&
      s' == WithFlags(s, x, s.pages[x].flags.(loading := true, ready := false, error := false))
    case Loaded(x) =>
      && x < |s.pages| && s.pages[x].flags.loading
      && s' == WithFlags(s, x, s.pages[x].flags.(loading := false, ready := true))
  }

  function WithFlags(s: State, x: nat, f: Flags): State
    requires x < |s.pages|
  {
    s.(pages := s.pages[x := s.pages[x].(flags := f)])
  }

  ghost predicate Run(offsets: seq<nat>, states: seq<State>, events: seq<Event>) {
    |states| == |events| + 1 &&
    forall i :: 0 <= i < |events| ==> Next(offsets, states[i], events[i], states[i + 1])
  }

  /** The pages marked since the last writeback. */
  ghost function Pending(events: seq<Event>): set<nat> {
    if events == [] then {}
    else match events[|events| - 1]
      case Mark(range) => Pending(events[..|events| - 1]) + set x | x in range
      case Sync(_) => {}
      case _ => Pending(events[..|events| - 1])
  }

  /** No page is being loaded, permanent or truncated. */
  ghost predicate Ordinary(s: State) {
    forall x :: 0 <= x < |s.pages| ==>
      !s.pages[x].flags.loading && !s.pages[x].flags.permanent && !s.pages[x].flags.truncated
  }

  /** Marks and writebacks meet ordinary pages only; reads come and go in between. */
  ghost predicate Calm(states: seq<State>, events: seq<Event>) {
    |states| == |events| + 1 &&
    forall i :: 0 <= i < |events| && (events[i].Mark? || events[i].Sync?) ==> Ordinary(states[i])
  }

  /** Every page holds the references it began with, and one more while it is listed. */
  ghost predicate Pinned(s0: State, s: State) {
    |s.pages| == |s0.pages| &&
    forall x :: 0 <= x < |s.pages| ==> s.pages[x].refs == s0.pages[x].refs + if x in s.list then 1 else 0
  }

  ghost predicate Fits(offsets: seq<nat>, s0: State, s: State, pending: set<nat>) {
    Consistent(offsets, s) && Pinned(s0, s) && forall x :: x in s.list <==> x in pending
  }

  lemma {:induction false} MarkFits(offsets: seq<nat>, s0: State, s: State, pending: set<nat>, range: seq<nat>,
                                    s': State)
    requires Fits(offsets, s0, s, pending) && Ordinary(s) && Next(offsets, s, Mark(range), s')
    ensures Fits(offsets, s0, s', pending + set x | x in range)
  {
    hide Clean, CountFresh, Ascending;
    MarkedConsistentIff(offsets, s, range, s');
    CleanIff(s.pages, range);
  }

  lemma {:induction false} SyncFits(offsets: seq<nat>, s0: State, s: State, pending: set<nat>, ranges: seq<Range>,
                                    s': State)
    requires Fits(offsets, s0, s, pending) && Ordinary(s) && Next(offsets, s, Sync(ranges), s')
    ensures Fits(offsets, s0, s', {}) && Concat(ranges) == s.list
  {
    hide WriteOk, Claimed, Concat;
    SyncedConsistentIff(offsets, s, ranges, s');
    ClaimedAll(s.pages, s.list);
  }

  lemma {:induction false} ReadFits(offsets: seq<nat>, s0: State, s: State, pending: set<nat>, e: Event, s': State)
    requires Fits(offsets, s0, s, pending) && Next(offsets, s, e, s') && (e.Reading? || e.Loaded?)
    ensures Fits(offsets, s0, s', pending)
  {
    hide Ascending;
  }

  /** In every run from a clean cache in which marks and writebacks meet ordinary pages, the dirty list holds
      exactly the pages marked since the last writeback, in file order, and each holds one more reference
      than it began with. */
  lemma {:induction false} RunListsPending(offsets: seq<nat>, states: seq<State>, events: seq<Event>)
    requires Run(offsets, states, events) && Calm(states, events)
    requires Consistent(offsets, states[0]) && states[0].list == []
    ensures Fits(offsets, states[0], states[|events|], Pending(events))
  {
    if events != [] {
      hide Fits, Next, Consistent, Ordinary;
      var n := |events| - 1;
      var before, s, s' := events[..n], states[n], states[n + 1];
      assert forall i :: 0 <= i < n ==> before[i] == events[i];
      RunListsPending(offsets, states[..n + 1], before);
      match events[n]
      case Mark(range) => MarkFits(offsets, states[0], s, Pending(before), range, s');
      case Sync(ranges) => SyncFits(offsets, states[0], s, Pending(before), ranges, s');
      case _ => ReadFits(offsets, states[0], s, Pending(before), events[n], s');
    }
  }

  /** Pages that are ordinary at the start of a run without reads are so throughout. */
  lemma {:induction false} OrdinaryIsCalm(offsets: seq<nat>, states: seq<State>, events: seq<Event>)
    requires Run(offsets, states, events) && Ordinary(states[0])
    requires forall i :: 0 <= i < |events| ==> !events[i].Reading?
    ensures Calm(states, events) && Ordinary(states[|events|])
  {
    hide Ordinary, Next;
    forall i | 0 <= i <= |events| ensures Ordinary(states[i]) { OrdinaryAt(offsets, states, events, i); }
  }

  lemma {:induction false} OrdinaryAt(offsets: seq<nat>, states: seq<State>, events: seq<Event>, n: nat)
    requires Run(offsets, states, events) && Ordinary(states[0]) && n <= |events|
    requires forall i :: 0 <= i < |events| ==> !events[i].Reading?
    ensures Ordinary(states[n])
  {
    hide Ordinary, Next;
    if n > 0 {
      OrdinaryAt(offsets, states, events, n - 1);
      StaysOrdinary(offsets, states[n - 1], events[n - 1], states[n]);
    }
  }

  lemma {:induction false} StaysOrdinary(offsets: seq<nat>, s: State, e: Event, s': State)
    requires Ordinary(s) && Next(offsets, s, e, s') && !e.Reading?
    ensures Ordinary(s')
  {
    hide Clean, CountFresh, Ascending, Claimed, Concat, WriteOk;
  }

  /** Every writeback in such a run writes exactly the pages marked since the one before, each once, in
      file order. */
  lemma {:induction false} SyncWritesPending(offsets: seq<nat>, states: seq<State>, events: seq<Event>, k: nat)
    requires Run(offsets, states, events) && Calm(states, events) && k < |events| && events[k].Sync?
    requires Consistent(offsets, states[0]) && states[0].list == []
    ensures Ascending(offsets, Concat(events[k].ranges))
    ensures forall x :: x in Concat(events[k].ranges) <==> x in Pending(events[..k])
  {
    var before := events[..k];
    assert forall i :: 0 <= i < k ==> before[i] == events[i];
    RunListsPending(offsets, states[..k + 1], before);
    SyncFits(offsets, states[0], states[k], Pending(before), events[k].ranges, states[k + 1]);
  }

  // ---------- what one event does to one page ----------

  lemma {:induction false} ClaimedIff(pages: seq<Page>, list: seq<nat>, x: nat)
    requires InRange(list, |pages|)
    ensures x in Claimed(pages, list) <==>
            x in list && pages[x].flags.dirty && !pages[x].flags.loading && !pages[x].flags.truncated
  {
    if list != [] {
      var front, last := list[..|list| - 1], list[|list| - 1];
      ClaimedIff(pages, front, x);
      assert list == front + [last];
    }
  }

  /** Writeback of any cache: a listed page that is dirty, not loading and not truncated is written, and ends
      clean, ready, not loading, without error and off the list; another listed page is not written and keeps
      its flags; both lose the list's reference.  The rest is as it was, and the list is empty. */
  lemma {:induction false} SyncOutcome(offsets: seq<nat>, s: State, ranges: seq<Range>, s': State, x: nat)
    requires Next(offsets, s, Sync(ranges), s') && x < |s.pages|
    ensures |s'.pages| == |s.pages| && s'.list == [] && s'.dirty == s.dirty - |Concat(ranges)|
    ensures x in Concat(ranges) <==>
            x in s.list && s.pages[x].flags.dirty && !s.pages[x].flags.loading && !s.pages[x].flags.truncated
    ensures var p, p' := s.pages[x], s'.pages[x];
            && (x in Concat(ranges) ==>
                  && p'.flags == Flags(false, true, false, false, p.flags.permanent, false)
                  && p'.refs == p.refs - 1 && !p'.listed)
            && (x in s.list && x !in Concat(ranges) ==>
                  p'.flags == p.flags && p'.refs == p.refs - 1 && p'.listed == p.listed)
            && (x !in s.list ==> p' == p)
  {
    hide WriteOk, Claimed, Concat;
    ClaimedIff(s.pages, s.list, x);
  }

  /** Marking a range of any cache whose first permanent page is at `p`, or that has none when `p` is its
      length: exactly the pages before `p` become dirty and change no other flag, and each gains a reference
      exactly if it was clean. */
  lemma {:induction false} MarkOutcome(offsets: seq<nat>, s: State, range: seq<nat>, p: nat, s': State, x: nat)
    requires Next(offsets, s, Mark(range), s') && x < |s.pages| && p <= |range|
    requires forall i :: 0 <= i < p ==> !s.pages[range[i]].flags.permanent
    requires p < |range| ==> s.pages[range[p]].flags.permanent
    ensures |s'.pages| == |s.pages|
    ensures x in range[..p] ==>
              && s'.pages[x].flags == s.pages[x].flags.(dirty := true)
              && s'.pages[x].refs == s.pages[x].refs + if s.pages[x].flags.dirty then 0 else 1
    ensures x !in range[..p] ==> s'.pages[x] == s.pages[x]
  {
    hide Clean, CountFresh, Ascending;
    assert FirstPermanent(s.pages, range) == p;
    assert range[..|range|] == range;
  }

  /** It lists the pages of the range that are on no list and not loading, in file order, if the range has a
      clean page and no permanent one, and otherwise leaves list and count alone. */
  lemma {:induction false} MarkLists(offsets: seq<nat>, s: State, range: seq<nat>, s': State, x: nat)
    requires Next(offsets, s, Mark(range), s') && x < |s.pages|
    ensures var lists := (forall i :: 0 <= i < |range| ==> !s.pages[range[i]].flags.permanent) &&
                         exists i :: 0 <= i < |range| && !s.pages[range[i]].flags.dirty;
            if lists then
              && Ascending(offsets, s'.list)
              && (x in s'.list <==> x in s.list || (x in range && !s.pages[x].listed && !s.pages[x].flags.loading))
              && |s'.pages| == |s.pages|
              && (s'.pages[x].listed <==> s.pages[x].listed || (x in range && !s.pages[x].flags.loading))
            else
              && s'.list == s.list && s'.dirty == s.dirty
              && |s'.pages| == |s.pages| && s'.pages[x].listed == s.pages[x].listed
  {
    hide Clean, CountFresh;
    CleanIff(s.pages, range);
    var p := FirstPermanent(s.pages, range);
    assert p == |range| <==> forall i :: 0 <= i < |range| ==> !s.pages[range[i]].flags.permanent;
  }

  // ---------- pages that miss the list ----------

  /** Dirty, but on no list. */
  ghost predicate Stranded(s: State, x: nat) {
    x < |s.pages| && s.pages[x].flags.dirty && !s.pages[x].listed && x !in s.list
  }

  /** The one step that lists a stranded page: a mark of a range around it, without a permanent page and with a
      clean one, once the page is no longer being loaded. */
  ghost predicate Rescues(s: State, e: Event, x: nat) {
    && e.Mark? && InRange(e.range, |s.pages|) && x in e.range && Lists(s.pages, e.range)
    && !s.pages[x].flags.loading
  }

  lemma {:induction false} ClaimedFromList(pages: seq<Page>, list: seq<nat>, x: nat)
    requires InRange(list, |pages|) && x !in list
    ensures x !in Claimed(pages, list)
  {
    if list != [] { ClaimedFromList(pages, list[..|list| - 1], x); }
  }

  /** A step leaves a stranded page stranded exactly when it is not such a mark, and no writeback writes it. */
  lemma {:induction false} StrandedNextIff(offsets: seq<nat>, s: State, e: Event, s': State, x: nat)
    requires Stranded(s, x) && Next(offsets, s, e, s')
    ensures Stranded(s', x) <==> !Rescues(s, e, x)
    ensures e.Sync? ==> x !in Concat(e.ranges)
  {
    hide Clean, CountFresh, Claimed, WriteOk, Ascending;
    match e
    case Mark(range) =>
    case Sync(ranges) => ClaimedFromList(s.pages, s.list, x);
    case _ =>
  }

  /** A page that is dirty but not listed stays so through every run, unwritten, exactly as long as no mark
      lists it together with a clean page. */
  lemma {:induction false} StrandedUntilRescued(offsets: seq<nat>, states: seq<State>, events: seq<Event>, x: nat)
    requires Run(offsets, states, events) && Stranded(states[0], x)
    ensures (forall i :: 0 <= i <= |events| ==> Stranded(states[i], x)) <==>
            (forall i :: 0 <= i < |events| ==> !Rescues(states[i], events[i], x))
    ensures (forall i :: 0 <= i < |events| ==> !Rescues(states[i], events[i], x)) ==>
            forall k :: 0 <= k < |events| && events[k].Sync? ==> x !in Concat(events[k].ranges)
  {
    hide Stranded, Rescues, Next, Concat;
    if events != [] {
      var n := |events| - 1;
      var before, states' := events[..n], states[..n + 1];
      assert forall i :: 0 <= i < n ==> before[i] == events[i] && states'[i] == states[i];
      assert states'[n] == states[n];
      StrandedUntilRescued(offsets, states', before, x);
      if Stranded(states[n], x) { StrandedNextIff(offsets, states[n], events[n], states[n + 1], x); }
    }
  }

  /** Marking the page alone, or among dirty pages only, never lists it. */
  lemma {:induction false} RescueNeedsCleanPage(s: State, range: seq<nat>, x: nat)
    requires Stranded(s, x) && Rescues(s, Mark(range), x)
    ensures exists i :: 0 <= i < |range| && range[i] != x && !s.pages[range[i]].flags.dirty
  {
    CleanIff(s.pages, range);
  }

  /** A page that is being loaded when it is marked becomes dirty without being listed. */
  lemma {:induction false} LoadingPageIsMissed()
    ensures var s := State([Page(Flags(false, false, true, false, false, false), 1, false)], [], 0);
            var s' := State([Page(Flags(true, false, true, false, false, false), 2, false)], [], 1);
            && Consistent([0], s) && InRange([0], |s.pages|) && Marked([0], s, [0], s')
            && !Consistent([0], s') && Stranded(s', 0)
  {
    var s := State([Page(Flags(false, false, true, false, false, false), 1, false)], [], 0);
    assert Clean(s.pages, [0]) == 1 && CountFresh(s.pages, [0]) == 0;
    assert FirstPermanent(s.pages, [0]) == 1;
  }

  /** Dirty and marked as listed, but on no list. */
  ghost predicate Forsaken(s: State, x: nat) {
    x < |s.pages| && s.pages[x].flags.dirty && s.pages[x].listed && x !in s.list
  }

  /** A writeback of a consistent cache forsakes exactly the listed pages that it cannot take. */
  lemma {:induction false} SyncForsakesIff(offsets: seq<nat>, s: State, ranges: seq<Range>, s': State, x: nat)
    requires Consistent(offsets, s) && WrittenBack(offsets, s, ranges, s')
    ensures Forsaken(s', x) <==> x in s.list && !Claimable(s.pages[x].flags)
  {
    hide Claimed, Concat, WriteOk;
  }

  lemma {:induction false} ForsakenNext(offsets: seq<nat>, s: State, e: Event, s': State, x: nat)
    requires Forsaken(s, x) && Next(offsets, s, e, s')
    ensures Forsaken(s', x) && (e.Sync? ==> x !in Concat(e.ranges))
  {
    hide Clean, CountFresh, Claimed, WriteOk, Ascending;
    match e
    case Sync(ranges) => ClaimedFromList(s.pages, s.list, x);
    case _ =>
  }

  /** A forsaken page is never listed or written again, in any run. */
  lemma {:induction false} ForsakenForever(offsets: seq<nat>, states: seq<State>, events: seq<Event>, x: nat)
    requires Run(offsets, states, events) && Forsaken(states[0], x)
    ensures forall i :: 0 <= i <= |events| ==> Forsaken(states[i], x)
    ensures forall k :: 0 <= k < |events| && events[k].Sync? ==> x !in Concat(events[k].ranges)
  {
    hide Forsaken, Next, Concat;
    if events != [] {
      var n := |events| - 1;
      var before, states' := events[..n], states[..n + 1];
      assert forall i :: 0 <= i < n ==> before[i] == events[i] && states'[i] == states[i];
      assert states'[n] == states[n];
      ForsakenForever(offsets, states', before, x);
      ForsakenNext(offsets, states[n], events[n], states[n + 1], x);
    }
  }

  // A cache of one page, whose flags, references and list mark are given.
  function OneBy(dirty: bool, loading: bool, refs: nat, listed: bool, list: seq<nat>): State {
    State([Page(Flags(dirty, !loading, loading, false, false, false), refs, listed)], list, if dirty then 1 else 0)
  }

  lemma {:induction false} OneClean(pages: seq<Page>)
    requires |pages| == 1 && pages[0] == Page(Flags(false, true, false, false, false, false), 1, false)
    ensures FirstPermanent(pages, [0]) == 1 && Clean(pages, [0]) == 1 && CountFresh(pages, [0]) == 1
  {
    assert [0][..0] == [] && [0][1..] == [];
  }

  lemma {:induction false} OneMarked()
    ensures var s, s' := OneBy(false, false, 1, false, []), OneBy(true, false, 2, true, [0]);
            Consistent([0], s) && Next([0], s, Mark([0]), s')
  {
    hide Marked, Consistent;
    MarkOne([0], [0], OneBy(false, false, 1, false, []), OneBy(true, false, 2, true, [0]));
  }

  lemma {:induction false} MarkOne(offsets: seq<nat>, range: seq<nat>, s: State, s': State)
    requires |offsets| == |s.pages| == |s'.pages| == 1 && range == [0]
    requires s.pages[0] == Page(Flags(false, true, false, false, false, false), 1, false)
    requires s'.pages[0] == Page(Flags(true, true, false, false, false, false), 2, true)
    requires s.list == [] && s.dirty == 0 && s'.list == [0] && s'.dirty == 1
    ensures Consistent(offsets, s) && InRange(range, |s.pages|) && Marked(offsets, s, range, s')
  {
    hide FirstPermanent, Clean, CountFresh;
    OneClean(s.pages);
    assert forall x :: x in range <==> x == 0;
  }

  lemma {:induction false} OneRead()
    ensures Next([0], OneBy(true, false, 2, true, [0]), Reading(0), OneBy(true, true, 2, true, [0]))
  {
  }

  lemma {:induction false} OneDropped()
    ensures var s, s' := OneBy(true, true, 2, true, [0]), OneBy(true, true, 1, true, []);
            Next([0], s, Sync([]), s') && !Consistent([0], s') && Forsaken(s', 0)
  {
    var s := OneBy(true, true, 2, true, [0]);
    assert [0][..0] == [] && Claimed(s.pages, [0]) == [];
  }

  /** A page is marked dirty, marked for reading by another thread and met by writeback, which drops it. */
  lemma {:induction false} LoadingPageIsDropped()
    ensures var s0, s1 := OneBy(false, false, 1, false, []), OneBy(true, false, 2, true, [0]);
            var s2, s3 := OneBy(true, true, 2, true, [0]), OneBy(true, true, 1, true, []);
            && Run([0], [s0, s1, s2, s3], [Mark([0]), Reading(0), Sync([])])
            && Consistent([0], s0) && !Consistent([0], s3) && Forsaken(s3, 0)
  {
    hide Next, Consistent, OneBy, Forsaken;
    OneMarked();
    OneRead();
    OneDropped();
  }

  /** A permanent page behind a clean one leaves the clean one dirty, unlisted and uncounted. */
  lemma {:induction false} PermanentPageStopsMarking()
    ensures var clean := Flags(false, true, false, false, false, false);
            var permanent := clean.(permanent := true);
            var s := State([Page(clean, 1, false), Page(permanent, 1, false)], [], 0);
            var s' := State([Page(clean.(dirty := true), 2, false), Page(permanent, 1, false)], [], 0);
            && Consistent([0, PAGE_SIZE], s) && InRange([0, 1], |s.pages|)
            && Marked([0, PAGE_SIZE], s, [0, 1], s') && !Consistent([0, PAGE_SIZE], s')
  {
    var clean := Flags(false, true, false, false, false, false);
    var permanent := clean.(permanent := true);
    var s := State([Page(clean, 1, false), Page(permanent, 1, false)], [], 0);
    assert FirstPermanent(s.pages, [0, 1]) == 1 && [0, 1][..1] == [0];
  }
}

/** The dirty list as the cache keeps it: threaded through the entries, spliced through a cursor that
    points at a link, and written back in batches. */
module DirtyList {
  import opened Common
  import opened DirtySpec

  // The list that starts at `head`.
  ghost predicate Chain(next: seq<int>, head: int, q: seq<nat>) {
    && InRange(q, |next|) && head == (if q == [] then NULL else q[0])
    && forall i {:trigger next[q[i]]} :: 0 <= i < |q| ==> next[q[i]] == if i + 1 < |q| then q[i + 1] else NULL
  }

  /** The places of a cache's pages in the file: page-aligned, one page each. */
  ghost predicate Placed(offsets: seq<nat>) {
    && (forall x :: 0 <= x < |offsets| ==> offsets[x] % PAGE_SIZE == 0)
    && forall x, y :: 0 <= x < |offsets| && 0 <= y < |offsets| && offsets[x] == offsets[y] ==> x == y
  }

  lemma {:induction false} OnGrid(a: nat, b: nat)
    requires a % PAGE_SIZE == 0 && b % PAGE_SIZE == 0 && b <= a
    ensures a == b + (a - b) / PAGE_SIZE * PAGE_SIZE
  {
  }

  /** A run of unlisted pages starting no later than the list's next page ends before it. */
  lemma {:induction false} RunEndsBefore(offsets: seq<nat>, q: seq<nat>, k: nat, run: seq<nat>, start: nat)
    requires Placed(offsets) && InRange(q, |offsets|) && k < |q| && start <= offsets[q[k]]
    requires Contiguous(offsets, start, run) && run != [] && forall x :: x in run ==> x !in q
    ensures start + |run| * PAGE_SIZE <= offsets[q[k]]
  {
    assert offsets[run[0]] == start;
    OnGrid(offsets[q[k]], start);
    var m := (offsets[q[k]] - start) / PAGE_SIZE;
    if m < |run| { RunPlace(offsets, start, run, m); }
  }

  lemma {:induction false} RunPlace(offsets: seq<nat>, start: nat, run: seq<nat>, m: nat)
    requires Contiguous(offsets, start, run) && m < |run|
    ensures exists x :: x in run && x < |offsets| && offsets[x] == start + m * PAGE_SIZE
  {
    assert run[m] in run;
  }

  /** Splicing such a run in keeps the list in file order. */
  lemma {:induction false} AscendingSpliced(offsets: seq<nat>, q: seq<nat>, k: nat, run: seq<nat>, start: nat)
    requires Placed(offsets) && Ascending(offsets, q) && k <= |q| && Contiguous(offsets, start, run) && run != []
    requires forall x :: x in run ==> x !in q
    requires Behind(offsets, q, k, start) && (k < |q| ==> start <= offsets[q[k]])
    ensures Ascending(offsets, q[..k] + run + q[k..])
    ensures Behind(offsets, q[..k] + run + q[k..], k + |run|, start + |run| * PAGE_SIZE)
  {
    var q' := q[..k] + run + q[k..];
    if k < |q| { RunEndsBefore(offsets, q, k, run, start); }
    var end := start + |run| * PAGE_SIZE;
    forall i | 0 <= i < |q'|
      ensures q'[i] < |offsets|
      ensures i < k ==> q'[i] == q[i] && offsets[q'[i]] < start
      ensures k <= i < k + |run| ==> start <= offsets[q'[i]] == start + (i - k) * PAGE_SIZE < end
      ensures k + |run| <= i ==> q'[i] == q[i - |run|] && end <= offsets[q'[i]]
    {
      if k <= i < k + |run| { assert q'[i] == run[i - k]; }
    }
  }

  /** The links after such a splice. */
  lemma {:induction false} ChainSpliced(next: seq<int>, head: int, q: seq<nat>, k: nat, run: seq<nat>,
                                        next': seq<int>, head': int)
    requires Chain(next, head, q) && k <= |q| && InRange(run, |next|) && run != [] && |next'| == |next|
    requires Distinct(q) && Distinct(run) && forall x :: x in run ==> x !in q
    requires forall i {:trigger next'[run[i]]} :: 0 <= i < |run| - 1 ==> next'[run[i]] == run[i + 1]
    requires next'[run[|run| - 1]] == if k < |q| then q[k] else NULL
    requires forall i {:trigger next'[q[i]]} :: 0 <= i < |q| ==>
               next'[q[i]] == if i == k - 1 then run[0] else next[q[i]]
    requires head' == if k == 0 then run[0] else head
    ensures Chain(next', head', q[..k] + run + q[k..])
  {
    var q' := q[..k] + run + q[k..];
    forall i | 0 <= i < |q'| ensures q'[i] < |next'| && next'[q'[i]] == if i + 1 < |q'| then q'[i + 1] else NULL {
      if i < k {
        assert q'[i] == q[i] && next'[q[i]] == if i == k - 1 then run[0] else next[q[i]];
      } else if i < k + |run| {
        assert q'[i] == run[i - k];
        assert i - k < |run| - 1 ==> next'[run[i - k]] == run[i - k + 1];
      } else {
        assert q'[i] == q[i - |run|] && next'[q[i - |run|]] == next[q[i - |run|]];
      }
    }
  }

  lemma {:induction false} AscendingDistinct(offsets: seq<nat>, q: seq<nat>)
    requires Ascending(offsets, q)
    ensures Distinct(q)
  {
    forall i, j | 0 <= i < j < |q| ensures q[i] != q[j] {
      assert offsets[q[i]] < offsets[q[j]];
    }
  }

  lemma {:induction false} ContiguousDistinct(offsets: seq<nat>, start: nat, run: seq<nat>)
    requires Contiguous(offsets, start, run)
    ensures Distinct(run)
  {
    forall i, j | 0 <= i < j < |run| ensures run[i] != run[j] {
      assert offsets[run[i]] < offsets[run[j]];
    }
  }

  lemma {:induction false} InOffsets(offsets: seq<nat>, start: nat, run: seq<nat>)
    requires Contiguous(offsets, start, run)
    ensures InRange(run, |offsets|)
  {
  }

  lemma {:induction false} ChainKept(was: seq<int>, now: seq<int>, head: int, q: seq<nat>, run: seq<nat>)
    requires Chain(was, head, q) && OthersKept(was, now, run) && forall x :: x in run ==> x !in q
    ensures Chain(now, head, q)
  {
    assert forall i :: 0 <= i < |q| ==> q[i] in q;
  }

  /** Fresh pages are not in the list, whose pages are all marked. */
  lemma {:induction false} FreshOutside(pages: seq<Page>, q: seq<nat>, run: seq<nat>)
    requires AllFresh(pages, run) && MarksOk(pages, q)
    ensures forall x :: x in run ==> x !in q
  {
  }

  lemma {:induction false} SubRange(offsets: seq<nat>, start: nat, range: seq<nat>, i: nat, j: nat)
    requires Contiguous(offsets, start, range) && i <= j <= |range|
    ensures Contiguous(offsets, start + i * PAGE_SIZE, range[i..j])
  {
  }

  class PageCache {
    const offsets: seq<nat>
    var pages: seq<Page>
    var next: seq<int>
    var head: int
    var dirtyCount: int
    var isDirty: bool
    var writes: seq<Range>      // the ranges handed to the file system
    var freed: seq<nat>         // the entries of truncated pages given back
    ghost var q: seq<nat>

    ghost predicate Shape()
      reads `pages, `next, `head, `q
    {
      && |pages| == |next| == |offsets| && Placed(offsets) && Ascending(offsets, q) && Chain(next, head, q)
    }

    ghost predicate Valid()
      reads `pages, `next, `head, `q
    {
      Shape() && MarksOk(pages, q)
    }

    ghost function Now(): State
      reads `pages, `q, `dirtyCount
    {
      State(pages, q, dirtyCount)
    }

    constructor (places: seq<nat>)
      requires Placed(places)
      ensures offsets == places && Valid() && q == [] && Consistent(offsets, Now())
      ensures forall x :: 0 <= x < |pages| ==>
                pages[x] == Page(Flags(false, true, false, false, false, false), 1, false)
    {
      offsets := places;
      pages := seq(|places|, _ => Page(Flags(false, true, false, false, false, false), 1, false));
      next := seq(|places|, _ => NULL);
      head, dirtyCount, isDirty, writes, freed, q := NULL, 0, false, [], [], [];
    }

    /** The first loop of cache_markRangeDirty: dirty and pin the pages, up to a permanent one. */
    method SetDirty(range: seq<nat>) returns (done: bool, n: nat)
      requires InRange(range, |pages|) && Distinct(range)
      modifies `pages
      ensures var p := FirstPermanent(old(pages), range);
              && FlagsMarked(old(pages), pages, range[..p]) && done == (p == |range|)
              && (done ==> n == Clean(old(pages), range))
    {
      hide Clean, FlagsMarked, FirstPermanent;
      NoneMarked(pages);
      n := 0;
      var i := 0;
      while i < |range|
        invariant 0 <= i <= |range| && |pages| == |old(pages)| && FlagsMarked(old(pages), pages, range[..i])
        invariant n == Clean(old(pages), range[..i])
        invariant FirstPermanent(old(pages), range) >= i
      {
        var x := range[i];
        OneMoreMarked(old(pages), pages, range, i);
        NotYet(old(pages), range, i);
        if pages[x].flags.permanent { return false, n; }
        if !pages[x].flags.dirty { n := n + 1; }
        pages := pages[x := Dirtied(pages[x])];
        i := i + 1;
      }
      assert range[..i] == range;
      done := true;
    }

    // The link a cursor points at: the list's head, or an entry's successor.
    function At(cur: int): int
      requires cur == NULL || 0 <= cur < |next|
      reads `next, `head
    {
      if cur == NULL then head else next[cur]
    }

    ghost predicate Cursor(cur: int, k: nat)
      reads `q
    {
      k <= |q| && cur == if k == 0 then NULL else q[k - 1]
    }

    /** Move the cursor to the first page at or after `target`. */
    method Advance(cur0: int, target: nat, ghost k0: nat) returns (cur: int, ghost k: nat)
      requires Shape() && Cursor(cur0, k0) && Behind(offsets, q, k0, target)
      ensures Cursor(cur, k) && k0 <= k && Behind(offsets, q, k, target)
      ensures k < |q| ==> target <= offsets[q[k]]
    {
      hide Ascending, Placed;
      cur, k := cur0, k0;
      CursorAt(cur, k);
      while At(cur) != NULL && offsets[At(cur)] < target
        invariant k0 <= k && Cursor(cur, k) && (cur == NULL || 0 <= cur < |next|)
        invariant At(cur) == if k < |q| then q[k] else NULL
        invariant Behind(offsets, q, k, target)
        decreases |q| - k
      {
        cur := At(cur);
        k := k + 1;
        CursorAt(cur, k);
      }
    }

    lemma {:induction false} CursorAt(cur: int, k: nat)
      requires Shape() && Cursor(cur, k)
      ensures cur == NULL || 0 <= cur < |next|
      ensures At(cur) == if k < |q| then q[k] else NULL
      ensures k < |q| ==> q[k] < |next|
    {
      assert k > 0 ==> next[q[k - 1]] == if k < |q| then q[k] else NULL;
    }

    /** Chain the range's pages from `r0` on, as long as they are neither listed nor being loaded. */
    method Gather(range: seq<nat>, r0: nat) returns (r: nat)
      requires |next| == |pages| && InRange(range, |pages|) && Distinct(range) && r0 < |range|
      requires Fresh(pages[range[r0]])
      modifies `pages, `next
      ensures r0 < r <= |range| && |next| == |old(next)| && |pages| == |old(pages)|
      ensures AllFresh(old(pages), range[r0..r]) && ListedNow(old(pages), pages, range[r0..r])
      ensures RunLinked(next, range[r0..r]) && OthersKept(old(next), next, range[r0..r])
    {
      hide RunLinked, ListedNow, OthersKept, AllFresh;
      var tail := range[r0];
      pages := pages[tail := pages[tail].(listed := true)];
      r := r0 + 1;
      RunBegins(old(pages), next, tail);
      assert range[r0..r] == [tail];
      while r < |range| && Fresh(pages[range[r]])
        invariant r0 < r <= |range| && tail == range[r - 1] && |next| == |old(next)| == |pages|
        invariant AllFresh(old(pages), range[r0..r]) && ListedNow(old(pages), pages, range[r0..r])
        invariant RunLinked(next, range[r0..r]) && OthersKept(old(next), next, range[r0..r])
      {
        var x := range[r];
        RunGrows(old(pages), pages, old(next), next, range, r0, r);
        next := next[tail := x];
        pages := pages[x := pages[x].(listed := true)];
        tail := x;
        r := r + 1;
      }
      RunEnds(old(next), next, range, r0, r);
      next := next[tail := NULL];
    }

    /** Link a gathered run in at the cursor. */
    method LinkRun(run: seq<nat>, cur: int, ghost k: nat)
      requires Chain(next, head, q) && Distinct(q) && Cursor(cur, k)
      requires run != [] && InRange(run, |next|) && Distinct(run) && forall x :: x in run ==> x !in q
      requires RunLinked(next, run)
      modifies `next, `head, `q
      ensures q == old(q)[..k] + run + old(q)[k..] && Chain(next, head, q) && |next| == |old(next)|
    {
      var tail := run[|run| - 1];
      assert tail in run && run[0] in run;
      assert forall i :: 0 <= i < |q| ==> q[i] in q;
      assert k > 0 ==> next[q[k - 1]] == if k < |q| then q[k] else NULL;
      next := next[tail := if cur == NULL then head else next[cur]];
      if cur == NULL {
        head := run[0];
      } else {
        next := next[cur := run[0]];
      }
      ChainSpliced(old(next), old(head), q, k, run, next, head);
      q := q[..k] + run + q[k..];
    }

    /** List the run of fresh pages that starts at `r0`, behind what the cursor has passed. */
    method SpliceRun(range: seq<nat>, offset: nat, r0: nat, cur0: int, ghost k0: nat)
      returns (r: nat, cur: int, ghost k: nat)
      requires Valid() && Contiguous(offsets, offset, range) && r0 < |range| && Fresh(pages[range[r0]])
      requires forall i :: 0 <= i < |range| ==> pages[range[i]].refs > 0
      requires Cursor(cur0, k0) && Behind(offsets, q, k0, offset + r0 * PAGE_SIZE)
      modifies `pages, `next, `head, `q
      ensures Valid() && r0 < r <= |range| && AllFresh(old(pages), range[r0..r])
      ensures ListedNow(old(pages), pages, range[r0..r]) && Inserted(old(q), q, range[r0..r])
      ensures Cursor(cur, k) && Behind(offsets, q, k, offset + r * PAGE_SIZE)
    {
      hide Ascending, Chain, Contiguous, Placed, ListedNow, AllFresh, RunLinked, OthersKept, Distinct, Inserted,
           MarksOk, Behind;
      ContiguousDistinct(offsets, offset, range);
      AscendingDistinct(offsets, q);
      InOffsets(offsets, offset, range);
      cur, k := Advance(cur0, offset + r0 * PAGE_SIZE, k0);
      r := Gather(range, r0);
      var run := range[r0..r];
      SubRange(offsets, offset, range, r0, r);
      ContiguousDistinct(offsets, offset + r0 * PAGE_SIZE, run);
      FreshOutside(old(pages), q, run);
      ChainKept(old(next), next, head, q, run);
      ghost var at;
      cur, k, at := PlaceRun(run, offset + r0 * PAGE_SIZE, cur, k);
      MarksSpliced(old(pages), pages, old(q), at, run);
      assert offset + r0 * PAGE_SIZE + |run| * PAGE_SIZE == offset + r * PAGE_SIZE;
    }

    /** Find the place of a gathered run and link it in there. */
    method PlaceRun(run: seq<nat>, start: nat, cur0: int, ghost k0: nat)
      returns (cur: int, ghost k: nat, ghost at: nat)
      requires Shape() && run != [] && Contiguous(offsets, start, run) && Distinct(run) && RunLinked(next, run)
      requires Distinct(q) && InRange(run, |next|) && forall x :: x in run ==> x !in q
      requires Cursor(cur0, k0) && Behind(offsets, q, k0, start)
      modifies `next, `head, `q
      ensures Shape() && at <= |old(q)| && q == old(q)[..at] + run + old(q)[at..]
      ensures Cursor(cur, k) && Behind(offsets, q, k, start + |run| * PAGE_SIZE)
    {
      hide Ascending, Chain, Contiguous, Placed, RunLinked, Distinct, Behind, InRange;
      cur, at := Advance(cur0, start, k0);
      AscendingSpliced(offsets, q, at, run, start);
      LinkRun(run, cur, at);
      cur, k := run[|run| - 1], at + |run|;
    }

    /** The second half of cache_markRangeDirty: splice the range's fresh pages into the list. */
    method Splice(range: seq<nat>, offset: nat)
      requires Valid() && Contiguous(offsets, offset, range) && RefsHeld(pages, range)
      modifies `pages, `next, `head, `q
      ensures Valid() && Spliced(old(pages), pages, old(q), q, range)
    {
      hide Ascending, Chain, Contiguous, Placed, ListedNow, AllFresh, Inserted, Distinct, MarksOk, Behind, Spliced,
           RefsHeld;
      ContiguousDistinct(offsets, offset, range);
      InOffsets(offsets, offset, range);
      SplicedNone(pages, q);
      var cur := NULL;
      ghost var k := 0;
      var r := 0;
      assert Behind(offsets, q, 0, offset) by { BehindNone(offsets, q, offset); }
      assert range[..0] == [];
      while r < |range|
        invariant 0 <= r <= |range| && Valid() && Cursor(cur, k) && Behind(offsets, q, k, offset + r * PAGE_SIZE)
        invariant Spliced(old(pages), pages, old(q), q, range[..r])
      {
        SplicedOne(old(pages), pages, old(q), q, range, r);
        if !Fresh(pages[range[r]]) {
          BehindFurther(offsets, q, k, offset + r * PAGE_SIZE, offset + (r + 1) * PAGE_SIZE);
          r := r + 1;
          continue;
        }
        ghost var now, q0, r0 := pages, q, r;
        r, cur, k := SpliceRun(range, offset, r, cur, k);
        SplicedRun(old(pages), now, pages, old(q), q0, q, range, r0, r);
      }
      assert range[..r] == range;
    }

    /** cache_markRangeDirty on pages the caller holds: an ordered merge of the range's fresh pages into
        the list, whatever the range and the list have in common. */
    method MarkRangeDirty(range: seq<nat>, offset: nat)
      requires Valid() && Contiguous(offsets, offset, range) && RefsHeld(pages, range)
      modifies `pages, `next, `head, `q, `dirtyCount, `isDirty
      ensures Valid() && Marked(offsets, old(Now()), range, Now())
      ensures isDirty == (old(isDirty) || Lists(old(pages), range))
    {
      hide Ascending, Chain, Contiguous, Placed, MarksOk, Spliced, FlagsMarked, Distinct, Marked, InRange, Clean;
      ContiguousDistinct(offsets, offset, range);
      InOffsets(offsets, offset, range);
      var done, n := SetDirty(range);
      DirtyKeeps(old(pages), pages, q, range, FirstPermanent(old(pages), range));
      MarkedInPart(offsets, old(Now()), pages, range);
      if !done || n == 0 { return; }
      dirtyCount := dirtyCount + n;
      ghost var dirtied := pages;
      assert range[..|range|] == range;
      Splice(range, offset);
      MarkedInFull(offsets, old(pages), dirtied, pages, old(q), q, range, old(dirtyCount));
      isDirty := true;
    }

    /** Drop the list's reference to a page that is not taken. */
    method Drop(x: nat)
      requires x < |pages| && pages[x].refs > 0
      modifies `pages
      ensures pages == old(pages)[x := old(pages[x]).(refs := old(pages[x]).refs - 1)]
    {
      pages := pages[x := pages[x].(refs := pages[x].refs - 1)];
    }

    /** The inner loop of cache_syncInodeInner: claim a run of pages, from position `i0` of the list on.
        It also consumes the page that broke the run, if that one is not to be taken. */
    method Collect(first: int, ghost was: seq<Page>, ghost list: seq<nat>, ghost i0: nat)
      returns (batch: Range, curr: int, ghost b: nat, ghost k: nat)
      requires |next| == |was| == |offsets| && ListOk(was, next, list) && i0 < |list| && first == Head(list, i0)
      requires |pages| == |was| && Taken(was, pages, list, i0, i0, i0)
      modifies `pages, `freed
      ensures |pages| == |was| && i0 <= b <= k <= b + 1 && i0 < k <= |list| && curr == Head(list, k)
      ensures batch.pages == list[i0..b] && Contiguous(offsets, batch.offset, batch.pages)
      ensures |batch.pages| <= SYNC_MAX_PAGES
      ensures Taken(was, pages, list, i0, b, k)
      ensures Cut(was, list, i0, b, k)
      ensures i0 < b ==> WriteAt(offsets, was, list, batch, i0, b)
      ensures freed == old(freed) + if b < k && was[list[b]].flags.truncated then [list[b]] else []
    {
      hide Taken, Contiguous;
      batch := Range(0, []);
      curr, b := first, i0;
      k := b;
      NothingYet(offsets, 0);
      while curr != NULL && |batch.pages| < SYNC_MAX_PAGES
        invariant |pages| == |was| && i0 <= b <= |list| && curr == Head(list, b) && freed == old(freed) && k == b
        invariant batch.pages == list[i0..b] && Contiguous(offsets, batch.offset, batch.pages)
        invariant |batch.pages| <= SYNC_MAX_PAGES
        invariant Taken(was, pages, list, i0, b, b) && Cut(was, list, i0, b, b)
        decreases |list| - b
      {
        TakeOne(was, pages, next, list, i0, b);
        if pages[curr].flags.truncated {
          Drop(curr);
          freed := freed + [curr];
          curr, k := next[curr], b + 1;
          break;
        }
        if |batch.pages| > 0 && offsets[curr] != batch.offset + |batch.pages| * PAGE_SIZE { break; }
        if pages[curr].flags.loading || !pages[curr].flags.dirty {
          Drop(curr);
          curr, k := next[curr], b + 1;
          break;
        }
        if |batch.pages| == 0 {
          batch := batch.(offset := offsets[curr]);
          NothingYet(offsets, batch.offset);
        }
        BatchGrows(offsets, batch, curr);
        pages := pages[curr := Page(Claim(pages[curr].flags), pages[curr].refs, false)];
        batch := batch.(pages := batch.pages + [curr]);
        assert list[i0..b + 1] == list[i0..b] + [list[b]];
        curr := next[curr];
        b := b + 1;
        k := b;
      }
    }

    /** cache_pageRangeFinished with READY. */
    method FinishRange(batch: Range)
      requires InRange(batch.pages, |pages|) && Distinct(batch.pages)
      modifies `pages
      ensures |pages| == |old(pages)|
      ensures forall x :: 0 <= x < |pages| ==>
                pages[x] == if x in batch.pages then Ready(old(pages)[x]) else old(pages)[x]
      ensures forall x :: x in batch.pages ==>
                x < |pages| && pages[x].flags == old(pages)[x].flags.(loading := false, ready := true)
    {
      for i := 0 to |batch.pages|
        invariant |pages| == |old(pages)|
        invariant forall x :: 0 <= x < |pages| ==>
                    pages[x] == if x in batch.pages[..i] then Ready(old(pages)[x]) else old(pages)[x]
      {
        var x := batch.pages[i];
        assert x !in batch.pages[..i] && batch.pages[..i + 1] == batch.pages[..i] + [x];
        pages := pages[x := Ready(pages[x])];
      }
      assert batch.pages[..|batch.pages|] == batch.pages;
    }

    /** cache_releaseRange. */
    method ReleaseRange(batch: Range)
      requires InRange(batch.pages, |pages|) && Distinct(batch.pages) && RefsHeld(pages, batch.pages)
      modifies `pages
      ensures |pages| == |old(pages)|
      ensures forall x :: 0 <= x < |pages| ==>
                pages[x] == if x in batch.pages then old(pages)[x].(refs := old(pages)[x].refs - 1) else old(pages)[x]
    {
      for i := 0 to |batch.pages|
        invariant |pages| == |old(pages)|
        invariant forall x :: 0 <= x < |pages| ==>
                    pages[x] == if x in batch.pages[..i] then old(pages)[x].(refs := old(pages)[x].refs - 1)
                                else old(pages)[x]
      {
        var x := batch.pages[i];
        assert x !in batch.pages[..i] && batch.pages[..i + 1] == batch.pages[..i] + [x];
        Drop(x);
      }
      assert batch.pages[..|batch.pages|] == batch.pages;
    }

    /** Write a batch out and let its pages go. */
    method WriteBatch(batch: Range, ghost was: seq<Page>, ghost list: seq<nat>, ghost i: nat, ghost b: nat,
                      ghost k: nat)
      requires |was| == |pages| && ListOk(was, next, list) && i <= b <= k <= |list| && batch.pages == list[i..b]
      requires Taken(was, pages, list, i, b, k) && Cut(was, list, i, b, k)
      modifies `pages, `writes, `dirtyCount
      ensures |pages| == |was| && Taken(was, pages, list, k, k, k)
      ensures batch.pages == [] ==> writes == old(writes) && dirtyCount == old(dirtyCount)
      ensures batch.pages != [] ==> writes == old(writes) + [batch] && dirtyCount == old(dirtyCount) - |batch.pages|
      ensures forall x :: x in batch.pages ==>
                && x < |pages| && pages[x].refs == was[x].refs - 1 && !pages[x].listed
                && pages[x].flags == Flags(false, true, false, false, was[x].flags.permanent, was[x].flags.truncated)
    {
      hide Taken, Distinct, Cut;
      BatchFacts(was, pages, next, list, i, b, k);
      BatchClaimed(was, pages, list, i, b, k);
      if |batch.pages| > 0 {
        writes := writes + [batch];
        dirtyCount := dirtyCount - |batch.pages|;
        FinishRange(batch);
        ReleaseRange(batch);
        BatchDone(was, old(pages), pages, next, list, i, b, k);
      }
    }

    /** cache_syncInodeInner on a list taken off the cache; every write succeeds. */
    method SyncInner(dirty: int, ghost list: seq<nat>) returns (ghost ranges: seq<Range>)
      requires |pages| == |next| == |offsets| && ListOk(pages, next, list) && dirty == Head(list, 0)
      modifies `pages, `writes, `dirtyCount, `freed
      ensures writes == old(writes) + ranges && freed == old(freed) + Truncated(old(pages), list)
      ensures Concat(ranges) == Claimed(old(pages), list) && dirtyCount == old(dirtyCount) - |Claimed(old(pages), list)|
      ensures forall i :: 0 <= i < |ranges| ==> WriteOk(offsets, old(pages), list, ranges[i])
      ensures Taken(old(pages), pages, list, |list|, |list|, |list|)
    {
      hide Taken, ListOk, Claimed, Truncated, Cut, Concat, WriteOk, Contiguous;
      var curr := dirty;
      ghost var k := 0;
      ranges := [];
      Nothing(pages, next, list);
      assert list[..0] == [];
      while curr != NULL
        invariant 0 <= k <= |list| && curr == Head(list, k) && Taken(old(pages), pages, list, k, k, k)
        invariant |pages| == |old(pages)| && writes == old(writes) + ranges
        invariant freed == old(freed) + Truncated(old(pages), list[..k])
        invariant Concat(ranges) == Claimed(old(pages), list[..k])
        invariant dirtyCount == old(dirtyCount) - |Claimed(old(pages), list[..k])|
        invariant forall i :: 0 <= i < |ranges| ==> WriteOk(offsets, old(pages), list, ranges[i])
        decreases |list| - k
      {
        ghost var i := k;
        var batch;
        ghost var b;
        batch, curr, b, k := Collect(curr, old(pages), list, i);
        ClaimedStep(old(pages), list, i, b, k);
        WriteBatch(batch, old(pages), list, i, b, k);
        if batch.pages != [] {
          ConcatOne(ranges, batch);
          WriteIsOk(offsets, old(pages), list, batch, i, b);
          ranges := ranges + [batch];
        }
      }
      assert list[..k] == list;
    }

    /** cache_syncInode: take the whole list and write it back. */
    method SyncInode() returns (ghost ranges: seq<Range>)
      requires Valid()
      modifies `head, `q, `isDirty, `pages, `writes, `dirtyCount, `freed
      ensures Valid() && WrittenBack(offsets, old(Now()), ranges, Now()) && !isDirty
      ensures writes == old(writes) + ranges && freed == old(freed) + Truncated(old(pages), old(q))
      ensures |pages| == |old(pages)| && q == []
      ensures forall i :: 0 <= i < |ranges| ==> 1 <= |ranges[i].pages| <= 128
      ensures forall x :: x in Concat(ranges) <==>
                && x in old(q) && old(pages)[x].flags.dirty
                && !old(pages)[x].flags.loading && !old(pages)[x].flags.truncated
      ensures forall x :: x in Concat(ranges) ==>
                && x < |pages| && !pages[x].flags.dirty && pages[x].flags.ready
                && !pages[x].flags.loading && !pages[x].flags.error
                && pages[x].refs == old(pages)[x].refs - 1 && !pages[x].listed
    {
      hide Taken, ListOk, Claimed, Truncated, Concat, Contiguous, WriteAt;
      var popped := head;
      ghost var list := q;
      Popped();
      head, q := NULL, [];
      isDirty := false;
      ranges := SyncInner(popped, list);
      TakenAll(old(pages), pages, list);
      forall x: nat | x < |pages|
        ensures x in Concat(ranges) <==>
                && x in list && old(pages)[x].flags.dirty
                && !old(pages)[x].flags.loading && !old(pages)[x].flags.truncated
      {
        ClaimedIff(old(pages), list, x);
      }
      forall x | x in Concat(ranges) ensures x in list { if x !in list { ClaimedFromList(old(pages), list, x); } }
    }

    lemma {:induction false} Popped()
      requires Valid()
      ensures ListOk(pages, next, q) && head == Head(q, 0) && InRange(q, |pages|)
    {
      AscendingDistinct(offsets, q);
      assert forall i :: 0 <= i < |q| ==> q[i] in q;
    }
  }

  /** The pages of a run get their listed mark. */
  ghost predicate ListedNow(was: seq<Page>, now: seq<Page>, run: seq<nat>) {
    |now| == |was| &&
    forall x :: 0 <= x < |was| ==> now[x] == if x in run then was[x].(listed := true) else was[x]
  }

  ghost predicate AllFresh(pages: seq<Page>, run: seq<nat>) {
    forall i :: 0 <= i < |run| ==> run[i] < |pages| && Fresh(pages[run[i]])
  }

  // The run is chained up to its last page.
  ghost predicate RunLinked(next: seq<int>, run: seq<nat>) {
    InRange(run, |next|) &&
    forall i {:trigger next[run[i]]} :: 0 <= i < |run| - 1 ==> next[run[i]] == run[i + 1]
  }

  ghost predicate OthersKept(was: seq<int>, now: seq<int>, run: seq<nat>) {
    |now| == |was| && forall x :: 0 <= x < |now| && x !in run ==> now[x] == was[x]
  }

  lemma {:induction false} RunBegins(pages: seq<Page>, next: seq<int>, x: nat)
    requires |next| == |pages| && x < |pages| && Fresh(pages[x])
    ensures AllFresh(pages, [x]) && ListedNow(pages, pages[x := pages[x].(listed := true)], [x])
    ensures RunLinked(next, [x]) && OthersKept(next, next, [x])
  {
  }

  lemma {:induction false} RunGrows(was: seq<Page>, now: seq<Page>, links: seq<int>, next: seq<int>, range: seq<nat>,
                                    r0: nat, r: nat)
    requires r0 < r < |range| && Distinct(range) && InRange(range, |now|) && |next| == |now|
    requires Fresh(now[range[r]]) && AllFresh(was, range[r0..r]) && ListedNow(was, now, range[r0..r])
    requires RunLinked(next, range[r0..r]) && OthersKept(links, next, range[r0..r])
    ensures var x := range[r];
            var next' := next[range[r - 1] := x];
            && AllFresh(was, range[r0..r + 1]) && ListedNow(was, now[x := now[x].(listed := true)], range[r0..r + 1])
            && RunLinked(next', range[r0..r + 1]) && OthersKept(links, next', range[r0..r + 1])
  {
    var run, x := range[r0..r], range[r];
    assert range[r0..r + 1] == run + [x];
    assert forall i :: 0 <= i < |run| ==> run[i] == range[r0 + i] && run[i] != x;
    assert range[r - 1] == run[|run| - 1] && Distinct(run);
    hide Distinct, InRange, AllFresh, ListedNow, RunLinked, OthersKept;
    RunLinksOne(next, run, x);
    RunMarksOne(was, now, run, x);
    RunKeepsOthers(links, next, run, x);
  }

  lemma {:induction false} RunMarksOne(was: seq<Page>, now: seq<Page>, run: seq<nat>, x: nat)
    requires AllFresh(was, run) && ListedNow(was, now, run) && x < |now| && Fresh(now[x]) && x !in run
    ensures AllFresh(was, run + [x]) && ListedNow(was, now[x := now[x].(listed := true)], run + [x])
  {
  }

  lemma {:induction false} RunKeepsOthers(links: seq<int>, next: seq<int>, run: seq<nat>, x: nat)
    requires OthersKept(links, next, run) && run != [] && run[|run| - 1] < |next|
    ensures OthersKept(links, next[run[|run| - 1] := x], run + [x])
  {
  }

  lemma {:induction false} RunLinksOne(next: seq<int>, run: seq<nat>, x: nat)
    requires RunLinked(next, run) && run != [] && x < |next| && Distinct(run)
    ensures RunLinked(next[run[|run| - 1] := x], run + [x])
  {
  }

  lemma {:induction false} RunEnds(links: seq<int>, next: seq<int>, range: seq<nat>, r0: nat, r: nat)
    requires r0 < r <= |range| && Distinct(range) && InRange(range, |next|)
    requires RunLinked(next, range[r0..r]) && OthersKept(links, next, range[r0..r])
    ensures var next' := next[range[r - 1] := NULL];
            RunLinked(next', range[r0..r]) && OthersKept(links, next', range[r0..r])
  {
    var run := range[r0..r];
    assert forall i :: 0 <= i < |run| ==> run[i] == range[r0 + i];
    assert range[r - 1] == run[|run| - 1];
  }

  // The list's first `k` pages lie before `target`.
  ghost predicate Behind(offsets: seq<nat>, q: seq<nat>, k: nat, target: nat) {
    k <= |q| && forall i :: 0 <= i < k ==> q[i] < |offsets| && offsets[q[i]] < target
  }

  /** Listed pages are marked and pinned. */
  ghost predicate MarksOk(pages: seq<Page>, q: seq<nat>) {
    forall x :: x in q ==> x < |pages| && pages[x].listed && pages[x].refs > 0
  }

  lemma {:induction false} MarksSpliced(was: seq<Page>, now: seq<Page>, q: seq<nat>, k: nat, run: seq<nat>)
    requires MarksOk(was, q) && ListedNow(was, now, run) && k <= |q|
    requires forall x :: x in run ==> x < |was| && was[x].refs > 0
    ensures MarksOk(now, q[..k] + run + q[k..]) && Inserted(q, q[..k] + run + q[k..], run)
  {
    var q' := q[..k] + run + q[k..];
    assert q == q[..k] + q[k..];
    forall x ensures x in q' <==> x in q || x in run {
      assert x in q <==> x in q[..k] || x in q[k..];
    }
  }

  ghost predicate Inserted(q: seq<nat>, q': seq<nat>, run: seq<nat>) {
    |q'| == |q| + |run| && forall x :: x in q' <==> x in q || x in run
  }

  /** The caller holds a reference to every page of the range. */
  ghost predicate RefsHeld(pages: seq<Page>, range: seq<nat>) {
    forall x :: x in range ==> x < |pages| && pages[x].refs > 0
  }

  /** The fresh ones among `done` are marked and in the list, and nothing else changed. */
  ghost predicate Spliced(was: seq<Page>, now: seq<Page>, q0: seq<nat>, q: seq<nat>, done: seq<nat>) {
    && |now| == |was| && InRange(done, |was|) && |q| == |q0| + CountFresh(was, done)
    && (forall x :: 0 <= x < |was| ==> now[x] == if x in done && Fresh(was[x]) then was[x].(listed := true) else was[x])
    && forall x :: x in q <==> x in q0 || (x in done && Fresh(was[x]))
  }

  lemma {:induction false} SplicedNone(pages: seq<Page>, q: seq<nat>)
    ensures Spliced(pages, pages, q, q, [])
  {
  }

  lemma {:induction false} BehindNone(offsets: seq<nat>, q: seq<nat>, target: nat)
    ensures Behind(offsets, q, 0, target)
  {
  }

  lemma {:induction false} BehindFurther(offsets: seq<nat>, q: seq<nat>, k: nat, target: nat, target': nat)
    requires Behind(offsets, q, k, target) && target <= target'
    ensures Behind(offsets, q, k, target')
  {
  }

  lemma {:induction false} SplicedOne(was: seq<Page>, now: seq<Page>, q0: seq<nat>, q: seq<nat>, range: seq<nat>,
                                      r: nat)
    requires r < |range| && InRange(range, |was|) && Distinct(range) && Spliced(was, now, q0, q, range[..r])
    ensures |now| == |was| && Fresh(now[range[r]]) == Fresh(was[range[r]])
    ensures !Fresh(now[range[r]]) ==> Spliced(was, now, q0, q, range[..r + 1])
    ensures RefsHeld(was, range) ==> RefsHeld(now, range)
  {
    var x := range[r];
    assert range[..r + 1] == range[..r] + [x] && range[..r + 1][..r] == range[..r];
    assert x !in range[..r];
  }

  lemma {:induction false} CountRun(pages: seq<Page>, range: seq<nat>, r0: nat, r: nat)
    requires r0 <= r <= |range| && InRange(range, |pages|) && AllFresh(pages, range[r0..r])
    ensures CountFresh(pages, range[..r]) == CountFresh(pages, range[..r0]) + r - r0
  {
    if r0 < r {
      assert range[..r][..r - 1] == range[..r - 1] && range[r0..r][..r - 1 - r0] == range[r0..r - 1];
      assert range[r0..r][r - 1 - r0] == range[r - 1];
      CountRun(pages, range, r0, r - 1);
    }
  }

  lemma {:induction false} SplicedRun(was: seq<Page>, now: seq<Page>, now': seq<Page>, q0: seq<nat>, q: seq<nat>,
                                      q': seq<nat>,
                                      range: seq<nat>, r0: nat, r: nat)
    requires r0 < r <= |range| && InRange(range, |was|) && Distinct(range) && Spliced(was, now, q0, q, range[..r0])
    requires AllFresh(now, range[r0..r]) && ListedNow(now, now', range[r0..r]) && Inserted(q, q', range[r0..r])
    ensures Spliced(was, now', q0, q', range[..r])
  {
    var run := range[r0..r];
    assert range[..r] == range[..r0] + run;
    forall i | 0 <= i < |run| ensures run[i] < |was| && run[i] !in range[..r0] && Fresh(was[run[i]]) {
      assert run[i] == range[r0 + i];
    }
    CountRun(was, range, r0, r);
  }

  lemma {:induction false} DirtyKeeps(was: seq<Page>, now: seq<Page>, q: seq<nat>, range: seq<nat>, p: nat)
    requires MarksOk(was, q) && RefsHeld(was, range) && p <= |range| && FlagsMarked(was, now, range[..p])
    ensures MarksOk(now, q) && RefsHeld(now, range)
  {
  }

  lemma {:induction false} FreshKept(was: seq<Page>, now: seq<Page>, range: seq<nat>)
    requires |now| == |was| && InRange(range, |was|) && forall x :: 0 <= x < |was| ==> Fresh(now[x]) == Fresh(was[x])
    ensures CountFresh(now, range) == CountFresh(was, range)
  {
    if range != [] { FreshKept(was, now, range[..|range| - 1]); }
  }

  lemma {:induction false} MarkedInPart(offsets: seq<nat>, s: State, now: seq<Page>, range: seq<nat>)
    requires InRange(range, |s.pages|) && FlagsMarked(s.pages, now, range[..FirstPermanent(s.pages, range)])
    ensures |now| == |s.pages|
    ensures !Lists(s.pages, range) ==> Marked(offsets, s, range, s.(pages := now))
  {
    hide Clean, FirstPermanent;
  }

  lemma {:induction false} MarkedInFull(offsets: seq<nat>, was: seq<Page>, dirtied: seq<Page>, now: seq<Page>,
                                        q0: seq<nat>, q: seq<nat>, range: seq<nat>, d: int)
    requires InRange(range, |was|) && Ascending(offsets, q) && Lists(was, range)
    requires FlagsMarked(was, dirtied, range) && Spliced(dirtied, now, q0, q, range)
    ensures Marked(offsets, State(was, q0, d), range, State(now, q, d + Clean(was, range)))
  {
    hide Ascending, Clean, FirstPermanent;
    FreshKept(was, dirtied, range);
  }

  function Head(list: seq<nat>, k: nat): int { if k < |list| then list[k] else NULL }

  /** A detached list of marked, pinned pages. */
  ghost predicate ListOk(pages: seq<Page>, next: seq<int>, list: seq<nat>) {
    && Chain(next, Head(list, 0), list) && Distinct(list) && InRange(list, |pages|)
    && forall i :: 0 <= i < |list| ==> pages[list[i]].refs > 0
  }

  /** The truncated pages of a list, in order. */
  ghost function Truncated(pages: seq<Page>, list: seq<nat>): seq<nat>
    requires InRange(list, |pages|)
  {
    if list == [] then []
    else Truncated(pages, list[..|list| - 1]) +
         if pages[list[|list| - 1]].flags.truncated then [list[|list| - 1]] else []
  }

  /** Writeback under way: the list's first `i` pages are done, those up to `b` are claimed and
      those up to `k` dropped. */
  ghost predicate Taken(was: seq<Page>, now: seq<Page>, list: seq<nat>, i: nat, b: nat, k: nat)
    requires InRange(list, |was|) && forall i :: 0 <= i < |list| ==> was[list[i]].refs > 0
  {
    && |now| == |was|
    && (forall x :: 0 <= x < |was| && x !in list ==> now[x] == was[x])
    && forall j {:trigger now[list[j]]} :: 0 <= j < |list| ==>
         now[list[j]] == if i <= j < b then Page(Claim(was[list[j]].flags), was[list[j]].refs, false)
                         else if j < k then Synced(was[list[j]]) else was[list[j]]
  }

  lemma {:induction false} NothingYet(offsets: seq<nat>, offset: nat)
    ensures Contiguous(offsets, offset, [])
  {
  }

  lemma {:induction false} BatchGrows(offsets: seq<nat>, batch: Range, x: nat)
    requires Contiguous(offsets, batch.offset, batch.pages) && x < |offsets|
    requires offsets[x] == batch.offset + |batch.pages| * PAGE_SIZE
    ensures Contiguous(offsets, batch.offset, batch.pages + [x])
  {
  }

  /** The next page of the list is as it was, and can be claimed or dropped. */
  lemma {:induction false} TakeOne(was: seq<Page>, now: seq<Page>, next: seq<int>, list: seq<nat>, i: nat, b: nat)
    requires ListOk(was, next, list) && i <= b < |list| && Taken(was, now, list, i, b, b)
    ensures |now| == |was| && now[list[b]] == was[list[b]] && next[list[b]] == Head(list, b + 1)
    ensures Claimable(was[list[b]].flags) ==>
              Taken(was, now[list[b] := Page(Claim(was[list[b]].flags), was[list[b]].refs, false)], list, i,
                    b + 1, b + 1)
    ensures !Claimable(was[list[b]].flags) ==>
              Taken(was, now[list[b] := was[list[b]].(refs := was[list[b]].refs - 1)], list, i, b, b + 1)
  {
    assert now[list[b]] == was[list[b]];
    assert list[b] in list;
    assert next[list[b]] == if b + 1 < |list| then list[b + 1] else NULL;
  }

  function Ready(p: Page): Page { p.(flags := p.flags.(loading := false, ready := true)) }

  /** The batch from `i` to `b` takes every page, and the one consumed behind it, if any, is not to
      be taken. */
  ghost predicate Cut(was: seq<Page>, list: seq<nat>, i: nat, b: nat, k: nat) {
    && InRange(list, |was|) && i <= b <= k <= |list|
    && (forall j :: i <= j < b ==> Claimable(was[list[j]].flags))
    && forall j :: b <= j < k ==> !Claimable(was[list[j]].flags)
  }

  lemma {:induction false} BatchFacts(was: seq<Page>, now: seq<Page>, next: seq<int>, list: seq<nat>, i: nat, b: nat,
                                      k: nat)
    requires ListOk(was, next, list) && i <= b <= k <= |list| && Taken(was, now, list, i, b, k)
    ensures InRange(list[i..b], |now|) && Distinct(list[i..b]) && RefsHeld(now, list[i..b])
    ensures i == b ==> Taken(was, now, list, k, k, k)
  {
    forall j | 0 <= j < |list[i..b]| ensures list[i..b][j] < |now| && now[list[i..b][j]].refs > 0 {
      assert now[list[i + j]].refs == was[list[i + j]].refs;
    }
  }

  lemma {:induction false} BatchClaimed(was: seq<Page>, now: seq<Page>, list: seq<nat>, i: nat, b: nat, k: nat)
    requires InRange(list, |was|) && (forall j :: 0 <= j < |list| ==> was[list[j]].refs > 0)
    requires i <= b <= |list| && Taken(was, now, list, i, b, k)
    ensures forall x :: x in list[i..b] ==>
              && x < |now| == |was| && now[x].refs == was[x].refs && !now[x].listed
              && now[x].flags == Flags(false, false, true, false, was[x].flags.permanent, was[x].flags.truncated)
  {
    forall x | x in list[i..b]
      ensures now[x].refs == was[x].refs && !now[x].listed
      ensures now[x].flags == Flags(false, false, true, false, was[x].flags.permanent, was[x].flags.truncated)
    {
      var j :| 0 <= j < b - i && list[i..b][j] == x;
      var _ := now[list[i + j]];
    }
  }

  lemma {:induction false} BatchDone(was: seq<Page>, now: seq<Page>, now': seq<Page>, next: seq<int>, list: seq<nat>,
                                     i: nat, b: nat, k: nat)
    requires ListOk(was, next, list) && Cut(was, list, i, b, k) && Taken(was, now, list, i, b, k) && |now'| == |now|
    requires RefsHeld(now, list[i..b])
    requires forall x :: 0 <= x < |now| ==>
               now'[x] == if x in list[i..b] then Ready(now[x]).(refs := now[x].refs - 1) else now[x]
    ensures Taken(was, now', list, k, k, k)
  {
    forall j | 0 <= j < |list| ensures now'[list[j]] == if j < k then Synced(was[list[j]]) else was[list[j]] {
      InSlice(list, i, b, j);
      var _ := now[list[j]];
    }
    forall x | 0 <= x < |was| && x !in list ensures now'[x] == was[x] {
      assert x !in list[i..b];
    }
  }

  lemma {:induction false} InSlice(list: seq<nat>, i: nat, b: nat, j: nat)
    requires Distinct(list) && i <= b <= |list| && j < |list|
    ensures list[j] in list[i..b] <==> i <= j < b
  {
    if i <= j < b { assert list[i..b][j - i] == list[j]; }
  }

  lemma {:induction false} Nothing(pages: seq<Page>, next: seq<int>, list: seq<nat>)
    requires ListOk(pages, next, list)
    ensures InRange(list, |pages|) && (forall i :: 0 <= i < |list| ==> pages[list[i]].refs > 0)
    ensures Taken(pages, pages, list, 0, 0, 0)
    ensures Concat([]) == Claimed(pages, []) == [] == Truncated(pages, [])
  {
  }

  lemma {:induction false} ConcatOne(ranges: seq<Range>, r: Range)
    ensures Concat(ranges + [r]) == Concat(ranges) + r.pages
  {
    assert (ranges + [r])[..|ranges|] == ranges;
  }

  /** What a batch adds to the claimed and the truncated pages. */
  lemma {:induction false} ClaimedStep(was: seq<Page>, list: seq<nat>, i: nat, b: nat, k: nat)
    requires Cut(was, list, i, b, k) && k <= b + 1
    ensures Claimed(was, list[..k]) == Claimed(was, list[..i]) + list[i..b]
    ensures Truncated(was, list[..k]) ==
            Truncated(was, list[..i]) + if b < k && was[list[b]].flags.truncated then [list[b]] else []
  {
    if b < k {
      assert list[..k][..b] == list[..b];
      ClaimedStep(was, list, i, b, b);
    } else if i < b {
      assert list[..b][..b - 1] == list[..b - 1] && list[i..b] == list[i..b - 1] + [list[b - 1]];
      ClaimedStep(was, list, i, b - 1, b - 1);
    }
  }

  lemma {:induction false} WriteIsOk(offsets: seq<nat>, was: seq<Page>, list: seq<nat>, r: Range, i: nat, j: nat)
    requires InRange(list, |was|) && WriteAt(offsets, was, list, r, i, j)
    requires Contiguous(offsets, r.offset, r.pages) && 1 <= |r.pages| <= SYNC_MAX_PAGES
    ensures WriteOk(offsets, was, list, r)
  {
  }

  lemma {:induction false} TakenAll(was: seq<Page>, now: seq<Page>, list: seq<nat>)
    requires InRange(list, |was|) && forall i :: 0 <= i < |list| ==> was[list[i]].refs > 0
    requires Taken(was, now, list, |list|, |list|, |list|)
    ensures |now| == |was|
    ensures forall x :: x in list ==> was[x].refs > 0
    ensures forall x :: 0 <= x < |was| ==> now[x] == if x in list then Synced(was[x]) else was[x]
  {
    forall x | x in list ensures was[x].refs > 0 && now[x] == Synced(was[x]) {
      var j :| 0 <= j < |list| && list[j] == x;
      var _ := now[list[j]];
    }
  }

  lemma {:induction false} NoneMarked(pages: seq<Page>)
    ensures FlagsMarked(pages, pages, []) && Clean(pages, []) == 0
  {
  }

  // What dirtying one more page does.
  lemma {:induction false} OneMoreMarked(was: seq<Page>, now: seq<Page>, range: seq<nat>, i: nat)
    requires InRange(range, |was|) && Distinct(range) && i < |range| && FlagsMarked(was, now, range[..i])
    ensures range[i] < |now| == |was| && now[range[i]] == was[range[i]]
    ensures FlagsMarked(was, now[range[i] := Dirtied(now[range[i]])], range[..i + 1])
    ensures Clean(was, range[..i + 1]) == Clean(was, range[..i]) + if was[range[i]].flags.dirty then 0 else 1
  {
    var x := range[i];
    assert x !in range[..i] && range[..i + 1] == range[..i] + [x] && range[..i + 1][..i] == range[..i];
  }

  lemma {:induction false} NotYet(pages: seq<Page>, range: seq<nat>, i: nat)
    requires InRange(range, |pages|) && i < |range| && FirstPermanent(pages, range) >= i
    ensures FirstPermanent(pages, range) == i <==> pages[range[i]].flags.permanent
  {
  }
}
