/** The ranges of an address space as a list of values: what changing flags and freeing an interval do
    to the pages, and exactly when each is right. */
module VmSpec {
  import opened Common

  /** What backs a range: nothing of its own, or a file from an offset on. */
  datatype Backing = Anonymous | File(node: nat, offset: int)

  datatype Range = Range(start: nat, end: nat, kind: nat, mmu: nat, backing: Backing)

  /** What a mapped address sees. */
  datatype Page = Page(kind: nat, mmu: nat, backing: Backing)

  datatype Request = Request(start: nat, end: nat)

  type Interval = q: Request | q.start <= q.end witness Request(0, 0)

  predicate Covers(r: Range, a: nat) { r.start <= a < r.end }

  function Moved(b: Backing, d: int): Backing {
    if b.File? then b.(offset := b.offset + d) else b
  }

  function PageAt(r: Range, a: nat): Page { Page(r.kind, r.mmu, Moved(r.backing, a - r.start)) }

  /** The page at an address: that of the first range covering it. */
  function View(rs: seq<Range>, a: nat): Option<Page> {
    if rs == [] then None else if Covers(rs[0], a) then Some(PageAt(rs[0], a)) else View(rs[1..], a)
  }

  // Every range begins at or after `lo`.
  ghost predicate Above(rs: seq<Range>, lo: nat) {
    forall i :: 0 <= i < |rs| ==> lo <= rs[i].start
  }

  /** Sorted and disjoint. */
  ghost predicate Ok(rs: seq<Range>) {
    && (forall i :: 0 <= i < |rs| ==> rs[i].start <= rs[i].end)
    && forall i, j :: 0 <= i < j < |rs| ==> rs[i].end <= rs[j].start
  }

  // Ordered by start, possibly overlapping.
  ghost predicate StartSorted(rs: seq<Range>) {
    forall i, j :: 0 <= i < j < |rs| ==> rs[i].start <= rs[j].start
  }

  // ---------- the update, range by range ----------

  datatype Op = SetFlags(mmu: nat) | Free(stale: Backing)

  predicate Inside(r: Range, q: Interval) { q.start <= r.start && r.end <= q.end }
  predicate Around(r: Range, q: Interval) { r.start < q.start && q.end < r.end }
  predicate LeftCut(r: Range, q: Interval) { r.start < q.start && q.start < r.end <= q.end }
  predicate RightCut(r: Range, q: Interval) { q.start <= r.start < q.end && q.end < r.end }

  // The part of a range from `at` on, with its backing moved along.
  function From(r: Range, at: nat): Range { r.(start := at, backing := Moved(r.backing, at - r.start)) }

  /** What takes the place of one range.  The second piece of a left cut runs to the request's end,
      whatever the range's own end was; a freed middle leaves its right part with whatever backing the
      recycled record held. */
  function Pieces(op: Op, r: Range, q: Interval): seq<Range> {
    match op
    case SetFlags(mmu) =>
      if Inside(r, q) then [r.(mmu := mmu)]
      else if r.mmu == mmu then [r]
      else if Around(r, q) then
        [r.(end := q.start), From(r, q.start).(end := q.end, mmu := mmu), From(r, q.end)]
      else if LeftCut(r, q) then [r.(end := q.start), From(r, q.start).(end := q.end, mmu := mmu)]
      else if RightCut(r, q) then [r.(end := q.end, mmu := mmu), From(r, q.end)]
      else [r]
    case Free(stale) =>
      if Inside(r, q) then []
      else if Around(r, q) then
        [r.(end := q.start), r.(start := q.end, backing := if r.backing.File? then stale else Anonymous)]
      else if LeftCut(r, q) then [r.(end := q.start)]
      else if RightCut(r, q) then [r.(start := q.end)]
      else [r]
  }

  /** The whole update, which stops at the first range beginning at or after the request's end. */
  function Update(op: Op, rs: seq<Range>, q: Interval): seq<Range> {
    if rs == [] || rs[0].start >= q.end then rs else Pieces(op, rs[0], q) + Update(op, rs[1..], q)
  }

  /** vmm_unmap: clear the flags of the interval, then free it. */
  function Unmap(rs: seq<Range>, q: Interval, stale: Backing): seq<Range> {
    Update(Free(stale), Update(SetFlags(0), rs, q), q)
  }

  // ---------- lists of pieces ----------

  lemma {:induction false} ViewConcat(xs: seq<Range>, ys: seq<Range>, a: nat)
    ensures View(xs + ys, a) == if View(xs, a).Some? then View(xs, a) else View(ys, a)
  {
    if xs == [] {
      assert xs + ys == ys;
    } else {
      assert (xs + ys)[1..] == xs[1..] + ys;
      ViewConcat(xs[1..], ys, a);
    }
  }

  lemma {:induction false} ViewFew(rs: seq<Range>, a: nat)
    requires |rs| <= 3
    ensures View(rs, a) == if |rs| > 0 && Covers(rs[0], a) then Some(PageAt(rs[0], a))
                           else if |rs| > 1 && Covers(rs[1], a) then Some(PageAt(rs[1], a))
                           else if |rs| > 2 && Covers(rs[2], a) then Some(PageAt(rs[2], a)) else None
  {
    if |rs| > 0 {
      assert forall i :: 0 <= i < |rs| - 1 ==> rs[1..][i] == rs[i + 1];
      ViewFew(rs[1..], a);
    }
  }

  lemma {:induction false} ViewCovers(rs: seq<Range>, a: nat)
    ensures View(rs, a).None? <==> forall i :: 0 <= i < |rs| ==> !Covers(rs[i], a)
  {
    if rs != [] {
      ViewCovers(rs[1..], a);
      assert forall i :: 0 < i < |rs| ==> rs[i] == rs[1..][i - 1];
    }
  }

  lemma {:induction false} ViewAbove(rs: seq<Range>, a: nat, lo: nat)
    requires Above(rs, lo) && a < lo
    ensures View(rs, a).None?
  {
    ViewCovers(rs, a);
  }

  // All ranges lie between two addresses.
  ghost predicate Within(rs: seq<Range>, lo: nat, hi: nat) {
    forall i :: 0 <= i < |rs| ==> lo <= rs[i].start && rs[i].end <= hi
  }

  lemma {:induction false} OkConcat(xs: seq<Range>, ys: seq<Range>, hi: nat)
    requires Ok(xs) && Ok(ys) && Above(ys, hi) && forall i :: 0 <= i < |xs| ==> xs[i].end <= hi
    ensures Ok(xs + ys)
  {
  }

  lemma {:induction false} OkParts(xs: seq<Range>, ys: seq<Range>)
    requires Ok(xs + ys)
    ensures Ok(xs) && Ok(ys)
  {
    assert forall i :: 0 <= i < |xs| ==> xs[i] == (xs + ys)[i];
    assert forall i :: 0 <= i < |ys| ==> ys[i] == (xs + ys)[|xs| + i];
  }

  lemma {:induction false} OkTail(rs: seq<Range>)
    requires Ok(rs) && rs != []
    ensures Ok(rs[1..]) && Above(rs[1..], rs[0].end)
  {
    assert forall i :: 0 <= i < |rs| - 1 ==> rs[1..][i] == rs[i + 1];
  }

  // ---------- changing flags ----------

  function WithFlags(p: Option<Page>, mmu: nat): Option<Page> {
    if p.Some? then Some(p.value.(mmu := mmu)) else None
  }

  /** The guard of the branch that goes wrong: the request's start cuts a range with other flags that
      ends before the request does. */
  predicate Overruns(r: Range, q: Interval, mmu: nat) {
    r.start < q.start < r.end < q.end && r.mmu != mmu
  }

  lemma {:induction false} SetPieces(r: Range, q: Interval, mmu: nat)
    requires r.start <= r.end && !Overruns(r, q, mmu)
    ensures var ps := Pieces(SetFlags(mmu), r, q); Ok(ps) && Within(ps, r.start, r.end)
  {
  }

  lemma {:induction false} SetPiecesView(r: Range, q: Interval, mmu: nat, a: nat)
    requires r.start <= r.end && !Overruns(r, q, mmu)
    ensures var v := View([r], a);
            View(Pieces(SetFlags(mmu), r, q), a) == if q.start <= a < q.end then WithFlags(v, mmu) else v
  {
    var ps := Pieces(SetFlags(mmu), r, q);
    ViewFew(ps, a);
    ViewFew([r], a);
  }

  /** The update is right at one address and keeps the list in order, if no range overruns. */
  lemma {:induction false} SetFlagsRight(rs: seq<Range>, q: Interval, mmu: nat, a: nat, lo: nat)
    requires Ok(rs) && Above(rs, lo) && forall i :: 0 <= i < |rs| ==> !Overruns(rs[i], q, mmu)
    ensures var rs' := Update(SetFlags(mmu), rs, q);
            && Ok(rs') && Above(rs', lo)
            && View(rs', a) == if q.start <= a < q.end then WithFlags(View(rs, a), mmu) else View(rs, a)
  {
    hide Pieces, Overruns;
    if rs == [] {
    } else if rs[0].start >= q.end {
      assert forall i :: 0 < i < |rs| ==> rs[0].end <= rs[i].start;
      if a < q.end { ViewAbove(rs, a, q.end); }
    } else {
      var r, rest := rs[0], rs[1..];
      var ps, rest' := Pieces(SetFlags(mmu), r, q), Update(SetFlags(mmu), rest, q);
      OkTail(rs);
      SetFlagsRight(rest, q, mmu, a, r.end);
      SetPieces(r, q, mmu);
      SetPiecesView(r, q, mmu, a);
      OkConcat(ps, rest', r.end);
      ViewConcat(ps, rest', a);
      ViewConcat([r], rest, a);
      assert rs == [r] + rest;
    }
  }

  lemma {:induction false} OverlapShows(ps: seq<Range>, rest': seq<Range>, rest: seq<Range>, q: Interval, mmu: nat)
    requires Ok(ps + rest') && |ps| == 2 && rest' == Update(SetFlags(mmu), rest, q) && rest != []
    ensures rest' != [] && rest'[0].start == rest[0].start && ps[1].end <= rest'[0].start
  {
    assert (ps + rest')[1] == ps[1] && (ps + rest')[2] == rest'[0];
  }

  lemma {:induction false} FirstOverruns(rs: seq<Range>, q: Interval, mmu: nat)
    requires Ok(rs) && rs != [] && Overruns(rs[0], q, mmu) && Ok(Update(SetFlags(mmu), rs, q))
    ensures View(Update(SetFlags(mmu), rs, q), rs[0].end).Some? && View(rs, rs[0].end).None?
  {
    var r, rest, a := rs[0], rs[1..], rs[0].end;
    var ps, rest' := Pieces(SetFlags(mmu), r, q), Update(SetFlags(mmu), rest, q);
    ViewConcat(ps, rest', a);
    ViewFew(ps, a);
    ViewCovers(rs, a);
    if rest != [] { OverlapShows(ps, rest', rest, q, mmu); }
    assert forall i :: 0 < i < |rs| ==> rest[0].start <= rs[i].start;
  }

  /** A range that overruns leaves an overlap, or maps the address at its end, which was not mapped. */
  lemma {:induction false} SetFlagsWrong(rs: seq<Range>, q: Interval, mmu: nat, i: nat)
    requires Ok(rs) && i < |rs| && Overruns(rs[i], q, mmu) && Ok(Update(SetFlags(mmu), rs, q))
    ensures View(Update(SetFlags(mmu), rs, q), rs[i].end).Some? && View(rs, rs[i].end).None?
  {
    if i == 0 {
      FirstOverruns(rs, q, mmu);
    } else {
      var r, rest, a := rs[0], rs[1..], rs[i].end;
      var ps, rest' := Pieces(SetFlags(mmu), r, q), Update(SetFlags(mmu), rest, q);
      assert r.end <= rs[i].start;
      OkTail(rs);
      OkParts(ps, rest');
      ViewConcat(ps, rest', a);
      SetFlagsWrong(rest, q, mmu, i - 1);
    }
  }

  /** Every page of the request has the new flags, everything else is as it was, and the list is still
      sorted and disjoint. */
  ghost predicate FlagsExact(rs: seq<Range>, q: Interval, mmu: nat, rs': seq<Range>) {
    Ok(rs') &&
    forall a: nat :: View(rs', a) == if q.start <= a < q.end then WithFlags(View(rs, a), mmu) else View(rs, a)
  }

  /** Changing flags is exact if and only if no range overruns. */
  lemma {:induction false} SetFlagsExactIff(rs: seq<Range>, q: Interval, mmu: nat)
    requires Ok(rs)
    ensures FlagsExact(rs, q, mmu, Update(SetFlags(mmu), rs, q)) <==>
            forall i :: 0 <= i < |rs| ==> !Overruns(rs[i], q, mmu)
  {
    if forall i :: 0 <= i < |rs| ==> !Overruns(rs[i], q, mmu) {
      SetFlagsRight(rs, q, mmu, 0, 0);
      forall a: nat { SetFlagsRight(rs, q, mmu, a, 0); }
    } else if Ok(Update(SetFlags(mmu), rs, q)) {
      var i :| 0 <= i < |rs| && Overruns(rs[i], q, mmu);
      SetFlagsWrong(rs, q, mmu, i);
    }
  }

  /** Changing the flags of the second page of a two-page mapping and the unmapped page behind it maps
      that page. */
  lemma {:induction false} OverrunMapsTooMuch()
    ensures var rs := [Range(0, 2 * PAGE_SIZE, 0, 3, Anonymous)];
            var rs' := Update(SetFlags(1), rs, Request(PAGE_SIZE, 3 * PAGE_SIZE));
            View(rs, 2 * PAGE_SIZE).None? && View(rs', 2 * PAGE_SIZE).Some?
  {
    var rs := [Range(0, 2 * PAGE_SIZE, 0, 3, Anonymous)];
    FirstOverruns(rs, Request(PAGE_SIZE, 3 * PAGE_SIZE), 1);
  }

  // ---------- unmapping ----------

  function One(op: Op, r: Range, q: Interval): seq<Range> { if r.start >= q.end then [r] else Pieces(op, r, q) }

  function Each(op: Op, rs: seq<Range>, q: Interval): seq<Range> {
    if rs == [] then [] else One(op, rs[0], q) + Each(op, rs[1..], q)
  }

  lemma {:induction false} EachPast(op: Op, rs: seq<Range>, q: Interval)
    requires Above(rs, q.end)
    ensures Each(op, rs, q) == rs
  {
    if rs != [] {
      assert rs == [rs[0]] + rs[1..];
      EachPast(op, rs[1..], q);
    }
  }

  /** On a list ordered by start the update treats every range alike. */
  lemma {:induction false} UpdateEach(op: Op, rs: seq<Range>, q: Interval)
    requires StartSorted(rs)
    ensures Update(op, rs, q) == Each(op, rs, q)
  {
    if rs == [] {
    } else if rs[0].start >= q.end {
      EachPast(op, rs, q);
    } else {
      assert forall i :: 0 <= i < |rs| - 1 ==> rs[1..][i] == rs[i + 1];
      UpdateEach(op, rs[1..], q);
    }
  }

  lemma {:induction false} EachConcat(op: Op, xs: seq<Range>, ys: seq<Range>, q: Interval)
    ensures Each(op, xs + ys, q) == Each(op, xs, q) + Each(op, ys, q)
  {
    if xs == [] {
      assert xs + ys == ys;
    } else {
      assert (xs + ys)[1..] == xs[1..] + ys;
      EachConcat(op, xs[1..], ys, q);
    }
  }

  /** Even where it overruns, changing flags leaves the list ordered by start. */
  lemma {:induction false} SetStartSorted(rs: seq<Range>, q: Interval, mmu: nat, lo: nat)
    requires Ok(rs) && Above(rs, lo)
    ensures StartSorted(Update(SetFlags(mmu), rs, q)) && Above(Update(SetFlags(mmu), rs, q), lo)
  {
    hide Pieces;
    if rs != [] && rs[0].start < q.end {
      var r := rs[0];
      OkTail(rs);
      SetStartSorted(rs[1..], q, mmu, r.end);
      PiecesStart(r, q, mmu);
      StartConcat(Pieces(SetFlags(mmu), r, q), Update(SetFlags(mmu), rs[1..], q), lo, r.end);
    } else {
      assert forall i, j :: 0 <= i < j < |rs| ==> rs[i].start <= rs[i].end <= rs[j].start;
    }
  }

  lemma {:induction false} PiecesStart(r: Range, q: Interval, mmu: nat)
    requires r.start <= r.end
    ensures var ps := Pieces(SetFlags(mmu), r, q);
            StartSorted(ps) && Above(ps, r.start) && forall i :: 0 <= i < |ps| ==> ps[i].start <= r.end
  {
  }

  lemma {:induction false} StartConcat(xs: seq<Range>, ys: seq<Range>, lo: nat, mid: nat)
    requires StartSorted(xs) && StartSorted(ys) && Above(xs, lo) && Above(ys, mid) && lo <= mid
    requires forall i :: 0 <= i < |xs| ==> xs[i].start <= mid
    ensures StartSorted(xs + ys) && Above(xs + ys, lo)
  {
  }

  /** What unmapping makes of one range. */
  function UnmapOne(r: Range, q: Interval, stale: Backing): seq<Range> {
    Each(Free(stale), One(SetFlags(0), r, q), q)
  }

  function UnmapEach(rs: seq<Range>, q: Interval, stale: Backing): seq<Range> {
    if rs == [] then [] else UnmapOne(rs[0], q, stale) + UnmapEach(rs[1..], q, stale)
  }

  lemma {:induction false} UnmapEachIs(rs: seq<Range>, q: Interval, stale: Backing)
    ensures Each(Free(stale), Each(SetFlags(0), rs, q), q) == UnmapEach(rs, q, stale)
  {
    if rs != [] {
      EachConcat(Free(stale), One(SetFlags(0), rs[0], q), Each(SetFlags(0), rs[1..], q), q);
      UnmapEachIs(rs[1..], q, stale);
    }
  }

  lemma {:induction false} UnmapIsEach(rs: seq<Range>, q: Interval, stale: Backing)
    requires Ok(rs)
    ensures Unmap(rs, q, stale) == UnmapEach(rs, q, stale)
  {
    assert forall i, j :: 0 <= i < j < |rs| ==> rs[i].start <= rs[i].end <= rs[j].start;
    SetStartSorted(rs, q, 0, 0);
    UpdateEach(SetFlags(0), rs, q);
    UpdateEach(Free(stale), Update(SetFlags(0), rs, q), q);
    UnmapEachIs(rs, q, stale);
  }

  /** The guard under which unmapping misplaces a file: its range straddles the interval's end and has
      no flags set, so that the first pass does not split it. */
  predicate Loses(r: Range, q: Interval) {
    r.backing.File? && r.mmu == 0 && r.start < q.end < r.end
  }

  lemma {:induction false} EachFew(op: Op, rs: seq<Range>, q: Interval)
    requires |rs| <= 3
    ensures Each(op, rs, q) ==
            (if |rs| > 0 then One(op, rs[0], q) else []) + (if |rs| > 1 then One(op, rs[1], q) else []) +
                               (if |rs| > 2 then One(op, rs[2], q) else [])
  {
    if |rs| > 0 {
      assert forall i :: 0 <= i < |rs| - 1 ==> rs[1..][i] == rs[i + 1];
      EachFew(op, rs[1..], q);
    }
  }

  /** What unmapping leaves of one range, spelled out. */
  function Remains(r: Range, q: Interval, stale: Backing): seq<Range> {
    if r.start >= q.end then [r]
    else if Inside(r, q) then []
    else if Around(r, q) then
      [r.(end := q.start)] +
      (if r.mmu != 0 && q.start == q.end then [From(r, q.start).(end := q.end, mmu := 0)] else []) +
      [if r.mmu != 0 then From(r, q.end)
       else r.(start := q.end, backing := if r.backing.File? then stale else Anonymous)]
    else if LeftCut(r, q) then [r.(end := q.start)]
    else if RightCut(r, q) then [if r.mmu != 0 then From(r, q.end) else r.(start := q.end)]
    else [r]
  }

  lemma {:induction false} UnmapOneIs(r: Range, q: Interval, stale: Backing)
    requires r.start <= r.end
    ensures UnmapOne(r, q, stale) == Remains(r, q, stale)
  {
    EachFew(Free(stale), One(SetFlags(0), r, q), q);
  }

  lemma {:induction false} RemainsOk(r: Range, q: Interval, stale: Backing)
    requires r.start <= r.end
    ensures var ps := Remains(r, q, stale); |ps| <= 3 && Ok(ps) && Within(ps, r.start, r.end)
  {
  }

  /** What an address sees of one range after unmapping. */
  function Left(r: Range, q: Interval, stale: Backing, a: nat): Option<Page> {
    if !Covers(r, a) || q.start <= a < q.end then None
    else if Loses(r, q) && q.end <= a then
      Some(Page(r.kind, r.mmu, Moved(if Around(r, q) then stale else r.backing, a - q.end)))
    else Some(PageAt(r, a))
  }

  lemma {:induction false} RemainsView(r: Range, q: Interval, stale: Backing, a: nat)
    requires r.start <= r.end
    ensures View(Remains(r, q, stale), a) == Left(r, q, stale, a)
  {
    RemainsOk(r, q, stale);
    ViewFew(Remains(r, q, stale), a);
  }

  lemma {:induction false} UnmapWithin(rs: seq<Range>, q: Interval, stale: Backing, lo: nat, hi: nat)
    requires Ok(rs) && Within(rs, lo, hi)
    ensures Within(UnmapEach(rs, q, stale), lo, hi)
  {
    if rs != [] {
      hide UnmapOne, Remains;
      OkTail(rs);
      UnmapOneIs(rs[0], q, stale);
      RemainsOk(rs[0], q, stale);
      UnmapWithin(rs[1..], q, stale, lo, hi);
    }
  }

  function LeftOf(rs: seq<Range>, q: Interval, stale: Backing, a: nat): Option<Page> {
    if rs == [] then None
    else if Covers(rs[0], a) then Left(rs[0], q, stale, a) else LeftOf(rs[1..], q, stale, a)
  }

  lemma {:induction false} UnmapView(rs: seq<Range>, q: Interval, stale: Backing, a: nat, lo: nat)
    requires Ok(rs) && Above(rs, lo)
    ensures var rs' := UnmapEach(rs, q, stale); Ok(rs') && Above(rs', lo) && View(rs', a) == LeftOf(rs, q, stale, a)
  {
    hide UnmapOne, Remains, Left;
    if rs != [] {
      var r, rest := rs[0], rs[1..];
      var ps, rest' := UnmapOne(r, q, stale), UnmapEach(rest, q, stale);
      OkTail(rs);
      UnmapView(rest, q, stale, a, r.end);
      UnmapOneIs(r, q, stale);
      RemainsOk(r, q, stale);
      RemainsView(r, q, stale, a);
      OkConcat(ps, rest', r.end);
      ViewConcat(ps, rest', a);
      LeftCovered(r, q, stale, a);
      if Covers(r, a) { ViewAbove(rest', a, r.end); }
    }
  }

  lemma {:induction false} LeftCovered(r: Range, q: Interval, stale: Backing, a: nat)
    ensures !Covers(r, a) ==> Left(r, q, stale, a).None?
  {
  }

  // The same mapping, whatever backs it.
  predicate SameFlags(p: Option<Page>, p': Option<Page>) {
    (p.Some? <==> p'.Some?) && (p.Some? ==> p.value.kind == p'.value.kind && p.value.mmu == p'.value.mmu)
  }

  lemma {:induction false} LeftOfIs(rs: seq<Range>, q: Interval, stale: Backing, a: nat)
    ensures q.start <= a < q.end ==> LeftOf(rs, q, stale, a).None?
    ensures !(q.start <= a < q.end) ==> SameFlags(LeftOf(rs, q, stale, a), View(rs, a))
    ensures !(q.start <= a < q.end) && (forall i :: 0 <= i < |rs| ==> !Loses(rs[i], q)) ==>
              LeftOf(rs, q, stale, a) == View(rs, a)
  {
    if rs != [] {
      assert forall i :: 0 <= i < |rs| - 1 ==> rs[1..][i] == rs[i + 1];
      LeftOfIs(rs[1..], q, stale, a);
    }
  }

  /** Unmapping leaves a sorted, disjoint list that maps exactly the addresses outside the interval that
      were mapped, with their flags, although its first pass may leave overlapping ranges. */
  lemma {:induction false} UnmapRight(rs: seq<Range>, q: Interval, stale: Backing)
    requires Ok(rs)
    ensures var rs' := Unmap(rs, q, stale);
            && Ok(rs')
            && (forall a: nat :: q.start <= a < q.end ==> View(rs', a).None?)
            && (forall a: nat :: !(q.start <= a < q.end) ==> SameFlags(View(rs', a), View(rs, a)))
  {
    hide Unmap, UnmapEach, LeftOf, View, Ok, SameFlags;
    UnmapIsEach(rs, q, stale);
    UnmapView(rs, q, stale, 0, 0);
    forall a: nat
      ensures q.start <= a < q.end ==> View(Unmap(rs, q, stale), a).None?
      ensures !(q.start <= a < q.end) ==> SameFlags(View(Unmap(rs, q, stale), a), View(rs, a))
    {
      UnmapView(rs, q, stale, a, 0);
      LeftOfIs(rs, q, stale, a);
    }
  }

  /** Every address outside the interval sees what it saw before, down to the file offset. */
  ghost predicate BackingKept(rs: seq<Range>, q: Interval, stale: Backing) {
    forall a: nat :: !(q.start <= a < q.end) ==> View(Unmap(rs, q, stale), a) == View(rs, a)
  }

  lemma {:induction false} LosesShows(rs: seq<Range>, q: Interval, stale: Backing, i: nat)
    requires Ok(rs) && i < |rs| && Loses(rs[i], q)
    requires stale != Moved(rs[i].backing, q.end - rs[i].start)
    ensures LeftOf(rs, q, stale, q.end) != View(rs, q.end)
  {
    if i > 0 {
      assert rs[0].end <= rs[i].start;
      OkTail(rs);
      LosesShows(rs[1..], q, stale, i - 1);
    }
  }

  /** Unmapping keeps the backing of every surviving page, whatever the recycled record held, if and
      only if no file range without flags straddles the interval's end. */
  lemma {:induction false} UnmapKeepsBackingIff(rs: seq<Range>, q: Interval)
    requires Ok(rs)
    ensures (forall stale :: BackingKept(rs, q, stale)) <==> forall i :: 0 <= i < |rs| ==> !Loses(rs[i], q)
  {
    hide Unmap, UnmapEach, LeftOf, View;
    if forall i :: 0 <= i < |rs| ==> !Loses(rs[i], q) {
      forall stale, a: nat | !(q.start <= a < q.end) ensures View(Unmap(rs, q, stale), a) == View(rs, a) {
        UnmapIsEach(rs, q, stale);
        UnmapView(rs, q, stale, a, 0);
        LeftOfIs(rs, q, stale, a);
      }
    } else {
      var i :| 0 <= i < |rs| && Loses(rs[i], q);
      var right := Moved(rs[i].backing, q.end - rs[i].start);
      var stale := File(right.node, right.offset + 1);
      UnmapIsEach(rs, q, stale);
      UnmapView(rs, q, stale, q.end, 0);
      LosesShows(rs, q, stale, i);
      assert !BackingKept(rs, q, stale);
    }
  }

  /** A file mapped without permissions: unmapping its first page shifts the rest by one page. */
  lemma {:induction false} UnmapShiftsFile()
    ensures var rs := [Range(0, 2 * PAGE_SIZE, 0, 0, File(7, 0))];
            var rs' := Unmap(rs, Request(0, PAGE_SIZE), Anonymous);
            && View(rs, PAGE_SIZE) == Some(Page(0, 0, File(7, PAGE_SIZE)))
            && View(rs', PAGE_SIZE) == Some(Page(0, 0, File(7, 0)))
  {
    var r, q := Range(0, 2 * PAGE_SIZE, 0, 0, File(7, 0)), Request(0, PAGE_SIZE);
    UnmapIsEach([r], q, Anonymous);
    UnmapView([r], q, Anonymous, PAGE_SIZE, 0);
  }

  // ---------- file references ----------

  function IsOf(b: Backing, n: nat): nat { if b.File? && b.node == n then 1 else 0 }

  /** How many ranges map a file. */
  function Mappings(rs: seq<Range>, n: nat): nat {
    if rs == [] then 0 else IsOf(rs[0].backing, n) + Mappings(rs[1..], n)
  }

  /** The references to a file taken, less those dropped, for one range. */
  function Taken(op: Op, r: Range, q: Interval, n: nat): int {
    match op
    case SetFlags(mmu) =>
      if Inside(r, q) || r.mmu == mmu then 0
      else if Around(r, q) then 2 * IsOf(r.backing, n)
      else if LeftCut(r, q) || RightCut(r, q) then IsOf(r.backing, n) else 0
    case Free(_) => if Inside(r, q) then 0 - IsOf(r.backing, n) else 0
  }

  function TakenOver(op: Op, rs: seq<Range>, q: Interval, n: nat): int {
    if rs == [] || rs[0].start >= q.end then 0 else Taken(op, rs[0], q, n) + TakenOver(op, rs[1..], q, n)
  }

  lemma {:induction false} MappingsConcat(xs: seq<Range>, ys: seq<Range>, n: nat)
    ensures Mappings(xs + ys, n) == Mappings(xs, n) + Mappings(ys, n)
  {
    if xs == [] {
      assert xs + ys == ys;
    } else {
      assert (xs + ys)[1..] == xs[1..] + ys;
      MappingsConcat(xs[1..], ys, n);
    }
  }

  lemma {:induction false} MappingsFew(rs: seq<Range>, n: nat)
    requires |rs| <= 3
    ensures Mappings(rs, n) ==
            (if |rs| > 0 then IsOf(rs[0].backing, n) else 0) + (if |rs| > 1 then IsOf(rs[1].backing, n) else 0) +
                               (if |rs| > 2 then IsOf(rs[2].backing, n) else 0)
  {
    if |rs| > 0 {
      assert forall i :: 0 <= i < |rs| - 1 ==> rs[1..][i] == rs[i + 1];
      MappingsFew(rs[1..], n);
    }
  }

  /** The middle of a file range freed in one go: its right part is a mapping nobody took a reference
      for. */
  predicate Unheld(op: Op, r: Range, q: Interval) {
    op.Free? && r.backing.File? && Around(r, q)
  }

  // How many ranges of the list are treated that way, each a mapping of the file `n`.
  function UnheldOver(op: Op, rs: seq<Range>, q: Interval, n: nat): nat {
    if rs == [] then 0
    else (if Unheld(op, rs[0], q) then IsOf(op.stale, n) else 0) + UnheldOver(op, rs[1..], q, n)
  }

  lemma {:induction false} PiecesHeld(op: Op, r: Range, q: Interval, n: nat)
    ensures Mappings(Pieces(op, r, q), n) - IsOf(r.backing, n) ==
            Taken(op, r, q, n) + if Unheld(op, r, q) then IsOf(op.stale, n) else 0
  {
    MappingsFew(Pieces(op, r, q), n);
  }

  lemma {:induction false} UnheldNone(op: Op, rs: seq<Range>, q: Interval, n: nat)
    requires forall i :: 0 <= i < |rs| ==> !Unheld(op, rs[i], q)
    ensures UnheldOver(op, rs, q, n) == 0
  {
    if rs != [] { UnheldNone(op, rs[1..], q, n); }
  }

  /** The number of mappings of a file changes by the references taken, except for the right parts of
      file ranges freed in the middle. */
  lemma {:induction false} UpdateHolds(op: Op, rs: seq<Range>, q: Interval, n: nat)
    requires StartSorted(rs)
    ensures Mappings(Update(op, rs, q), n) - Mappings(rs, n) == TakenOver(op, rs, q, n) + UnheldOver(op, rs, q, n)
  {
    if rs == [] {
    } else if rs[0].start >= q.end {
      UnheldNone(op, rs, q, n);
    } else {
      hide Pieces, Taken, Unheld;
      assert forall i :: 0 <= i < |rs| - 1 ==> rs[1..][i] == rs[i + 1];
      MappingsConcat(Pieces(op, rs[0], q), Update(op, rs[1..], q), n);
      PiecesHeld(op, rs[0], q, n);
      UpdateHolds(op, rs[1..], q, n);
    }
  }

  lemma {:induction false} UnheldConcat(op: Op, xs: seq<Range>, ys: seq<Range>, q: Interval, n: nat)
    ensures UnheldOver(op, xs + ys, q, n) == UnheldOver(op, xs, q, n) + UnheldOver(op, ys, q, n)
  {
    if xs == [] {
      assert xs + ys == ys;
    } else {
      assert (xs + ys)[1..] == xs[1..] + ys;
      UnheldConcat(op, xs[1..], ys, q, n);
    }
  }

  lemma {:induction false} UnheldFew(op: Op, rs: seq<Range>, q: Interval, n: nat)
    requires |rs| <= 3 && forall i :: 1 <= i < |rs| ==> !Unheld(op, rs[i], q)
    ensures UnheldOver(op, rs, q, n) == if |rs| > 0 && Unheld(op, rs[0], q) then IsOf(op.stale, n) else 0
  {
    if |rs| > 0 {
      assert forall i :: 0 <= i < |rs| - 1 ==> rs[1..][i] == rs[i + 1];
      UnheldFew(op, rs[1..], q, n);
    }
  }

  /** Clearing the flags first splits every range with flags, so that only those without are left to
      be freed in the middle. */
  lemma {:induction false} UnheldAfterClear(rs: seq<Range>, q: Interval, stale: Backing)
    requires stale.File?
    ensures UnheldOver(Free(stale), Each(SetFlags(0), rs, q), q, stale.node) == 0 <==>
            forall i :: 0 <= i < |rs| ==> !(Unheld(Free(stale), rs[i], q) && rs[i].mmu == 0)
  {
    if rs != [] {
      var r, rest, f := rs[0], rs[1..], Free(stale);
      UnheldConcat(f, One(SetFlags(0), r, q), Each(SetFlags(0), rest, q), q, stale.node);
      UnheldFew(f, One(SetFlags(0), r, q), q, stale.node);
      assert forall i :: 0 <= i < |rest| ==> rest[i] == rs[i + 1];
      assert forall i :: 0 < i < |rs| ==> rs[i] == rest[i - 1];
      UnheldAfterClear(rest, q, stale);
    }
  }

  /** The references both passes of an unmap take, less those they drop. */
  function TakenByUnmap(rs: seq<Range>, q: Interval, stale: Backing, n: nat): int {
    TakenOver(SetFlags(0), rs, q, n) + TakenOver(Free(stale), Update(SetFlags(0), rs, q), q, n)
  }

  /** Changing flags takes one reference for every file range it adds. */
  lemma {:induction false} SetFlagsHolds(rs: seq<Range>, q: Interval, mmu: nat, n: nat)
    requires Ok(rs)
    ensures Mappings(Update(SetFlags(mmu), rs, q), n) - Mappings(rs, n) == TakenOver(SetFlags(mmu), rs, q, n)
  {
    assert forall i, j :: 0 <= i < j < |rs| ==> rs[i].start <= rs[i].end <= rs[j].start;
    UpdateHolds(SetFlags(mmu), rs, q, n);
    UnheldNone(SetFlags(mmu), rs, q, n);
  }

  /** Unmapping keeps one reference per file range, for every file, if and only if no file range
      without flags reaches out of the interval on both sides, or the recycled record names no file. */
  lemma {:induction false} UnmapHoldsIff(rs: seq<Range>, q: Interval, stale: Backing)
    requires Ok(rs)
    ensures (forall n: nat :: Mappings(Unmap(rs, q, stale), n) - Mappings(rs, n) == TakenByUnmap(rs, q, stale, n)) <==>
            stale.Anonymous? ||
            forall i :: 0 <= i < |rs| ==> !(rs[i].backing.File? && rs[i].mmu == 0 && Around(rs[i], q))
  {
    var mid := Update(SetFlags(0), rs, q);
    assert forall i, j :: 0 <= i < j < |rs| ==> rs[i].start <= rs[i].end <= rs[j].start;
    SetStartSorted(rs, q, 0, 0);
    UpdateEach(SetFlags(0), rs, q);
    if stale.File? { UnheldAfterClear(rs, q, stale); }
    forall n: nat
      ensures Mappings(Unmap(rs, q, stale), n) - Mappings(rs, n) ==
              TakenByUnmap(rs, q, stale, n) + UnheldOver(Free(stale), mid, q, n)
    {
      SetFlagsHolds(rs, q, 0, n);
      UpdateHolds(Free(stale), mid, q, n);
    }
    if stale.Anonymous? || UnheldOver(Free(stale), mid, q, stale.node) == 0 {
      forall n: nat ensures UnheldOver(Free(stale), mid, q, n) == 0 { UnheldZero(Free(stale), mid, q, n); }
    }
  }

  lemma {:induction false} UnheldZero(op: Op, rs: seq<Range>, q: Interval, n: nat)
    requires op.Free? && (op.stale.Anonymous? || UnheldOver(op, rs, q, op.stale.node) == 0)
    ensures UnheldOver(op, rs, q, n) == 0
  {
    if rs != [] { UnheldZero(op, rs[1..], q, n); }
  }

  lemma {:induction false} OneRange(op: Op, r: Range, q: Interval)
    requires r.start < q.end
    ensures Update(op, [r], q) == Pieces(op, r, q) && forall n: nat :: TakenOver(op, [r], q, n) == Taken(op, r, q, n)
  {
    assert [r][1..] == [];
  }

  /** Unmapping the middle page of a file mapped without permissions, through a record that last named
      another file: that file gains a mapping for which nobody takes a reference. */
  lemma {:induction false} UnmapMissesReference()
    ensures var rs := [Range(0, 3 * PAGE_SIZE, 0, 0, File(7, 0))];
            var q, stale := Request(PAGE_SIZE, 2 * PAGE_SIZE), File(9, 0);
            Mappings(rs, 9) == 0 && Mappings(Unmap(rs, q, stale), 9) == 1 && TakenByUnmap(rs, q, stale, 9) == 0
  {
    var r := Range(0, 3 * PAGE_SIZE, 0, 0, File(7, 0));
    var q: Interval, stale := Request(PAGE_SIZE, 2 * PAGE_SIZE), File(9, 0);
    var left, right := r.(end := PAGE_SIZE), r.(start := 2 * PAGE_SIZE, backing := stale);
    OneRange(SetFlags(0), r, q);
    OneRange(Free(stale), r, q);
    assert Pieces(SetFlags(0), r, q) == [r] && Pieces(Free(stale), r, q) == [left, right];
    MappingsFew([left, right], 9);
    MappingsFew([r], 9);
  }

  // ---------- finding room ----------

  function AlignUp(x: nat): (r: nat)
    ensures r % PAGE_SIZE == 0 && x <= r < x + PAGE_SIZE
  {
    (x + 4095) / PAGE_SIZE * PAGE_SIZE
  }

  function AlignDown(x: nat): (r: nat)
    ensures r % PAGE_SIZE == 0 && r <= x < r + PAGE_SIZE
  {
    x / PAGE_SIZE * PAGE_SIZE
  }

  /** An address at which `size` bytes are free: aligned, between the bounds, and missing every range. */
  ghost predicate Fits(rs: seq<Range>, lo: nat, hi: nat, size: nat, a: nat) {
    && a % PAGE_SIZE == 0 && lo <= a && a + size <= hi
    && forall i :: 0 <= i < |rs| ==> a + size <= rs[i].start || rs[i].end <= a
  }

  ghost predicate Misses(rs: seq<Range>, v: Range) {
    forall i :: 0 <= i < |rs| ==> v.end <= rs[i].start || rs[i].end <= v.start
  }

  lemma {:induction false} NextAligned(a: nat, x: nat)
    requires a % PAGE_SIZE == 0 && x <= a
    ensures AlignUp(x) <= a
  {
  }

  /** Passing a range: whatever fits lies at or after the end of a range it cannot stand in front of. */
  lemma {:induction false} PassRange(rs: seq<Range>, lo: nat, hi: nat, size: nat, i: nat, cand: nat, a: nat)
    requires i < |rs| && Fits(rs, lo, hi, size, a) && cand <= a && !(cand + size <= rs[i].start)
    ensures rs[i].end <= a && AlignUp(rs[i].end) <= a
  {
    NextAligned(a, rs[i].end);
  }

  lemma {:induction false} Inserted(rs: seq<Range>, k: nat, v: Range)
    requires Ok(rs) && k <= |rs| && v.start <= v.end
    requires (k > 0 ==> rs[k - 1].end <= v.start) && (k < |rs| ==> v.end <= rs[k].start)
    ensures Ok(rs[..k] + [v] + rs[k..]) && Misses(rs, v)
  {
    forall i | 0 <= i < |rs| ensures if i < k then rs[i].end <= v.start else v.end <= rs[i].start {
      if i < k - 1 { assert rs[i].end <= rs[k - 1].start <= rs[k - 1].end; }
      if k < i { assert rs[k].start <= rs[k].end <= rs[i].start; }
    }
  }

  lemma {:induction false} UnmapEachSame(rs: seq<Range>, q: Interval, stale: Backing)
    requires forall i :: 0 <= i < |rs| ==> rs[i].start < rs[i].end && (rs[i].end <= q.start || q.end <= rs[i].start)
    ensures UnmapEach(rs, q, stale) == rs
  {
    if rs != [] {
      UnmapOneIs(rs[0], q, stale);
      UnmapEachSame(rs[1..], q, stale);
      assert rs == [rs[0]] + rs[1..];
    }
  }

  lemma {:induction false} UnmapEachConcat(xs: seq<Range>, ys: seq<Range>, q: Interval, stale: Backing)
    ensures UnmapEach(xs + ys, q, stale) == UnmapEach(xs, q, stale) + UnmapEach(ys, q, stale)
  {
    if xs == [] {
      assert xs + ys == ys;
    } else {
      assert (xs + ys)[1..] == xs[1..] + ys;
      UnmapEachConcat(xs[1..], ys, q, stale);
    }
  }

  /** Unmapping a range that was just inserted gives the list back as it was. */
  lemma {:induction false} InsertUnmap(rs: seq<Range>, k: nat, v: Range, stale: Backing)
    requires k <= |rs| && v.start < v.end && Ok(rs[..k] + [v] + rs[k..])
    requires forall i :: 0 <= i < |rs| ==> rs[i].start < rs[i].end
    ensures Unmap(rs[..k] + [v] + rs[k..], Request(v.start, v.end), stale) == rs
  {
    hide Unmap, UnmapEach, UnmapOne, Remains, Ok;
    var q: Interval, all := Request(v.start, v.end), rs[..k] + [v] + rs[k..];
    UnmapIsEach(all, q, stale);
    UnmapEachConcat(rs[..k] + [v], rs[k..], q, stale);
    UnmapEachConcat(rs[..k], [v], q, stale);
    InsertApart(rs, k, v);
    UnmapEachSame(rs[..k], q, stale);
    UnmapEachSame(rs[k..], q, stale);
    UnmapWhole(v, stale);
    assert rs[..k] + [] + rs[k..] == rs;
  }

  lemma {:induction false} UnmapWhole(v: Range, stale: Backing)
    requires v.start < v.end
    ensures UnmapEach([v], Request(v.start, v.end), stale) == []
  {
    UnmapOneIs(v, Request(v.start, v.end), stale);
  }

  lemma {:induction false} InsertApart(rs: seq<Range>, k: nat, v: Range)
    requires k <= |rs| && Ok(rs[..k] + [v] + rs[k..]) && forall i :: 0 <= i < |rs| ==> rs[i].start < rs[i].end
    ensures forall i :: 0 <= i < k ==> rs[..k][i].start < rs[..k][i].end <= v.start
    ensures forall i :: 0 <= i < |rs| - k ==> v.end <= rs[k..][i].start < rs[k..][i].end
  {
    var all := rs[..k] + [v] + rs[k..];
    assert all[k] == v;
    assert forall i :: 0 <= i < k ==> rs[..k][i] == all[i];
    assert forall i :: 0 <= i < |rs| - k ==> rs[k..][i] == all[k + 1 + i];
  }

  // ---------- what an address sees ----------

  /** An address in a range sees the range's flags and, in a file range, the file at the range's offset plus its
      distance from the start; an address in no range sees nothing. */
  lemma {:induction false} ViewAt(rs: seq<Range>, i: nat, a: nat)
    requires Ok(rs) && i < |rs| && rs[i].start <= a < rs[i].end
    ensures var b := rs[i].backing;
            View(rs, a) == Some(Page(rs[i].kind, rs[i].mmu,
                                     if b.File? then File(b.node, b.offset + (a - rs[i].start)) else Anonymous))
  {
    if i > 0 {
      assert rs[0].end <= rs[i].start;
      OkTail(rs);
      ViewAt(rs[1..], i - 1, a);
    }
  }

  /** What any address sees after a change of flags under which no range with other flags is cut by the request's
      start and ends before its end: the new flags in the request, and otherwise what it saw before. */
  lemma {:induction false} SetFlagsOutcome(rs: seq<Range>, q: Interval, mmu: nat, a: nat)
    requires Ok(rs) && forall i :: 0 <= i < |rs| ==> !(rs[i].start < q.start < rs[i].end < q.end && rs[i].mmu != mmu)
    ensures var p, p' := View(rs, a), View(Update(SetFlags(mmu), rs, q), a);
            && (p'.None? <==> p.None?)
            && (p.Some? ==>
                  && p'.value.kind == p.value.kind && p'.value.backing == p.value.backing
                  && p'.value.mmu == if q.start <= a < q.end then mmu else p.value.mmu)
  {
    SetFlagsRight(rs, q, mmu, a, 0);
  }

  /** What any address sees after an unmap: nothing in the interval; outside of it the flags it saw before, and
      the same backing as well unless its list has a file range without MMU flags across the interval's end. */
  lemma {:induction false} UnmapOutcome(rs: seq<Range>, q: Interval, stale: Backing, a: nat)
    requires Ok(rs)
    ensures var p, p' := View(rs, a), View(Unmap(rs, q, stale), a);
            && (p'.None? <==> p.None? || q.start <= a < q.end)
            && (p'.Some? ==> p'.value.kind == p.value.kind && p'.value.mmu == p.value.mmu)
            && (p'.Some? &&
                (forall i :: 0 <= i < |rs| ==>
                   !(rs[i].backing.File? && rs[i].mmu == 0 && rs[i].start < q.end < rs[i].end)) ==>
                  p' == p)
  {
    hide Unmap, View;
    UnmapRight(rs, q, stale);
    if forall i :: 0 <= i < |rs| ==> !(rs[i].backing.File? && rs[i].mmu == 0 && rs[i].start < q.end < rs[i].end) {
      assert forall i :: 0 <= i < |rs| ==> !Loses(rs[i], q);
      UnmapKeepsBackingIff(rs, q);
      assert BackingKept(rs, q, stale);
    }
  }
}
