/** An address space as the kernel keeps it: a doubly linked list of range records, updated in place. */
module VmList {
  import opened Common
  import opened Links
  import opened VmSpec

  // The ranges of the list, in order.
  ghost function Records(ranges: seq<Range>, q: seq<nat>): seq<Range>
    requires InRange(q, |ranges|)
  {
    seq(|q|, i requires 0 <= i < |q| => ranges[q[i]])
  }

  lemma {:induction false} RecordsGrown(ranges: seq<Range>, q: seq<nat>, v: Range)
    requires InRange(q, |ranges|)
    ensures InRange(q, |ranges| + 1) && Records(ranges + [v], q) == Records(ranges, q)
  {
  }

  lemma {:induction false} RecordsWritten(ranges: seq<Range>, q: seq<nat>, k: nat, v: Range)
    requires InRange(q, |ranges|) && Distinct(q) && k < |q|
    ensures Records(ranges[q[k] := v], q) == Records(ranges, q)[k := v]
  {
  }

  lemma {:induction false} RecordsInserted(ranges: seq<Range>, q: seq<nat>, k: nat, n: nat)
    requires InRange(q, |ranges|) && k <= |q| && n < |ranges|
    ensures InRange(InsertAt(q, k, n), |ranges|)
    ensures Records(ranges, InsertAt(q, k, n)) == InsertAt(Records(ranges, q), k, ranges[n])
  {
    InsertedAt(q, k, n);
    InsertedAt(Records(ranges, q), k, ranges[n]);
  }

  lemma {:induction false} RecordsRemoved(ranges: seq<Range>, q: seq<nat>, k: nat)
    requires InRange(q, |ranges|) && k < |q|
    ensures InRange(RemoveAt(q, k), |ranges|)
    ensures Records(ranges, RemoveAt(q, k)) == RemoveAt(Records(ranges, q), k)
  {
  }

  /** The list with the range at position `k` replaced. */
  function Replaced(rs: seq<Range>, k: nat, ps: seq<Range>): seq<Range>
    requires k < |rs|
  {
    rs[..k] + ps + rs[k + 1..]
  }

  function RefsOf(refs: map<nat, int>, n: nat): int { if n in refs then refs[n] else 0 }

  class Space {
    const start: nat
    const end: nat
    var ranges: seq<Range>
    var next: seq<int>
    var prev: seq<int>
    var head: int
    var refs: map<nat, int>     // the references held on files
    ghost var q: seq<nat>

    ghost predicate Shape()
      reads `ranges, `next, `prev, `head, `q
    {
      |ranges| == |next| && Linked(next, prev, head, q)
    }

    ghost function Contents(): seq<Range>
      requires Shape()
      reads `ranges, `next, `prev, `head, `q
    {
      Records(ranges, q)
    }

    constructor (lo: nat, hi: nat)
      ensures start == lo && end == hi && Shape() && Contents() == [] && refs == map[]
    {
      start, end := lo, hi;
      ranges, next, prev, head, refs, q := [], [], [], NULL, map[], [];
    }

    /** A new record, not in the list. */
    method Create(v: Range) returns (n: nat)
      requires Shape()
      modifies `ranges, `next, `prev
      ensures Shape() && Contents() == old(Contents()) && n == |old(ranges)| && n !in q && ranges == old(ranges) + [v]
    {
      Grown(next, prev, head, q);
      RecordsGrown(ranges, q, v);
      n := |ranges|;
      ranges, next, prev := ranges + [v], next + [NULL], prev + [NULL];
    }

    method Write(x: nat, v: Range, ghost k: nat)
      requires Shape() && k < |q| && q[k] == x
      modifies `ranges
      ensures Shape() && Contents() == old(Contents())[k := v] && ranges == old(ranges)[x := v]
    {
      RecordsWritten(ranges, q, k, v);
      ranges := ranges[x := v];
    }

    method LinkAfter(x: nat, n: nat, ghost k: nat)
      requires Shape() && k < |q| && q[k] == x && n < |ranges| && n !in q
      modifies `next, `prev, `q
      ensures Shape() && q == InsertAt(old(q), k + 1, n) && Contents() == InsertAt(old(Contents()), k + 1, ranges[n])
      ensures |q| == |old(q)| + 1 && q[k] == x && q[k + 1] == n && forall y :: y in q <==> y == n || y in old(q)
    {
      hide Linked, InsertAt;
      InsertedAt(q, k + 1, n);
      Neighbours(next, prev, head, q, k);
      assert q[k] in q && (k + 1 < |q| ==> q[k + 1] in q);
      if next[x] != NULL { prev := prev[next[x] := n]; }
      next := next[n := next[x]];
      prev := prev[n := x];
      next := next[x := n];
      Links.Insert(old(next), old(prev), head, q, k + 1, n, next, prev, head);
      RecordsInserted(ranges, q, k + 1, n);
      q := InsertAt(q, k + 1, n);
    }

    method LinkBefore(x: nat, n: nat, ghost k: nat)
      requires Shape() && k < |q| && q[k] == x && n < |ranges| && n !in q
      modifies `next, `prev, `head, `q
      ensures Shape() && q == InsertAt(old(q), k, n) && Contents() == InsertAt(old(Contents()), k, ranges[n])
      ensures |q| == |old(q)| + 1 && q[k] == n && q[k + 1] == x
    {
      hide Linked, InsertAt;
      InsertedAt(q, k, n);
      Neighbours(next, prev, head, q, k);
      assert q[k] in q && (k > 0 ==> q[k - 1] in q);
      HeadOnly(k);
      if prev[x] != NULL { next := next[prev[x] := n]; } else { head := n; }
      prev := prev[n := prev[x]];
      next := next[n := x];
      prev := prev[x := n];
      Links.Insert(old(next), old(prev), old(head), q, k, n, next, prev, head);
      RecordsInserted(ranges, q, k, n);
      q := InsertAt(q, k, n);
    }

    lemma {:induction false} HeadOnly(k: nat)
      requires Shape() && k < |q|
      ensures head == q[0] && (prev[q[k]] == NULL <==> k == 0) && (q[k] == head <==> k == 0)
    {
      assert k > 0 ==> q[0] != q[k];
    }

    /** The list part of vmm_destroyRange. */
    method Unlink(x: nat, ghost k: nat)
      requires Shape() && k < |q| && q[k] == x
      modifies `next, `prev, `head, `q
      ensures Shape() && q == RemoveAt(old(q), k) && Contents() == RemoveAt(old(Contents()), k)
    {
      hide Linked;
      Neighbours(next, prev, head, q, k);
      HeadOnly(k);
      if next[x] != NULL { prev := prev[next[x] := prev[x]]; }
      if prev[x] != NULL { next := next[prev[x] := next[x]]; }
      if x == head { head := next[x]; }
      Links.Remove(old(next), old(prev), old(head), q, k, next, prev, head);
      RecordsRemoved(ranges, q, k);
      q := RemoveAt(q, k);
    }

    method Hold(b: Backing)
      modifies `refs
      ensures forall n: nat :: RefsOf(refs, n) == RefsOf(old(refs), n) + IsOf(b, n)
    {
      if b.File? { refs := refs[b.node := RefsOf(refs, b.node) + 1]; }
    }

    method Release(b: Backing)
      modifies `refs
      ensures forall n: nat :: RefsOf(refs, n) == RefsOf(old(refs), n) - IsOf(b, n)
    {
      if b.File? { refs := refs[b.node := RefsOf(refs, b.node) - 1]; }
    }

    lemma {:induction false} Record(k: nat)
      requires Shape() && k < |q|
      ensures |Contents()| == |q| && q[k] < |ranges| && Contents()[k] == ranges[q[k]] && next[q[k]] == At(q, k + 1)
    {
    }

    lemma {:induction false} Here(k: nat)
      requires Shape() && k <= |q|
      ensures head == At(q, 0) && |Contents()| == |q| && (At(q, k) != NULL <==> k < |q|)
      ensures k < |q| ==> q[k] < |ranges| && ranges[q[k]] == Contents()[k]
    {
    }

    /** A range that reaches out of the request on both sides becomes three. */
    method SplitAround(x: nat, mmu: nat, req: Interval, ghost k: nat) returns (r: int)
      requires Shape() && k < |q| && q[k] == x && Around(ranges[x], req) && ranges[x].mmu != mmu
      modifies `ranges, `next, `prev, `q, `refs
      ensures Shape() && Contents() == Replaced(old(Contents()), k, Pieces(SetFlags(mmu), old(ranges[x]), req))
      ensures r == At(q, k + 3) && |q| == |old(q)| + 2
      ensures forall n: nat :: RefsOf(refs, n) == RefsOf(old(refs), n) + Taken(SetFlags(mmu), old(ranges[x]), req, n)
    {
      hide Linked, InsertAt, Records;
      Record(k);
      var was := ranges[x];
      var right := Create(From(was, req.end));
      var middle := Create(From(was, req.start).(end := req.end, mmu := mmu));
      Write(x, was.(end := req.start), k);
      LinkAfter(x, right, k);
      LinkAfter(x, middle, k);
      InsertedAt(InsertAt(old(q), k + 1, right), k + 1, middle);
      Split3(old(Contents()), k, was.(end := req.start), From(was, req.start).(end := req.end, mmu := mmu),
             From(was, req.end));
      Hold(was.backing);
      Hold(was.backing);
      Record(k + 2);
      r := next[right];
    }

    /** The request's start cuts a range: the new record runs to the request's end. */
    method CutLeft(x: nat, mmu: nat, req: Interval, ghost k: nat) returns (r: int)
      requires Shape() && k < |q| && q[k] == x && LeftCut(ranges[x], req) && ranges[x].mmu != mmu
      modifies `ranges, `next, `prev, `head, `q, `refs
      ensures Shape() && Contents() == Replaced(old(Contents()), k, Pieces(SetFlags(mmu), old(ranges[x]), req))
      ensures r == At(q, k + 2)
      ensures forall n: nat :: RefsOf(refs, n) == RefsOf(old(refs), n) + Taken(SetFlags(mmu), old(ranges[x]), req, n)
    {
      hide Linked, InsertAt, Records;
      Record(k);
      var was := ranges[x];
      var n := Create(From(was, req.start).(end := req.end, mmu := mmu));
      LinkAfter(x, n, k);
      Write(x, was.(end := req.start), k);
      Split2(old(Contents()), k, was.(end := req.start), ranges[n]);
      Hold(was.backing);
      Record(k + 1);
      r := next[n];
    }

    /** The request's end cuts a range: the new record goes in front of it. */
    method CutRight(x: nat, mmu: nat, req: Interval, ghost k: nat) returns (r: int)
      requires Shape() && k < |q| && q[k] == x && RightCut(ranges[x], req) && ranges[x].mmu != mmu
      modifies `ranges, `next, `prev, `head, `q, `refs
      ensures Shape() && Contents() == Replaced(old(Contents()), k, Pieces(SetFlags(mmu), old(ranges[x]), req))
      ensures r == At(q, k + 2)
      ensures forall n: nat :: RefsOf(refs, n) == RefsOf(old(refs), n) + Taken(SetFlags(mmu), old(ranges[x]), req, n)
    {
      hide Linked, InsertAt, Records;
      Record(k);
      var was := ranges[x];
      var n := Create(was.(end := req.end, mmu := mmu));
      LinkBefore(x, n, k);
      Write(x, From(was, req.end), k + 1);
      Split2Before(old(Contents()), k, ranges[n], From(was, req.end));
      Hold(was.backing);
      Record(k + 1);
      r := next[x];
    }

    /** Overwrite a record and move on. */
    method Change(x: nat, v: Range, ghost k: nat) returns (r: int)
      requires Shape() && k < |q| && q[k] == x
      modifies `ranges
      ensures Shape() && Contents() == Replaced(old(Contents()), k, [v]) && r == At(q, k + 1)
    {
      hide Linked, Records;
      Record(k);
      Write(x, v, k);
      assert old(Contents())[k := v] == Replaced(old(Contents()), k, [v]);
      r := next[x];
    }

    /** One round of the update when it changes flags. */
    method StepSet(x: nat, mmu: nat, req: Interval, ghost k: nat) returns (r: int)
      requires Shape() && k < |q| && q[k] == x && ranges[x].start < req.end
      modifies `ranges, `next, `prev, `head, `q, `refs
      ensures Shape() && Contents() == Replaced(old(Contents()), k, Pieces(SetFlags(mmu), old(ranges[x]), req))
      ensures r == At(q, k + |Pieces(SetFlags(mmu), old(ranges[x]), req)|)
      ensures forall n: nat :: RefsOf(refs, n) == RefsOf(old(refs), n) + Taken(SetFlags(mmu), old(ranges[x]), req, n)
    {
      hide Linked, Records, Replaced;
      Here(k);
      var was := ranges[x];
      if req.start <= was.start && was.end <= req.end {
        r := Change(x, was.(mmu := mmu), k);
      } else if was.start < req.start && req.end < was.end && was.mmu != mmu {
        r := SplitAround(x, mmu, req, k);
      } else if was.start < req.start && was.end > req.start && was.end <= req.end && was.mmu != mmu {
        r := CutLeft(x, mmu, req, k);
      } else if was.start >= req.start && was.start < req.end && was.end > req.end && was.mmu != mmu {
        r := CutRight(x, mmu, req, k);
      } else {
        r := Change(x, was, k);
      }
    }

    /** Free the middle of a range: the right part is a new record whose file nobody sets. */
    method FreeAround(x: nat, stale: Backing, req: Interval, ghost k: nat) returns (r: int)
      requires Shape() && k < |q| && q[k] == x && Around(ranges[x], req)
      modifies `ranges, `next, `prev, `head, `q, `refs
      ensures Shape() && Contents() == Replaced(old(Contents()), k, Pieces(Free(stale), old(ranges[x]), req))
      ensures r == At(q, k + 2)
      ensures forall n: nat :: RefsOf(refs, n) == RefsOf(old(refs), n) + Taken(Free(stale), old(ranges[x]), req, n)
    {
      hide Linked, InsertAt, Records;
      Record(k);
      var was := ranges[x];
      var n := Create(was.(start := req.end, backing := if was.backing.File? then stale else Anonymous));
      LinkAfter(x, n, k);
      Write(x, was.(end := req.start), k);
      Split2(old(Contents()), k, was.(end := req.start), ranges[n]);
      Record(k + 1);
      r := next[n];
    }

    /** Destroy a range inside the request. */
    method Destroy(x: nat, stale: Backing, req: Interval, ghost k: nat) returns (r: int)
      requires Shape() && k < |q| && q[k] == x && Inside(ranges[x], req)
      modifies `ranges, `next, `prev, `head, `q, `refs
      ensures Shape() && Contents() == Replaced(old(Contents()), k, Pieces(Free(stale), old(ranges[x]), req))
      ensures r == At(q, k + 0)
      ensures forall n: nat :: RefsOf(refs, n) == RefsOf(old(refs), n) + Taken(Free(stale), old(ranges[x]), req, n)
    {
      hide Linked, Records;
      Record(k);
      r := next[x];
      Unlink(x, k);
      RemovedAt(old(q), k);
      assert RemoveAt(old(Contents()), k) == Replaced(old(Contents()), k, []);
      Release(ranges[x].backing);
    }

    /** One round of the update when it frees. */
    method StepFree(x: nat, stale: Backing, req: Interval, ghost k: nat) returns (r: int)
      requires Shape() && k < |q| && q[k] == x && ranges[x].start < req.end
      modifies `ranges, `next, `prev, `head, `q, `refs
      ensures Shape() && Contents() == Replaced(old(Contents()), k, Pieces(Free(stale), old(ranges[x]), req))
      ensures r == At(q, k + |Pieces(Free(stale), old(ranges[x]), req)|)
      ensures forall n: nat :: RefsOf(refs, n) == RefsOf(old(refs), n) + Taken(Free(stale), old(ranges[x]), req, n)
    {
      hide Linked, Records, Replaced;
      Here(k);
      var was := ranges[x];
      if req.start <= was.start && was.end <= req.end {
        r := Destroy(x, stale, req, k);
      } else if was.start < req.start && req.end < was.end {
        r := FreeAround(x, stale, req, k);
      } else if was.start < req.start && was.end > req.start && was.end <= req.end {
        r := Change(x, was.(end := req.start), k);
      } else if was.start >= req.start && was.start < req.end && was.end > req.end {
        r := Change(x, was.(start := req.end), k);
      } else {
        r := Change(x, was, k);
      }
    }

    method Step(op: Op, x: nat, req: Interval, ghost k: nat) returns (r: int)
      requires Shape() && k < |q| && q[k] == x && ranges[x].start < req.end
      modifies `ranges, `next, `prev, `head, `q, `refs
      ensures Shape() && Contents() == Replaced(old(Contents()), k, Pieces(op, old(ranges[x]), req))
      ensures r == At(q, k + |Pieces(op, old(ranges[x]), req)|)
      ensures forall n: nat :: RefsOf(refs, n) == RefsOf(old(refs), n) + Taken(op, old(ranges[x]), req, n)
    {
      hide Linked, Records, Replaced, Pieces, Taken;
      match op {
        case SetFlags(mmu) => r := StepSet(x, mmu, req, k);
        case Free(stale) => r := StepFree(x, stale, req, k);
      }
    }

    /** __vmm_update. */
    method Update(op: Op, req: Interval)
      requires Shape()
      modifies `ranges, `next, `prev, `head, `q, `refs
      ensures Shape() && Contents() == VmSpec.Update(op, old(Contents()), req)
      ensures forall n: nat :: RefsOf(refs, n) == RefsOf(old(refs), n) + TakenOver(op, old(Contents()), req, n)
    {
      hide Linked, Records, Pieces, Taken, Replaced, Progress, TakenOver, VmSpec.Update;
      ghost var all, k, m := Contents(), 0, 0;
      var r := head;
      Here(0);
      Begun(op, all, refs, req);
      while r != NULL && ranges[r].start < req.end
        invariant Shape() && 0 <= k <= |q| && r == At(q, k) && |Contents()| == |q|
        invariant r != NULL ==> k < |q| && r < |ranges| && ranges[r] == Contents()[k]
        invariant Progress(op, Contents(), refs, all, old(refs), req, k, m)
        decreases |all| - m
      {
        Round(op, Contents(), refs, all, old(refs), req, k, m);
        ghost var n := |Pieces(op, ranges[r], req)|;
        ghost var before, held := Contents(), refs;
        r := Step(op, r, req, k);
        Rounded(op, before, held, refs, all, old(refs), req, k, m);
        k, m := k + n, m + 1;
        Here(0);
        Here(k);
      }
      Finished(op, Contents(), refs, all, old(refs), req, k, m);
    }

    /** vmm_unmap. */
    method Unmap(addr: nat, size: nat, stale: Backing)
      requires Shape() && addr % PAGE_SIZE == 0
      modifies `ranges, `next, `prev, `head, `q, `refs
      ensures Shape() && Contents() == VmSpec.Unmap(old(Contents()), Request(addr, addr + AlignUp(size)), stale)
      ensures forall n: nat :: RefsOf(refs, n) ==
                RefsOf(old(refs), n) + TakenByUnmap(old(Contents()), Request(addr, addr + AlignUp(size)), stale, n)
      ensures old(Valid()) ==> Valid()
    {
      hide Linked, Records, Pieces, Taken, Ok, Within, VmSpec.Update;
      var req: Interval := Request(addr, addr + AlignUp(size));
      Update(SetFlags(0), req);
      Update(Free(stale), req);
      if old(Valid()) {
        UnmapRight(old(Contents()), req, stale);
        UnmapIsEach(old(Contents()), req, stale);
        UnmapWithin(old(Contents()), req, stale, start, end);
      }
    }

    ghost predicate Valid()
      reads `ranges, `next, `prev, `head, `q
    {
      Shape() && Ok(Contents()) && Within(Contents(), start, end)
    }

    /** vmm_findFree: the lowest address that fits, or 0 if none does. */
    method FindFree(hint: nat, size: nat) returns (a: nat)
      requires Valid()
      ensures size == 0 ==> a == 0
      ensures size > 0 ==> var lo, n := AlignUp(if hint == 0 || hint < start then start else hint), AlignUp(size);
                           || (Fits(Contents(), lo, end, n, a) &&
                               forall b :: Fits(Contents(), lo, end, n, b) ==> a <= b)
                           || (a == 0 && forall b :: !Fits(Contents(), lo, end, n, b))
    {
      hide Linked, Records, AlignUp;
      if size == 0 { return 0; }
      var lo, n := AlignUp(if hint == 0 || hint < start then start else hint), AlignUp(size);
      ghost var rs, k := Contents(), 0;
      var cand, r := lo, head;
      Here(0);
      while r != NULL
        invariant 0 <= k <= |q| && r == At(q, k) && (r != NULL ==> k < |q| && q[k] < |ranges| && ranges[q[k]] == rs[k])
        invariant cand % PAGE_SIZE == 0 && lo <= cand && forall i :: 0 <= i < k ==> rs[i].end <= cand
        invariant forall b :: Fits(rs, lo, end, n, b) ==> cand <= b
        decreases |q| - k
      {
        if cand <= ranges[r].start && n <= ranges[r].start - cand {
          assert forall i :: k < i < |rs| ==> rs[k].start <= rs[k].end <= rs[i].start;
          return cand;
        }
        forall b | Fits(rs, lo, end, n, b) ensures rs[k].end <= b && AlignUp(rs[k].end) <= b {
          PassRange(rs, lo, end, n, k, cand, b);
        }
        if cand < ranges[r].end { cand := AlignUp(ranges[r].end); }
        Record(k);
        r, k := next[r], k + 1;
        Here(k);
      }
      if cand <= end && n <= end - cand { return cand; }
      return 0;
    }

    /** vmm_getRange: the range that holds a whole allocation. */
    method GetRange(addr: nat, size: nat) returns (r: int)
      requires Valid()
      ensures r != NULL ==>
                exists k :: 0 <= k < |q| && r == q[k] && Contents()[k].start <= addr && addr + size <= Contents()[k].end
      ensures r == NULL ==>
                forall k :: 0 <= k < |q| ==> !(Contents()[k].start <= addr && addr + size <= Contents()[k].end)
    {
      hide Linked, Records, Ok, Within;
      r := head;
      ghost var k := 0;
      Here(0);
      while r != NULL
        invariant 0 <= k <= |q| && r == At(q, k)
        invariant r != NULL ==> k < |q| && q[k] < |ranges| && ranges[q[k]] == Contents()[k]
        invariant forall i :: 0 <= i < k ==> !(Contents()[i].start <= addr && addr + size <= Contents()[i].end)
        decreases |q| - k
      {
        if ranges[r].start <= addr && addr + size <= ranges[r].end { return; }
        Record(k);
        r, k := next[r], k + 1;
        Here(k);
      }
    }

    // Rewriting a record outside the list.
    lemma {:induction false} AlignRecord(n: nat)
      requires Shape() && n < |ranges| && n !in q
      ensures Records(ranges[n := Aligned(ranges[n])], q) == Contents()
    {
      assert forall i :: 0 <= i < |q| ==> q[i] in q;
    }

    method LinkOnly(n: nat)
      requires Shape() && q == [] && n < |ranges|
      modifies `next, `prev, `head, `q
      ensures Shape() && q == [n] && Contents() == InsertAt([], 0, ranges[n])
    {
      head, q := n, [n];
      next, prev := next[n := NULL], prev[n := NULL];
    }

    /** vmm_insertRange on a record that is not in the list; `ok` is false where the kernel's assertions
        fail, which is where the range is empty, leaves the space or meets another range, and where it
        ends exactly at the start of the list's first range. */
    method InsertRange(n: nat) returns (ok: bool, ghost k: nat)
      requires Valid() && n < |ranges| && n !in q
      modifies `ranges, `next, `prev, `head, `q
      ensures var v := Aligned(old(ranges[n]));
              && ok == (v.start < v.end && start <= v.start && v.end <= end && Misses(old(Contents()), v) &&
                        (old(Contents()) == [] || v.end != old(Contents())[0].start))
              && (ok ==> Valid() && k <= |old(Contents())| && Contents() == InsertAt(old(Contents()), k, v))
      ensures !ok ==> Valid() && Contents() == old(Contents())
    {
      hide Linked, Records, InsertAt, AlignUp, AlignDown;
      ghost var rs := Contents();
      k := 0;
      AlignRecord(n);
      ranges := ranges[n := Aligned(ranges[n])];
      var v := ranges[n];
      Here(0);
      if !(v.end > v.start) || !(v.start >= start && v.end <= end) { return false, k; }
      if head == NULL {
        LinkOnly(n);
        InsertValid(rs, 0, v, start, end);
        return true, 0;
      }
      if v.end < ranges[head].start {
        InsertValid(rs, 0, v, start, end);
        LinkBefore(head, n, 0);
        return true, 0;
      }
      var r, found, j := FindGap(v);
      if !found && !(ranges[r].end <= v.start) { return false, k; }
      InsertValid(rs, j + 1, v, start, end);
      LinkAfter(r, n, j);
      k := j + 1;
      ok := true;
    }

    /** vmm_map without a fixed address: find room, insert a record there, take a reference on its file.
        A result of 0 means there is no room; `ok` is false where the insertion's assertion fails. */
    method Map(hint: nat, size: nat, kind: nat, mmu: nat, backing: Backing) returns (a: nat, ok: bool, ghost k: nat)
      requires Valid()
      modifies `ranges, `next, `prev, `head, `q, `refs
      ensures Valid() && (a == 0 ==> Contents() == old(Contents()) && refs == old(refs))
      ensures a != 0 ==> var lo, n := AlignUp(if hint == 0 || hint < start then start else hint), AlignUp(size);
                         && Fits(old(Contents()), lo, end, n, a)
                         && (forall b :: Fits(old(Contents()), lo, end, n, b) ==> a <= b)
                         && ok == (old(Contents()) == [] || a + n != old(Contents())[0].start)
                         && (ok ==> k <= |old(Contents())| &&
                                    Contents() == InsertAt(old(Contents()), k, Range(a, a + n, kind, mmu, backing)))
      ensures a != 0 && ok ==> forall n: nat :: RefsOf(refs, n) == RefsOf(old(refs), n) + IsOf(backing, n)
    {
      hide Linked, Records, InsertAt, AlignUp, AlignDown, Ok;
      ok, k := true, 0;
      a := FindFree(hint, size);
      if a == 0 { return; }
      var v := Range(a, a + AlignUp(size), kind, mmu, backing);
      AlreadyAligned(v);
      var n := Create(v);
      ok, k := InsertRange(n);
      if ok { Hold(backing); }
    }

    /** The record to insert behind: the first with room for `v` before its successor, or the last. */
    method FindGap(v: Range) returns (r: nat, found: bool, ghost k: nat)
      requires Shape() && q != []
      ensures k < |q| && r == q[k] && r < |ranges| && |Contents()| == |q| && ranges[r] == Contents()[k]
      ensures found ==> k + 1 < |q| && v.start >= Contents()[k].end && v.end <= Contents()[k + 1].start
      ensures !found ==> k + 1 == |q|
      ensures !found && Misses(Contents(), v) && Contents()[0].end <= v.start ==> Contents()[k].end <= v.start
    {
      hide Linked, Records;
      Here(0);
      Record(0);
      r, k := head, 0;
      while next[r] != NULL
        invariant 0 <= k < |q| && r == q[k] && r < |ranges| && ranges[r] == Contents()[k] && next[r] == At(q, k + 1)
        invariant Misses(Contents(), v) && Contents()[0].end <= v.start ==> Contents()[k].end <= v.start
        decreases |q| - k
      {
        Here(k + 1);
        if v.start >= ranges[r].end && v.end <= ranges[next[r]].start {
          return r, true, k;
        }
        r, k := next[r], k + 1;
        Record(k);
      }
      found := false;
    }
  }

  lemma {:induction false} InsertValid(rs: seq<Range>, k: nat, v: Range, lo: nat, hi: nat)
    requires Ok(rs) && Within(rs, lo, hi) && k <= |rs| && v.start < v.end && lo <= v.start && v.end <= hi
    requires (k > 0 ==> rs[k - 1].end <= v.start) && (k < |rs| ==> v.end <= rs[k].start)
    ensures Ok(InsertAt(rs, k, v)) && Within(InsertAt(rs, k, v), lo, hi) && Misses(rs, v)
    ensures k > 0 ==> rs[0].start < v.end
  {
    VmSpec.Inserted(rs, k, v);
    if k > 1 { assert rs[0].start <= rs[0].end <= rs[k - 1].start <= rs[k - 1].end; }
  }

  lemma {:induction false} AlreadyAligned(v: Range)
    requires v.start % PAGE_SIZE == 0
    ensures forall size :: v.end == v.start + AlignUp(size) ==> Aligned(v) == v
  {
  }

  function Aligned(v: Range): Range { v.(start := AlignDown(v.start), end := AlignUp(v.end)) }

  /** In a space that holds one range, inserting the range right below it fails the assertion although the
      two do not meet. */
  method AbuttingBelowFails() returns (first: bool, second: bool)
    ensures first && !second
  {
    hide Linked, Records, InsertAt, Aligned, Misses, Ok, Within;
    var space := new Space(0, 4 * PAGE_SIZE);
    var upper, lower := Range(PAGE_SIZE, 2 * PAGE_SIZE, 0, 0, Anonymous), Range(0, PAGE_SIZE, 0, 0, Anonymous);
    NothingThere(0, 4 * PAGE_SIZE, upper);
    WholePages(upper);
    WholePages(lower);
    var n := space.Create(upper);
    ghost var k;
    first, k := space.InsertRange(n);
    assert space.Contents() == InsertAt([], 0, upper);
    n := space.Create(lower);
    second, k := space.InsertRange(n);
  }

  lemma {:induction false} WholePages(v: Range)
    requires v.start % PAGE_SIZE == 0 && v.end % PAGE_SIZE == 0
    ensures Aligned(v) == v
  {
  }

  lemma {:induction false} NothingThere(lo: nat, hi: nat, v: Range)
    ensures Ok([]) && Within([], lo, hi) && Misses([], v) && InsertAt([], 0, v) == [v]
  {
  }

  /** An update under way: the list is final up to `k`, and from there on it is what it was from `m`. */
  ghost predicate Progress(op: Op, rs: seq<Range>, refs: map<nat, int>, all: seq<Range>, refs0: map<nat, int>,
                           req: Interval, k: nat, m: nat) {
    && k <= |rs| && m <= |all| && rs[k..] == all[m..]
    && rs[..k] + VmSpec.Update(op, all[m..], req) == VmSpec.Update(op, all, req)
    && forall n: nat ::
         RefsOf(refs, n) + TakenOver(op, all[m..], req, n) == RefsOf(refs0, n) + TakenOver(op, all, req, n)
  }

  lemma {:induction false} Begun(op: Op, all: seq<Range>, refs: map<nat, int>, req: Interval)
    ensures Progress(op, all, refs, all, refs, req, 0, 0)
  {
    assert all[0..] == all && all[..0] == [] && [] + VmSpec.Update(op, all, req) == VmSpec.Update(op, all, req);
  }

  lemma {:induction false} Finished(op: Op, rs: seq<Range>, refs: map<nat, int>, all: seq<Range>, refs0: map<nat,
                                    int>, req: Interval, k: nat, m: nat)
    requires Progress(op, rs, refs, all, refs0, req, k, m) && (k < |rs| ==> rs[k].start >= req.end)
    ensures rs == VmSpec.Update(op, all, req)
    ensures forall n: nat :: RefsOf(refs, n) == RefsOf(refs0, n) + TakenOver(op, all, req, n)
  {
    assert k < |rs| ==> rs[k] == rs[k..][0];
    assert rs == rs[..k] + rs[k..];
  }

  lemma {:induction false} Round(op: Op, rs: seq<Range>, refs: map<nat, int>, all: seq<Range>, refs0: map<nat, int>,
                                 req: Interval, k: nat, m: nat)
    requires Progress(op, rs, refs, all, refs0, req, k, m) && k < |rs|
    ensures m < |all| && rs[k] == all[m]
  {
    assert rs[k] == rs[k..][0] == all[m..][0];
  }

  /** What one round leaves to do. */
  lemma {:induction false} Rounded(op: Op, rs: seq<Range>, refs: map<nat, int>, refs': map<nat, int>, all: seq<Range>,
                                   refs0: map<nat, int>,
                                   req: Interval, k: nat, m: nat)
    requires Progress(op, rs, refs, all, refs0, req, k, m) && k < |rs| && rs[k].start < req.end
    requires forall n: nat :: RefsOf(refs', n) == RefsOf(refs, n) + Taken(op, rs[k], req, n)
    ensures m < |all|
    ensures var ps := Pieces(op, rs[k], req);
            && k + |ps| <= |Replaced(rs, k, ps)|
            && Progress(op, Replaced(rs, k, ps), refs', all, refs0, req, k + |ps|, m + 1)
  {
    hide Pieces, Taken, Replaced;
    Round(op, rs, refs, all, refs0, req, k, m);
    var ps := Pieces(op, rs[k], req);
    assert all[m..][1..] == all[m + 1..] && rs[k..][1..] == rs[k + 1..];
    ReplacedParts(rs, k, ps);
    Regroup(rs[..k], ps, VmSpec.Update(op, all[m + 1..], req));
    forall n: nat
      ensures RefsOf(refs', n) + TakenOver(op, all[m + 1..], req, n) == RefsOf(refs0, n) + TakenOver(op, all, req, n)
    {
      assert RefsOf(refs, n) + TakenOver(op, all[m..], req, n) == RefsOf(refs0, n) + TakenOver(op, all, req, n);
    }
  }

  lemma {:induction false} Regroup(a: seq<Range>, b: seq<Range>, c: seq<Range>)
    ensures a + (b + c) == a + b + c
  {
  }

  lemma {:induction false} ReplacedParts(rs: seq<Range>, k: nat, ps: seq<Range>)
    requires k < |rs|
    ensures |Replaced(rs, k, ps)| == |rs| - 1 + |ps|
    ensures Replaced(rs, k, ps)[..k + |ps|] == rs[..k] + ps && Replaced(rs, k, ps)[k + |ps|..] == rs[k + 1..]
  {
  }

  lemma {:induction false} Split2(rs: seq<Range>, k: nat, a: Range, b: Range)
    requires k < |rs|
    ensures InsertAt(rs, k + 1, b)[k := a] == Replaced(rs, k, [a, b])
  {
  }

  lemma {:induction false} Split2Before(rs: seq<Range>, k: nat, a: Range, b: Range)
    requires k < |rs|
    ensures InsertAt(rs, k, a)[k + 1 := b] == Replaced(rs, k, [a, b])
  {
  }

  lemma {:induction false} Split3(rs: seq<Range>, k: nat, a: Range, b: Range, c: Range)
    requires k < |rs|
    ensures InsertAt(InsertAt(rs[k := a], k + 1, c), k + 1, b) == Replaced(rs, k, [a, b, c])
  {
  }
}
