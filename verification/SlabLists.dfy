/** The slow path of the slab allocator as the kernel runs it under the cache's mutex: slabs on three
    doubly linked lists, moved in place. */
module SlabLists {
  import opened Common
  import opened Links
  import opened SlabProtocol

  const SLAB_MAX_FREE := 2

  // The lists by number.
  const PARTIAL := 0
  const FULL := 1
  const FREE := 2

  function Number(list: ListName): nat { match list case Partial => PARTIAL case Full => FULL case Free => FREE }

  function Name(l: nat): ListName { if l == PARTIAL then Partial else if l == FULL then Full else Free }

  // Links that agree on a list's slabs.
  ghost predicate SameOn(next: seq<int>, prev: seq<int>, next': seq<int>, prev': seq<int>, q: seq<nat>) {
    && |next'| >= |next| && |prev'| == |next'| && |prev| == |next|
    && forall x :: x in q && x < |next| ==> next'[x] == next[x] && prev'[x] == prev[x]
  }

  lemma {:induction false} Framed(next: seq<int>, prev: seq<int>, head: int, q: seq<nat>, next': seq<int>,
                                  prev': seq<int>)
    requires Linked(next, prev, head, q) && SameOn(next, prev, next', prev', q)
    ensures Linked(next', prev', head, q)
  {
    forall i | 0 <= i < |q| ensures q[i] < |next| && next'[q[i]] == At(q, i + 1) && prev'[q[i]] == At(q, i - 1) {
      Neighbours(next, prev, head, q, i);
      assert q[i] in q;
    }
  }

  // No slab is on two lists.
  ghost predicate Apart(qs: seq<seq<nat>>) {
    forall a, b, x :: 0 <= a < b < |qs| && x in qs[a] ==> x !in qs[b]
  }

  /** Three disjoint lists over one set of links. */
  ghost predicate Chains(next: seq<int>, prev: seq<int>, heads: seq<int>, qs: seq<seq<nat>>) {
    && |heads| == |qs| == 3 && Apart(qs)
    && forall l :: 0 <= l < 3 ==> Linked(next, prev, heads[l], qs[l])
  }

  // A slab's count is right and puts it on the list.
  ghost predicate Counted(cnt: nat, freeList: seq<seq<Obj>>, freeCnt: seq<nat>, l: nat, x: nat) {
    && x < |freeCnt| == |freeList| && |freeList[x]| == freeCnt[x] <= cnt && Number(ListFor(cnt, freeCnt[x])) == l
  }

  /** Each list holds exactly the slabs whose free count belongs on it, and the count is right. */
  ghost predicate Counts(cnt: nat, freeList: seq<seq<Obj>>, freeCnt: seq<nat>, qs: seq<seq<nat>>) {
    && |freeList| == |freeCnt| && |qs| == 3 && cnt > 0
    && forall l, x :: 0 <= l < 3 && x in qs[l] ==> Counted(cnt, freeList, freeCnt, l, x)
  }

  ghost function ListOf(qs: seq<seq<nat>>, x: nat): ListName
    requires |qs| == 3
  {
    if x in qs[PARTIAL] then Partial else if x in qs[FULL] then Full else Free
  }

  ghost predicate Mapped(qs: seq<seq<nat>>, x: nat) { |qs| == 3 && (x in qs[0] || x in qs[1] || x in qs[2]) }

  /** The mapped slabs, each with its freelist and the list it is on. */
  ghost function SlabsOf(freeList: seq<seq<Obj>>, qs: seq<seq<nat>>): map<nat, Slab>
    requires |qs| == 3
  {
    map x | 0 <= x < |freeList| && Mapped(qs, x) :: Slab(freeList[x], ListOf(qs, x))
  }

  class SlabCache {
    const cnt: nat
    const keepAll: bool                    // the cache of caches, whose slabs are never given back
    var next: seq<int>
    var prev: seq<int>
    var freeList: seq<seq<Obj>>            // top last
    var freeCnt: seq<nat>
    var heads: seq<int>
    ghost var qs: seq<seq<nat>>

    ghost predicate Valid()
      reads `next, `prev, `freeList, `freeCnt, `heads, `qs
    {
      |next| == |freeCnt| && Chains(next, prev, heads, qs) && Counts(cnt, freeList, freeCnt, qs)
    }

    ghost function Slabs(): map<nat, Slab>
      requires Counts(cnt, freeList, freeCnt, qs)
      reads `freeList, `freeCnt, `qs
    {
      SlabsOf(freeList, qs)
    }

    constructor (objects: nat, permanent: bool)
      requires objects > 0
      ensures Valid() && cnt == objects && keepAll == permanent && Slabs() == map[]
    {
      cnt, keepAll := objects, permanent;
      next, prev, freeList, freeCnt := [], [], [], [];
      heads, qs := [NULL, NULL, NULL], [[], [], []];
    }

    /** Take a slab out of the list it is on, but for the list's head. */
    method Detach(x: nat, ghost head: int, ghost q: seq<nat>, ghost k: nat)
      requires Linked(next, prev, head, q) && k < |q| && q[k] == x
      modifies `next, `prev
      ensures |next| == |prev| == |old(next)|
      ensures Linked(next, prev, if k == 0 then At(q, 1) else head, RemoveAt(q, k))
      ensures next[x] == old(next)[x] == At(q, k + 1)
      ensures forall y :: 0 <= y < |next| && y !in q ==> next[y] == old(next)[y] && prev[y] == old(prev)[y]
    {
      hide Linked, RemoveAt;
      Neighbours(next, prev, head, q, k);
      assert (k > 0 ==> q[k - 1] in q) && (k + 1 < |q| ==> q[k + 1] in q);
      if next[x] != NULL { prev := prev[next[x] := prev[x]]; }
      if prev[x] != NULL { next := next[prev[x] := next[x]]; }
      Links.Remove(old(next), old(prev), head, q, k, next, prev, if k == 0 then At(q, 1) else head);
    }

    /** Put a slab that is on no list in front of one. */
    method Prepend(x: nat, head: int, ghost q: seq<nat>)
      requires Linked(next, prev, head, q) && x < |next| && x !in q
      modifies `next, `prev
      ensures |next| == |prev| == |old(next)| && Linked(next, prev, x, [x] + q)
      ensures forall y :: 0 <= y < |next| && y !in q && y != x ==> next[y] == old(next)[y] && prev[y] == old(prev)[y]
    {
      Front(next, prev, head, q, x);
      prev := prev[x := NULL];
      next := next[x := head];
      if head != NULL { prev := prev[head := x]; }
    }

    /** Take a slab off the list it is on. */
    method TakeOut(x: nat, ghost from: nat, ghost k: nat)
      requires Chains(next, prev, heads, qs) && from < 3 && k < |qs[from]| && qs[from][k] == x
      modifies `next, `prev, `heads, `qs
      ensures Chains(next, prev, heads, qs) && |next| == |old(next)| && x < |next| && !Mapped(qs, x)
      ensures qs == old(qs)[from := RemoveAt(old(qs)[from], k)]
    {
      hide Linked, RemoveAt;
      OutFacts(next, prev, heads, qs, from, k);
      Detach(x, heads[from], qs[from], k);
      if x == heads[0] { heads := heads[0 := next[x]]; }
      if x == heads[1] { heads := heads[1 := next[x]]; }
      if x == heads[2] { heads := heads[2 := next[x]]; }
      OthersLinked(old(next), old(prev), old(heads), qs, from, next, prev);
      qs := qs[from := RemoveAt(qs[from], k)];
    }

    /** Put a slab that is on no list in front of the one it belongs to. */
    method PutIn(x: nat, to: nat)
      requires Chains(next, prev, heads, qs) && to < 3 && x < |next| && !Mapped(qs, x)
      modifies `next, `prev, `heads, `qs
      ensures Chains(next, prev, heads, qs) && |next| == |old(next)| && qs == old(qs)[to := [x] + old(qs)[to]]
    {
      hide Linked;
      ThreeLists(next, prev, heads, qs);
      assert forall l, y :: 0 <= l < 3 && l != to && y in qs[l] ==> y !in qs[to] && y != x;
      Prepend(x, heads[to], qs[to]);
      OthersLinked(old(next), old(prev), heads, qs, to, next, prev);
      heads := heads[to := x];
      qs := qs[to := [x] + qs[to]];
    }

    /** Move a slab from whatever list it is on to the front of another. */
    method Move(x: nat, to: nat, ghost from: nat, ghost k: nat)
      requires Chains(next, prev, heads, qs) && from < 3 && to < 3 && from != to && k < |qs[from]| && qs[from][k] == x
      modifies `next, `prev, `heads, `qs
      ensures Chains(next, prev, heads, qs) && |next| == |old(next)|
      ensures qs == old(qs)[from := RemoveAt(old(qs)[from], k)][to := [x] + old(qs)[to]]
    {
      hide Chains, RemoveAt, Mapped;
      ThreeLists(next, prev, heads, qs);
      TakeOut(x, from, k);
      PutIn(x, to);
    }

    /** slab_new: link every object of fresh pages into the freelist. */
    method SlabNew() returns (x: nat)
      requires Valid()
      modifies `next, `prev, `freeList, `freeCnt
      ensures Valid() && x == |old(next)| && |next| == |prev| == x + 1 && !Mapped(qs, x) && x !in Slabs()
      ensures Slabs() == old(Slabs())
      ensures freeList[x] == NewSlab(x, cnt).free && freeCnt[x] == cnt && next[x] == prev[x] == NULL
    {
      hide Linked;
      x := |next|;
      var objects := [];
      for i := 0 to cnt
        invariant objects == NewSlab(x, cnt).free[..i]
      {
        objects := objects + [Obj(x, i)];
      }
      assert NewSlab(x, cnt).free[..cnt] == NewSlab(x, cnt).free;
      AddUnmapped(next, prev, heads, cnt, freeList, freeCnt, qs, objects);
      next, prev, freeList, freeCnt := next + [NULL], prev + [NULL], freeList + [objects], freeCnt + [cnt];
    }

    /** Take the top object of the slab at the head of a list and put the slab where it now belongs. */
    method TakeTop(x: nat) returns (o: Obj)
      requires Valid() && (x == heads[PARTIAL] || (heads[PARTIAL] == NULL && x == heads[FREE]))
      modifies `next, `prev, `freeList, `freeCnt, `heads, `qs
      ensures Valid() && x in old(Slabs()) && old(Slabs())[x].free != [] && o == Top(old(Slabs())[x].free)
      ensures Slabs() == old(Slabs())[x := Taken(cnt, old(Slabs())[x])]
    {
      hide Chains, Counts, SlabsOf;
      HeadOf(next, prev, heads, cnt, freeList, freeCnt, qs, PARTIAL);
      HeadOf(next, prev, heads, cnt, freeList, freeCnt, qs, FREE);
      ghost var from := if heads[PARTIAL] != NULL then PARTIAL else FREE;
      ghost var was := freeList[x];
      o := Top(freeList[x]);
      freeList := freeList[x := Below(freeList[x])];
      freeCnt := freeCnt[x := freeCnt[x] - 1];
      if freeCnt[x] == 0 {
        Move(x, FULL, from, 0);
        Recount(cnt, old(freeList), old(freeCnt), old(qs), x, Below(was), from, FULL, 0);
      } else if freeCnt[x] == cnt - 1 {
        Move(x, PARTIAL, FREE, 0);
        Recount(cnt, old(freeList), old(freeCnt), old(qs), x, Below(was), FREE, PARTIAL, 0);
      } else {
        Restock(cnt, old(freeList), old(freeCnt), old(qs), x, Below(was), from);
      }
    }

    /** slab_slowAllocate; `memory` says whether fresh pages can be had.  Only a cache without a partial
        or free slab maps a new one. */
    method SlowAllocate(memory: bool) returns (r: Option<Obj>, ghost k: nat)
      requires Valid()
      modifies `next, `prev, `freeList, `freeCnt, `heads, `qs
      ensures Valid()
      ensures r.None? ==> !memory && Slabs() == old(Slabs()) && forall x :: x in Slabs() ==> Slabs()[x].list == Full
      ensures r.Some? ==> var was := if k in old(Slabs()) then old(Slabs()) else old(Slabs())[k := NewSlab(k, cnt)];
                          && was[k].free != [] && r.value == Top(was[k].free) && Slabs() == was[k := Taken(cnt, was[k])]
                          && (forall x :: x in old(Slabs()) && old(Slabs())[x].list == Partial ==>
                                was[k].list == Partial)
                          && (k !in old(Slabs()) ==>
                                memory && forall x :: x in old(Slabs()) ==> old(Slabs())[x].list == Full)
      ensures r.Some? && k in old(Slabs()) ==>
                var free := old(Slabs())[k].free;
                k in Slabs() && free != [] && r.value == free[|free| - 1] && Slabs()[k].free == free[..|free| - 1]
      ensures r.Some? && k !in old(Slabs()) ==>
                && k in Slabs() && r.value == Obj(k, cnt - 1) && |Slabs()[k].free| == cnt - 1
                && forall i :: 0 <= i < cnt - 1 ==> Slabs()[k].free[i] == Obj(k, i)
      ensures forall x :: x in Slabs() ==> ListByCount(Slabs()[x], cnt)
    {
      hide Chains, Counts, SlabsOf;
      HeadOf(next, prev, heads, cnt, freeList, freeCnt, qs, PARTIAL);
      HeadOf(next, prev, heads, cnt, freeList, freeCnt, qs, FREE);
      NoneOn(cnt, freeList, freeCnt, qs);
      RightLists(cnt, freeList, freeCnt, qs);
      k := 0;
      var x := heads[PARTIAL];
      if x == NULL { x := heads[FREE]; }
      if x == NULL {
        if !memory { return None, k; }
        x := SlabNew();
        FirstFree(next, prev, heads, cnt, freeList, freeCnt, qs, x);
        heads, qs := heads[FREE := x], qs[FREE := [x]];
      }
      k := x;
      var o := TakeTop(x);
      r := Some(o);
      RightLists(cnt, freeList, freeCnt, qs);
    }

    /** How many slabs are free. */
    method CountFree() returns (n: nat)
      requires Valid()
      ensures |qs| == 3 && n == |qs[FREE]|
    {
      hide Counts;
      n := 0;
      var s := heads[FREE];
      FreeChain(next, prev, heads, qs);
      while s != NULL
        invariant n <= |qs[FREE]| && s == At(qs[FREE], n)
        decreases |qs[FREE]| - n
      {
        Neighbours(next, prev, heads[FREE], qs[FREE], n);
        n := n + 1;
        s := next[s];
      }
    }

    /** The last slab of the free list. */
    method LastFree() returns (last: nat)
      requires Valid() && qs[FREE] != []
      ensures |qs| == 3 && last == qs[FREE][|qs[FREE]| - 1]
    {
      hide Counts;
      FreeChain(next, prev, heads, qs);
      last := heads[FREE];
      ghost var k := 0;
      Neighbours(next, prev, heads[FREE], qs[FREE], k);
      while next[last] != NULL
        invariant 0 <= k < |qs[FREE]| && last == qs[FREE][k] && last < |next| && next[last] == At(qs[FREE], k + 1)
        decreases |qs[FREE]| - k
      {
        last, k := next[last], k + 1;
        Neighbours(next, prev, heads[FREE], qs[FREE], k);
      }
    }

    /** Cut the last slab off the free list and unmap it. */
    method DropLast()
      requires Valid() && qs[FREE] != []
      modifies `next, `prev, `heads, `qs
      ensures Valid() && |qs| == 3 && qs == old(qs)[FREE := Below(old(qs)[FREE])]
      ensures Slabs() == old(Slabs()) - {Top(old(qs)[FREE])}
    {
      hide Chains, Counts, SlabsOf;
      var last := LastFree();
      CutLast(next, prev, heads, cnt, freeList, freeCnt, qs);
      if prev[last] != NULL {
        next := next[prev[last] := NULL];
      } else {
        heads := heads[FREE := NULL];
      }
      prev, next := prev[last := NULL], next[last := NULL];
      qs := qs[FREE := Below(qs[FREE])];
    }

    /** Unmap free slabs from the tail until at most two are left. */
    method Trim()
      requires Valid()
      modifies `next, `prev, `heads, `qs
      ensures Valid() && Kept(old(qs), qs)
      ensures |qs[FREE]| == if |old(qs)[FREE]| <= SLAB_MAX_FREE then |old(qs)[FREE]| else SLAB_MAX_FREE
      ensures Slabs() == old(Slabs()) - Victims(old(qs), qs)
    {
      hide Chains, Counts, SlabsOf, Kept, Victims;
      var n := CountFree();
      NoVictims(qs);
      ghost var before := Slabs();
      assert before - Victims(qs, qs) == before;
      while n > SLAB_MAX_FREE
        invariant Valid() && |qs| == 3 && n == |qs[FREE]| && Kept(old(qs), qs)
        invariant n == |old(qs)[FREE]| || SLAB_MAX_FREE <= n <= |old(qs)[FREE]|
        invariant Slabs() == before - Victims(old(qs), qs)
      {
        MoreVictims(old(qs), qs);
        DropLast();
        n := n - 1;
      }
    }

    /** Put an object back on its slab and the slab where it now belongs. */
    method PutObject(o: Obj)
      requires Valid() && o.slab in Slabs() && |Slabs()[o.slab].free| < cnt
      modifies `next, `prev, `freeList, `freeCnt, `heads, `qs
      ensures Valid() && Slabs() == old(Slabs())[o.slab := Returned(cnt, old(Slabs())[o.slab], o)]
      ensures o.slab < |freeCnt| && freeCnt[o.slab] == |Returned(cnt, old(Slabs())[o.slab], o).free|
      ensures |qs| == 3 && (freeCnt[o.slab] == cnt ==> qs[FREE] != [] && qs[FREE][0] == o.slab)
    {
      hide Chains, Counts, SlabsOf;
      var x := o.slab;
      ghost var from, k := Whereabouts(next, prev, heads, cnt, freeList, freeCnt, qs, x);
      ghost var was := freeList[x];
      freeList := freeList[x := freeList[x] + [o]];
      freeCnt := freeCnt[x := freeCnt[x] + 1];
      if freeCnt[x] == cnt {
        Move(x, FREE, from, k);
        Recount(cnt, old(freeList), old(freeCnt), old(qs), x, was + [o], from, FREE, k);
      } else if freeCnt[x] == 1 {
        Move(x, PARTIAL, from, k);
        Recount(cnt, old(freeList), old(freeCnt), old(qs), x, was + [o], from, PARTIAL, k);
      } else {
        Restock(cnt, old(freeList), old(freeCnt), old(qs), x, was + [o], from);
      }
    }

    /** slab_freeSlow: the object's slab takes it back; when that makes the slab whole, excess free slabs
        are unmapped, oldest first, except in the cache of caches. */
    method FreeSlow(o: Obj) returns (ghost victims: set<nat>)
      requires Valid() && o.slab in Slabs() && |Slabs()[o.slab].free| < cnt
      modifies `next, `prev, `freeList, `freeCnt, `heads, `qs
      ensures Valid()
      ensures var now := old(Slabs())[o.slab := Returned(cnt, old(Slabs())[o.slab], o)];
              && Slabs() == now - victims && o.slab !in victims
              && (forall x :: x in victims ==> x in now && now[x].list == Free)
              && (keepAll || |now[o.slab].free| < cnt ==> victims == {})
              && (!keepAll && |now[o.slab].free| == cnt ==> |qs| == 3 && |qs[FREE]| <= 2)
              && (victims != {} ==> |qs| == 3 && |qs[FREE]| == 2)
      ensures o.slab in Slabs() && Slabs()[o.slab].free == old(Slabs()[o.slab].free) + [o]
      ensures forall x :: x in Slabs() ==> ListByCount(Slabs()[x], cnt)
    {
      hide Chains, Counts, SlabsOf, Victims;
      victims := {};
      PutObject(o);
      ghost var now := Slabs();
      assert now - {} == now;
      if freeCnt[o.slab] == cnt && !keepAll {
        ghost var mid := qs;
        AllFree(next, prev, heads, cnt, freeList, freeCnt, qs);
        Trim();
        Survivor(mid, qs);
        victims := Victims(mid, qs);
        FewVictims(mid, qs);
      }
      RightLists(cnt, freeList, freeCnt, qs);
    }
  }

  // A slab is on the list that its number of free objects, out of `cnt`, belongs on.
  predicate ListByCount(slab: Slab, cnt: nat) {
    && (slab.list == Full <==> slab.free == [])
    && (slab.list == Free <==> |slab.free| == cnt)
    && (slab.list == Partial <==> 0 < |slab.free| < cnt)
  }

  lemma {:induction false} RightLists(cnt: nat, freeList: seq<seq<Obj>>, freeCnt: seq<nat>, qs: seq<seq<nat>>)
    requires Counts(cnt, freeList, freeCnt, qs)
    ensures forall x :: x in SlabsOf(freeList, qs) ==> ListByCount(SlabsOf(freeList, qs)[x], cnt)
  {
    forall x | x in SlabsOf(freeList, qs) ensures ListByCount(SlabsOf(freeList, qs)[x], cnt) {
      var l := if x in qs[0] then 0 else if x in qs[1] then 1 else 2;
      assert Counted(cnt, freeList, freeCnt, l, x);
    }
  }

  lemma {:induction false} FewVictims(qs: seq<seq<nat>>, qs': seq<seq<nat>>)
    requires Kept(qs, qs')
    ensures |qs'[FREE]| == |qs[FREE]| ==> Victims(qs, qs') == {}
  {
  }

  // Where a mapped slab is.
  lemma {:induction false} Whereabouts(next: seq<int>, prev: seq<int>, heads: seq<int>, cnt: nat,
                                       freeList: seq<seq<Obj>>, freeCnt: seq<nat>,
                                       qs: seq<seq<nat>>, x: nat) returns (l: nat, k: nat)
    requires Chains(next, prev, heads, qs) && Counts(cnt, freeList, freeCnt, qs) && x in SlabsOf(freeList, qs)
    ensures |freeList| == |freeCnt| && |qs| == 3 && Apart(qs) && x < |freeList| && |freeList[x]| == freeCnt[x] <= cnt
    ensures SlabsOf(freeList, qs)[x] == Slab(freeList[x], Name(l)) && l < 3 && Number(ListFor(cnt, freeCnt[x])) == l
    ensures k < |qs[l]| && qs[l][k] == x && x in qs[l] && forall i :: 0 <= i < |qs[l]| && i != k ==> qs[l][i] != x
  {
    l := if x in qs[0] then 0 else if x in qs[1] then 1 else 2;
    k :| 0 <= k < |qs[l]| && qs[l][k] == x;
    assert Linked(next, prev, heads[l], qs[l]);
    ListsAre(cnt, freeList, freeCnt, qs, l, x);
  }

  lemma {:induction false} AllFree(next: seq<int>, prev: seq<int>, heads: seq<int>, cnt: nat, freeList: seq<seq<Obj>>,
                                   freeCnt: seq<nat>,
                                   qs: seq<seq<nat>>)
    requires Chains(next, prev, heads, qs) && Counts(cnt, freeList, freeCnt, qs)
    ensures forall x :: x in qs[FREE] ==> x in SlabsOf(freeList, qs) && SlabsOf(freeList, qs)[x].list == Free
    ensures Distinct(qs[FREE])
  {
    assert Linked(next, prev, heads[FREE], qs[FREE]);
    forall x | x in qs[FREE] ensures x in SlabsOf(freeList, qs) && SlabsOf(freeList, qs)[x].list == Free {
      ListsAre(cnt, freeList, freeCnt, qs, FREE, x);
    }
  }

  // The front of the free list stays if at least one slab does.
  lemma {:induction false} Survivor(qs: seq<seq<nat>>, qs': seq<seq<nat>>)
    requires Kept(qs, qs') && qs[FREE] != [] && Distinct(qs[FREE]) && qs'[FREE] != []
    ensures qs[FREE][0] !in Victims(qs, qs') && forall x :: x in Victims(qs, qs') ==> x in qs[FREE]
  {
  }

  /** The free list lost a tail, of which `Victims` are the slabs; the other lists are as they were. */
  ghost predicate Kept(qs: seq<seq<nat>>, qs': seq<seq<nat>>) {
    |qs| == |qs'| == 3 && qs'[PARTIAL] == qs[PARTIAL] && qs'[FULL] == qs[FULL] && qs'[FREE] <= qs[FREE]
  }

  ghost function Victims(qs: seq<seq<nat>>, qs': seq<seq<nat>>): set<nat>
    requires Kept(qs, qs')
  {
    set x | x in qs[FREE][|qs'[FREE]|..]
  }

  lemma {:induction false} NoVictims(qs: seq<seq<nat>>)
    requires |qs| == 3
    ensures Kept(qs, qs) && Victims(qs, qs) == {}
  {
  }

  lemma {:induction false} MoreVictims(qs: seq<seq<nat>>, qs': seq<seq<nat>>)
    requires Kept(qs, qs') && qs'[FREE] != []
    ensures var qs'' := qs'[FREE := Below(qs'[FREE])];
            Kept(qs, qs'') && Victims(qs, qs'') == Victims(qs, qs') + {Top(qs'[FREE])}
  {
    var n := |qs'[FREE]|;
    assert qs[FREE][n - 1..] == [Top(qs'[FREE])] + qs[FREE][n..];
  }

  lemma {:induction false} FreeChain(next: seq<int>, prev: seq<int>, heads: seq<int>, qs: seq<seq<nat>>)
    requires Chains(next, prev, heads, qs)
    ensures |heads| == |qs| == 3 && Linked(next, prev, heads[FREE], qs[FREE]) && heads[FREE] == At(qs[FREE], 0)
    ensures |prev| == |next|
  {
  }

  lemma {:induction false} CutLast(next: seq<int>, prev: seq<int>, heads: seq<int>, cnt: nat, freeList: seq<seq<Obj>>,
                                   freeCnt: seq<nat>,
                                   qs: seq<seq<nat>>)
    requires Chains(next, prev, heads, qs) && Counts(cnt, freeList, freeCnt, qs) && qs[FREE] != []
    ensures var q := qs[FREE];
            var last, qs' := Top(q), qs[FREE := Below(q)];
            && |heads| == 3 && |prev| == |next| && last < |next| && (prev[last] != NULL ==> 0 <= prev[last] < |next|)
            && Counts(cnt, freeList, freeCnt, qs') && SlabsOf(freeList, qs') == SlabsOf(freeList, qs) - {last}
            && var next0 := if prev[last] != NULL then next[prev[last] := NULL] else next;
               Chains(next0[last := NULL], prev[last := NULL],
                      if prev[last] != NULL then heads else heads[FREE := NULL], qs')
  {
    hide Linked;
    var q := qs[FREE];
    FreeChain(next, prev, heads, qs);
    CutCounts(next, prev, heads, cnt, freeList, freeCnt, qs);
    CutChain(next, prev, heads[FREE], q);
    var last := Top(q);
    var next0 := if prev[last] != NULL then next[prev[last] := NULL] else next;
    var next', prev' := next0[last := NULL], prev[last := NULL];
    forall l | 0 <= l < 2 ensures Linked(next', prev', heads[l], qs[l]) {
      assert last in q && (|q| > 1 ==> q[|q| - 2] in q);
      Framed(next, prev, heads[l], qs[l], next', prev');
    }
  }

  lemma {:induction false} CutChain(next: seq<int>, prev: seq<int>, head: int, q: seq<nat>)
    requires Linked(next, prev, head, q) && q != []
    ensures var last := Top(q);
            && |prev| == |next| && last < |next| && prev[last] == At(q, |q| - 2)
            && (prev[last] != NULL ==> 0 <= prev[last] < |next|) && last !in Below(q)
            && var next0 := if prev[last] != NULL then next[prev[last] := NULL] else next;
               Linked(next0[last := NULL], prev[last := NULL], if prev[last] != NULL then head else NULL, Below(q))
  {
    var k, last := |q| - 1, Top(q);
    Neighbours(next, prev, head, q, k);
    var next0 := if prev[last] != NULL then next[prev[last] := NULL] else next;
    Links.Remove(next, prev, head, q, k, next0, prev, if prev[last] != NULL then head else NULL);
    assert RemoveAt(q, k) == Below(q);
    Framed(next0, prev, if prev[last] != NULL then head else NULL, Below(q), next0[last := NULL], prev[last := NULL]);
  }

  lemma {:induction false} CutCounts(next: seq<int>, prev: seq<int>, heads: seq<int>, cnt: nat,
                                     freeList: seq<seq<Obj>>, freeCnt: seq<nat>,
                                     qs: seq<seq<nat>>)
    requires Chains(next, prev, heads, qs) && Counts(cnt, freeList, freeCnt, qs) && qs[FREE] != []
    ensures var qs' := qs[FREE := Below(qs[FREE])];
            && Apart(qs') && Counts(cnt, freeList, freeCnt, qs')
            && SlabsOf(freeList, qs') == SlabsOf(freeList, qs) - {Top(qs[FREE])}
  {
    var q := qs[FREE];
    var qs' := qs[FREE := Below(q)];
    assert Linked(next, prev, heads[FREE], q);
    hide Linked, Chains;
    assert q == Below(q) + [Top(q)] && Top(q) !in Below(q);
    assert Top(q) in qs[FREE];
    forall l, y | 0 <= l < 3 ensures y in qs'[l] <==> y in qs[l] && (l != FREE || y != Top(q)) {}
    forall l, y | 0 <= l < 3 && y in qs'[l] ensures Counted(cnt, freeList, freeCnt, l, y) {
      assert y in qs[l];
    }
    assert Top(q) !in qs[0] && Top(q) !in qs[1];
    assert forall y :: Mapped(qs', y) <==> Mapped(qs, y) && y != Top(q);
  }

  lemma {:induction false} NoneOn(cnt: nat, freeList: seq<seq<Obj>>, freeCnt: seq<nat>, qs: seq<seq<nat>>)
    requires Counts(cnt, freeList, freeCnt, qs)
    ensures qs[PARTIAL] == [] ==> forall x :: x in SlabsOf(freeList, qs) ==> SlabsOf(freeList, qs)[x].list != Partial
    ensures qs[PARTIAL] == [] && qs[FREE] == [] ==>
              forall x :: x in SlabsOf(freeList, qs) ==> SlabsOf(freeList, qs)[x].list == Full
  {
  }

  // A new slab becomes the only free one.
  lemma {:induction false} FirstFree(next: seq<int>, prev: seq<int>, heads: seq<int>, cnt: nat,
                                     freeList: seq<seq<Obj>>, freeCnt: seq<nat>,
                                     qs: seq<seq<nat>>, x: nat)
    requires Chains(next, prev, heads, qs) && Counts(cnt, freeList, freeCnt, qs) && |next| == |freeCnt|
    requires qs[FREE] == []
    requires x < |next| && !Mapped(qs, x) && next[x] == NULL && |prev| == |next| && prev[x] == NULL
    requires |freeList[x]| == freeCnt[x] == cnt
    ensures Chains(next, prev, heads[FREE := x], qs[FREE := [x]]) && Counts(cnt, freeList, freeCnt, qs[FREE := [x]])
    ensures SlabsOf(freeList, qs[FREE := [x]]) == SlabsOf(freeList, qs)[x := Slab(freeList[x], Free)]
  {
    var qs' := qs[FREE := [x]];
    forall l, y | 0 <= l < 3 ensures y in qs'[l] <==> y in qs[l] || (l == FREE && y == x) {}
    forall l, y | 0 <= l < 3 && y in qs'[l] ensures Counted(cnt, freeList, freeCnt, l, y) {
      assert y != x ==> y in qs[l];
    }
    assert forall y :: Mapped(qs', y) <==> y == x || Mapped(qs, y);
  }

  // A slab changes its freelist and moves to the list that dictates.
  lemma {:induction false} Recount(cnt: nat, freeList: seq<seq<Obj>>, freeCnt: seq<nat>, qs: seq<seq<nat>>, x: nat,
                                   v: seq<Obj>,
                                   from: nat, to: nat, k: nat)
    requires Counts(cnt, freeList, freeCnt, qs) && Apart(qs) && from < 3 && to < 3 && from != to && k < |qs[from]|
    requires qs[from][k] == x
    requires |v| <= cnt && Number(ListFor(cnt, |v|)) == to && x < |freeList|
    requires forall i :: 0 <= i < |qs[from]| && i != k ==> qs[from][i] != x
    ensures var qs' := qs[from := RemoveAt(qs[from], k)][to := [x] + qs[to]];
            && Counts(cnt, freeList[x := v], freeCnt[x := |v|], qs')
            && SlabsOf(freeList[x := v], qs') == SlabsOf(freeList, qs)[x := Slab(v, Name(to))]
  {
    var q := qs[from];
    var qs' := qs[from := RemoveAt(q, k)][to := [x] + qs[to]];
    RemovedAt(q, k);
    Without(q, k);
    forall l, y | 0 <= l < 3 ensures y in qs'[l] <==> if y == x then l == to else y in qs[l] {
      assert x in qs[from];
    }
    forall l, y | 0 <= l < 3 && y in qs'[l] ensures Counted(cnt, freeList[x := v], freeCnt[x := |v|], l, y) {
      assert y != x ==> y in qs[l] && Counted(cnt, freeList, freeCnt, l, y);
    }
    assert forall y :: Mapped(qs', y) <==> Mapped(qs, y);
  }

  lemma {:induction false} Without(q: seq<nat>, k: nat)
    requires k < |q| && forall i :: 0 <= i < |q| && i != k ==> q[i] != q[k]
    ensures forall y :: y in RemoveAt(q, k) <==> y in q && y != q[k]
  {
    RemovedAt(q, k);
    forall y ensures y in RemoveAt(q, k) <==> y in q && y != q[k] {
      if y in q && y != q[k] {
        var i :| 0 <= i < |q| && q[i] == y;
        assert RemoveAt(q, k)[if i < k then i else i - 1] == y;
      }
    }
  }

  // A slab changes its freelist and stays on its list.
  lemma {:induction false} Restock(cnt: nat, freeList: seq<seq<Obj>>, freeCnt: seq<nat>, qs: seq<seq<nat>>, x: nat,
                                   v: seq<Obj>, l: nat)
    requires Counts(cnt, freeList, freeCnt, qs) && Apart(qs) && l < 3 && x in qs[l] && |v| <= cnt
    requires Number(ListFor(cnt, |v|)) == l
    ensures x < |freeList| && Counts(cnt, freeList[x := v], freeCnt[x := |v|], qs)
    ensures SlabsOf(freeList[x := v], qs) == SlabsOf(freeList, qs)[x := Slab(v, Name(l))]
  {
    ListsAre(cnt, freeList, freeCnt, qs, l, x);
    forall l', y | 0 <= l' < 3 && y in qs[l'] ensures Counted(cnt, freeList[x := v], freeCnt[x := |v|], l', y) {
      assert Counted(cnt, freeList, freeCnt, l', y);
      assert y == x ==> l' == l;
    }
  }

  lemma {:induction false} HeadOf(next: seq<int>, prev: seq<int>, heads: seq<int>, cnt: nat, freeList: seq<seq<Obj>>,
                                  freeCnt: seq<nat>,
                                  qs: seq<seq<nat>>, l: nat)
    requires Chains(next, prev, heads, qs) && Counts(cnt, freeList, freeCnt, qs) && l < 3
    ensures |heads| == |qs| == 3 && |freeList| == |freeCnt| && Apart(qs) && (heads[l] == NULL <==> qs[l] == [])
    ensures qs[l] != [] ==> && heads[l] == qs[l][0] && qs[l][0] in qs[l] && qs[l][0] < |freeList|
                            && (forall i :: 0 < i < |qs[l]| ==> qs[l][i] != qs[l][0])
                            && |freeList[qs[l][0]]| == freeCnt[qs[l][0]] <= cnt
                            && Number(ListFor(cnt, freeCnt[qs[l][0]])) == l
                            && qs[l][0] in SlabsOf(freeList, qs)
                            && SlabsOf(freeList, qs)[qs[l][0]] == Slab(freeList[qs[l][0]], Name(l))
  {
    assert Linked(next, prev, heads[l], qs[l]);
    if qs[l] != [] { ListsAre(cnt, freeList, freeCnt, qs, l, qs[l][0]); }
  }

  lemma {:induction false} AddUnmapped(next: seq<int>, prev: seq<int>, heads: seq<int>, cnt: nat,
                                       freeList: seq<seq<Obj>>, freeCnt: seq<nat>,
                                       qs: seq<seq<nat>>, objects: seq<Obj>)
    requires Chains(next, prev, heads, qs) && Counts(cnt, freeList, freeCnt, qs) && |next| == |freeCnt|
    ensures Chains(next + [NULL], prev + [NULL], heads, qs) && !Mapped(qs, |next|) && |prev| == |next|
    ensures Counts(cnt, freeList + [objects], freeCnt + [cnt], qs)
    ensures SlabsOf(freeList + [objects], qs) == SlabsOf(freeList, qs)
  {
    forall l | 0 <= l < 3 ensures Linked(next + [NULL], prev + [NULL], heads[l], qs[l]) {
      Grown(next, prev, heads[l], qs[l]);
    }
    forall l, y | 0 <= l < 3 && y in qs[l] ensures Counted(cnt, freeList + [objects], freeCnt + [cnt], l, y) {
      assert Counted(cnt, freeList, freeCnt, l, y);
    }
  }

  lemma {:induction false} ThreeLists(next: seq<int>, prev: seq<int>, heads: seq<int>, qs: seq<seq<nat>>)
    requires Chains(next, prev, heads, qs)
    ensures |qs| == 3 && |prev| == |next|
  {
    assert Linked(next, prev, heads[0], qs[0]);
  }

  // A change of links outside the other lists keeps those linked.
  lemma {:induction false} OthersLinked(next: seq<int>, prev: seq<int>, heads: seq<int>, qs: seq<seq<nat>>, from: nat,
                                        next': seq<int>, prev': seq<int>)
    requires Chains(next, prev, heads, qs) && from < 3 && |next'| == |prev'| == |next| == |prev|
    requires forall l, y :: 0 <= l < 3 && l != from && y in qs[l] && y < |next| ==>
               next'[y] == next[y] && prev'[y] == prev[y]
    ensures forall l :: 0 <= l < 3 && l != from ==> Linked(next', prev', heads[l], qs[l])
  {
    hide Linked;
    forall l | 0 <= l < 3 && l != from ensures Linked(next', prev', heads[l], qs[l]) {
      Framed(next, prev, heads[l], qs[l], next', prev');
    }
  }

  lemma {:induction false} OutFacts(next: seq<int>, prev: seq<int>, heads: seq<int>, qs: seq<seq<nat>>,
                                    from: nat, k: nat)
    requires Chains(next, prev, heads, qs) && from < 3 && k < |qs[from]|
    ensures |prev| == |next| && qs[from][k] < |next| && heads[from] == qs[from][0]
    ensures forall l :: 0 <= l < 3 ==> (heads[l] == qs[from][k] <==> l == from && k == 0)
    ensures At(qs[from], k + 1) != qs[from][k]
    ensures forall x, l :: 0 <= l < 3 && l != from && x in qs[l] ==> x !in qs[from]
    ensures forall x :: x in RemoveAt(qs[from], k) <==> x in qs[from] && x != qs[from][k]
  {
    var q, x := qs[from], qs[from][k];
    assert Linked(next, prev, heads[from], q);
    RemovedAt(q, k);
    forall y ensures y in RemoveAt(q, k) <==> y in q && y != x {
      if y in q && y != x {
        var i :| 0 <= i < |q| && q[i] == y;
        assert RemoveAt(q, k)[if i < k then i else i - 1] == y;
      }
    }
    assert k > 0 ==> q[0] != q[k];
    assert x in q;
  }

  lemma {:induction false} Front(next: seq<int>, prev: seq<int>, head: int, q: seq<nat>, x: nat)
    requires Linked(next, prev, head, q) && x < |next| && x !in q
    ensures |prev| == |next| && (head == NULL <==> q == [])
    ensures head != NULL ==> head == q[0] && 0 <= head < |next| && head in q
    ensures var prev0 := prev[x := NULL];
            Linked(next[x := head], if head == NULL then prev0 else prev0[head := x], x, [x] + q)
  {
    var prev0 := prev[x := NULL];
    var next', prev' := next[x := head], if head == NULL then prev0 else prev0[head := x];
    assert q != [] ==> q[0] in q;
    Links.Insert(next, prev, head, q, 0, x, next', prev', x);
    assert InsertAt(q, 0, x) == [x] + q;
  }

  lemma {:induction false} ListsAre(cnt: nat, freeList: seq<seq<Obj>>, freeCnt: seq<nat>, qs: seq<seq<nat>>, l: nat,
                                    x: nat)
    requires Counts(cnt, freeList, freeCnt, qs) && l < 3 && x in qs[l]
    ensures x < |freeList| && |freeList[x]| == freeCnt[x] <= cnt && Name(l) == ListOf(qs, x) == ListFor(cnt, freeCnt[x])
    ensures x in SlabsOf(freeList, qs) && SlabsOf(freeList, qs)[x] == Slab(freeList[x], Name(l))
  {
    assert Counted(cnt, freeList, freeCnt, l, x);
    forall l' | 0 <= l' < 3 && x in qs[l'] ensures l' == l {
      assert Counted(cnt, freeList, freeCnt, l', x);
    }
  }
}
