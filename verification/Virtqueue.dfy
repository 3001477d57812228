/** Ring positions: free-running 16-bit indices, reduced modulo the queue size. */
module RingIndex {

  const INDEX_RANGE: nat := 0x1_0000

  /** The slot of the n-th entry ever written: the 16-bit index, modulo the size. */
  function Slot(n: nat, size: nat): (k: nat)
    requires size > 0
    ensures k < size
  {
    n % INDEX_RANGE % size
  }

  // Any `size` consecutive entries lie in different slots.
  ghost predicate SlotsDistinct(size: nat)
    requires size > 0
  {
    forall a: nat, b: nat :: a < b < a + size ==> Slot(a, size) != Slot(b, size)
  }

  lemma {:induction false} MultipleAtLeast(k: int, d: int)
    requires k >= 1 && d > 0
    ensures k * d >= d
  {
    if k > 1 {
      MultipleAtLeast(k - 1, d);
      assert k * d == (k - 1) * d + d;
    }
  }

  // A multiple of d strictly between -d and d is zero.
  lemma {:induction false} SmallMultiple(k: int, d: int)
    requires d > 0 && -d < k * d < d
    ensures k == 0
  {
    if k >= 1 { MultipleAtLeast(k, d); }
    if k <= -1 { MultipleAtLeast(-k, d); }
  }

  lemma {:induction false} ModUnique(x: int, d: int, q: int, r: int)
    requires d > 0 && 0 <= r < d && x == q * d + r
    ensures x / d == q && x % d == r
  {
    var k := x / d - q;
    assert k * d == (x / d) * d - q * d;
    SmallMultiple(k, d);
  }

  /** When the size divides 2^16 the wrap-around does not show. */
  lemma {:induction false} SlotIsMod(n: nat, size: nat)
    requires size > 0 && INDEX_RANGE % size == 0
    ensures Slot(n, size) == n % size
  {
    var a, r := n / INDEX_RANGE, n % INDEX_RANGE;
    var q, q', r' := INDEX_RANGE / size, r / size, r % size;
    assert INDEX_RANGE == q * size;
    assert n == a * INDEX_RANGE + r && r == q' * size + r';
    assert a * (q * size) == (a * q) * size;
    assert n == (a * q + q') * size + r' by { assert (a * q + q') * size == (a * q) * size + q' * size; }
    ModUnique(n, size, a * q + q', r');
  }

  lemma {:induction false} ModDistinct(a: nat, b: nat, size: nat)
    requires a < b < a + size
    ensures a % size != b % size
  {
    var k := b / size - a / size;
    if a % size == b % size {
      assert k * size == (b / size) * size - (a / size) * size == b - a;
      SmallMultiple(k, size);
    }
  }

  /** Slots of outstanding entries never collide exactly when the size divides 2^16. */
  lemma {:induction false} SlotsDistinctIffDivides(size: nat)
    requires 0 < size < INDEX_RANGE
    ensures SlotsDistinct(size) <==> INDEX_RANGE % size == 0
  {
    if INDEX_RANGE % size == 0 {
      forall a: nat, b: nat | a < b < a + size ensures Slot(a, size) != Slot(b, size) {
        SlotIsMod(a, size);
        SlotIsMod(b, size);
        ModDistinct(a, b, size);
      }
    } else {
      var r, q := INDEX_RANGE % size, INDEX_RANGE / size;
      var a := INDEX_RANGE - r;
      assert INDEX_RANGE == q * size + r;
      ModUnique(a, size, q, 0);
      ModUnique(0, size, 0, 0);
      assert Slot(a, size) == 0 && Slot(INDEX_RANGE, size) == 0;
      assert a < INDEX_RANGE < a + size;
    }
  }

  /** A ring of three slots, which section 2.7 of VIRTIO 1.2 forbids: entry 65535 and the one after it, whose
      index has wrapped to 0, share slot 0. */
  lemma {:induction false} RingOfThreeCollides()
    ensures Slot(65535, 3) == Slot(65536, 3) && !SlotsDistinct(3)
  {
    SlotsDistinctIffDivides(3);
  }

  /** `ring` holds `items` in the slots from entry number `base` on. */
  predicate RingHolds(ring: seq<nat>, base: nat, items: seq<nat>) {
    0 < |ring| && |items| <= |ring| && forall j :: 0 <= j < |items| ==> ring[Slot(base + j, |ring|)] == items[j]
  }

  /** Writing the next entry overwrites none that is still pending. */
  lemma {:induction false} RingAppend(ring: seq<nat>, base: nat, items: seq<nat>, x: nat)
    requires RingHolds(ring, base, items) && |items| < |ring| < INDEX_RANGE && INDEX_RANGE % |ring| == 0
    ensures RingHolds(ring[Slot(base + |items|, |ring|) := x], base, items + [x])
  {
    SlotsDistinctIffDivides(|ring|);
  }

  lemma {:induction false} RingDrop(ring: seq<nat>, base: nat, items: seq<nat>)
    requires RingHolds(ring, base, items) && items != []
    ensures RingHolds(ring, base + 1, items[1..]) && ring[Slot(base, |ring|)] == items[0]
  {
    forall j | 0 <= j < |items| - 1 ensures ring[Slot(base + 1 + j, |ring|)] == items[1..][j] {
      assert ring[Slot(base + (j + 1), |ring|)] == items[j + 1];
    }
    assert base + 0 == base;
  }

  /** A 16-bit increment. */
  lemma {:induction false} IndexStep(n: nat)
    ensures (n % INDEX_RANGE + 1) % INDEX_RANGE == (n + 1) % INDEX_RANGE
  {
  }

  /** Two 16-bit counters are equal only when nothing lies between them. */
  lemma {:induction false} IndicesMeet(n: nat, pending: nat)
    requires pending < INDEX_RANGE
    ensures n % INDEX_RANGE == (n + pending) % INDEX_RANGE <==> pending == 0
  {
  }
}

/** The driver side of `hexahedron/drivers/virtio.c` on its descriptor table and rings,
together with a device that consumes available heads in order and returns each of
them once, in any order it likes. */
module Virtqueue {
  import opened Common
  import opened VirtqueueSpec
  import opened RingIndex

  const NONE: nat := 0xFFFF  // end of the free list

  const F_NEXT: bv16 := 1
  const F_WRITE: bv16 := 2

  datatype Desc = Desc(addr: nat, len: nat, flags: bv16, next: nat)

  datatype Result = Success | NoSpace

  // ---------- lists threaded through the table ----------

  predicate InTable(descs: seq<Desc>, ds: seq<nat>) { forall i :: 0 <= i < |ds| ==> ds[i] < |descs| }

  /** The free list starts at `first`, follows `next` and ends in 0xFFFF. */
  ghost predicate FreeLinked(descs: seq<Desc>, first: nat, free: seq<nat>) {
    && InTable(descs, free)
    && first == (if free == [] then NONE else free[0])
    && (forall i, j :: 0 <= i < j < |free| && j == i + 1 ==> descs[free[i]].next == free[j])
    && (free != [] ==> descs[free[|free| - 1]].next == NONE)
  }

  /** A chain follows `next` while F_NEXT is set, and its descriptors carry the buffers. */
  ghost predicate ChainLinked(descs: seq<Desc>, c: Chain) {
    && InTable(descs, c.ds) && |c.bufs| == |c.ds|
    && (forall i :: 0 <= i < |c.ds| ==> Carries(descs[c.ds[i]], c.bufs[i], i < |c.ds| - 1))
    && (forall i, j :: 0 <= i < j < |c.ds| && j == i + 1 ==> descs[c.ds[i]].next == c.ds[j])
  }

  predicate Carries(d: Desc, b: Buffer, more: bool) {
    d.addr == b.addr && d.len == b.len && d.flags == (if b.write then F_WRITE else 0) | (if more then F_NEXT else 0)
  }

  lemma {:induction false} CarriesFlag(d: Desc, b: Buffer, more: bool)
    requires Carries(d, b, more)
    ensures (d.flags & F_NEXT != 0) == more
  {
  }

  /** What a device finds that starts at descriptor `d` and follows the links: exactly these buffers, with bit
      1 of the flags set on those it may write and bit 0 on all but the last. */
  predicate Found(descs: seq<Desc>, d: nat, bufs: seq<Buffer>)
    decreases |bufs|
  {
    && bufs != [] && d < |descs| && descs[d].addr == bufs[0].addr && descs[d].len == bufs[0].len
    && (descs[d].flags & 2 != 0) == bufs[0].write && (descs[d].flags & 1 != 0) == (|bufs| > 1)
    && (|bufs| > 1 ==> Found(descs, descs[d].next, bufs[1..]))
  }

  lemma {:induction false} CarriesBits(d: Desc, b: Buffer, more: bool)
    requires Carries(d, b, more)
    ensures d.addr == b.addr && d.len == b.len && (d.flags & 2 != 0) == b.write && (d.flags & 1 != 0) == more
  {
  }

  lemma {:induction false} ChainFound(descs: seq<Desc>, c: Chain, i: nat)
    requires ChainLinked(descs, c) && i < |c.ds|
    ensures Found(descs, c.ds[i], c.bufs[i..])
    decreases |c.ds| - i
  {
    hide Carries;
    CarriesBits(descs[c.ds[i]], c.bufs[i], i < |c.ds| - 1);
    if i + 1 < |c.ds| {
      assert descs[c.ds[i]].next == c.ds[i + 1] && c.bufs[i..][1..] == c.bufs[i + 1..];
      ChainFound(descs, c, i + 1);
    }
  }

  /** Filling the front of the free list leaves its rest a free list, and makes the front a chain. */
  lemma {:induction false} SplitFree(before: seq<Desc>, after: seq<Desc>, first: nat, free: seq<nat>,
                                     bufs: seq<Buffer>, serial: nat)
    requires FreeLinked(before, first, free) && 0 < |bufs| <= |free| && |after| == |before|
    requires forall d :: 0 <= d < |after| ==> after[d].next == before[d].next
    requires forall i :: 0 <= i < |bufs| ==> Carries(after[free[i]], bufs[i], i < |bufs| - 1)
    ensures FreeLinked(after, if |bufs| < |free| then free[|bufs|] else NONE, free[|bufs|..])
    ensures ChainLinked(after, Chain(free[..|bufs|], bufs, serial))
  {
    var n := |bufs|;
    forall i, j | 0 <= i < j < |free[n..]| && j == i + 1 ensures after[free[n..][i]].next == free[n..][j] {
      assert before[free[n + i]].next == free[n + j];
    }
  }

  /** Chains elsewhere in the table do not notice. */
  lemma {:induction false} ChainKept(before: seq<Desc>, after: seq<Desc>, c: Chain)
    requires ChainLinked(before, c) && |after| == |before|
    requires forall d :: d in c.ds && d < |after| ==> after[d] == before[d]
    ensures ChainLinked(after, c)
  {
    assert forall i :: 0 <= i < |c.ds| ==> c.ds[i] in c.ds;
  }

  /** Linking a chain's last descriptor to the free list makes both one free list. */
  lemma {:induction false} JoinFree(before: seq<Desc>, after: seq<Desc>, first: nat, free: seq<nat>, c: Chain)
    requires FreeLinked(before, first, free) && ChainLinked(before, c) && c.ds != []
    requires Distinct(c.ds) && forall d :: d in c.ds ==> d !in free
    requires after == before[c.ds[|c.ds| - 1] := before[c.ds[|c.ds| - 1]].(next := first)]
    ensures FreeLinked(after, c.ds[0], c.ds + free)
  {
    var all, n := c.ds + free, |c.ds|;
    var last := c.ds[n - 1];
    assert last in c.ds;
    forall i, j | 0 <= i < j < |all| && j == i + 1 ensures after[all[i]].next == all[j] {
      if j < n {
        assert c.ds[i] != last;
      } else if j > n {
        assert free[i - n] in free;
        assert before[free[i - n]].next == free[j - n];
      }
    }
    if free != [] { assert free[|free| - 1] in free; }
  }

  lemma {:induction false} ChainsAvoidFree(m: Model)
    requires Inv(m)
    ensures Distinct(m.free) && forall h, d :: h in m.chains && d in m.chains[h].ds ==> d !in m.free
  {
  }

  /** A chain shares no descriptor with the free list or another chain. */
  lemma {:induction false} ChainsApart(m: Model, head: nat)
    requires Inv(m) && head in m.chains
    ensures m.chains[head].ds != [] && m.chains[head].ds[0] == head && Distinct(m.chains[head].ds)
    ensures forall d :: d in m.chains[head].ds ==> d !in m.free
    ensures forall h, d :: h in m.chains && h != head && d in m.chains[h].ds ==> d !in m.chains[head].ds
  {
  }

  // ---------- the queue ----------

  class Queue {
    const size: nat
    const desc: array<Desc>
    const tokens: array<Ptr>
    const availRing: array<nat>
    const usedRing: array<nat>
    var availIdx: nat   // avail->idx, written by the driver
    var usedIdx: nat    // used->idx, written by the device
    var firstFree: nat
    var nfree: nat
    var lastUsed: nat
    var deviceIdx: nat  // the device's own position in the available ring
    ghost var m: Model
    ghost var log: seq<Event>  // what driver and device did so far

    ghost predicate Shape() {
      && 0 < size < INDEX_RANGE && INDEX_RANGE % size == 0
      && desc.Length == size && tokens.Length == size && availRing.Length == size && usedRing.Length == size
      && tokens != availRing && tokens != usedRing && availRing != usedRing
      && desc as object != tokens && desc as object != availRing && desc as object != usedRing
    }

    // The descriptor table against a model.
    ghost predicate TableFor(w: Model)
      reads this`nfree, this`firstFree, desc
    {
      && nfree == |w.free| && FreeLinked(desc[..], firstFree, w.free)
      && forall h :: h in w.chains ==> ChainLinked(desc[..], w.chains[h])
    }

    // The tokens of the requests in flight.
    ghost predicate TokensFor(w: Model)
      reads tokens
    {
      forall h :: h in w.chains ==>
        h < tokens.Length && w.chains[h].serial < |w.tokens| && tokens[h] == w.tokens[w.chains[h].serial]
    }

    // The available ring and the two indices into it.
    ghost predicate AvailFor(w: Model)
      reads this`availIdx, this`deviceIdx, availRing
    {
      && |w.avail| <= |w.tokens|
      && availIdx == |w.tokens| % INDEX_RANGE
      && deviceIdx == (|w.tokens| - |w.avail|) % INDEX_RANGE
      && RingHolds(availRing[..], |w.tokens| - |w.avail|, w.avail)
    }

    // The used ring and the two indices into it.
    ghost predicate UsedFor(w: Model)
      reads this`usedIdx, this`lastUsed, usedRing
    {
      && usedIdx == (|w.popped| + |w.used|) % INDEX_RANGE
      && lastUsed == |w.popped| % INDEX_RANGE
      && RingHolds(usedRing[..], |w.popped|, w.used)
    }

    ghost predicate Valid()
      reads this, desc, tokens, availRing, usedRing
    {
      && Shape() && Inv(m) && |m.owner| == size
      && TableFor(m) && TokensFor(m) && AvailFor(m) && UsedFor(m) && Reaches(m, size, log)
    }

    /** virtqueue_setup, descriptor list part: every descriptor linked to the next.  The size is any 16-bit
        number but 0; the rings are sound exactly when it divides 65536, as the powers of two that section 2.7
        of VIRTIO 1.2 allows do. */
    constructor (n: nat)
      requires 0 < n < INDEX_RANGE
      ensures size == n && nfree == n && m == Initial(n) && log == []
      ensures TableFor(m) && (Valid() <==> INDEX_RANGE % n == 0)
      ensures fresh(desc) && fresh(tokens) && fresh(availRing) && fresh(usedRing)
    {
      size := n;
      desc := new Desc[n](_ => Desc(0, 0, 0, 0));
      tokens := new Ptr[n](_ => 0);
      availRing := new nat[n](_ => 0);
      usedRing := new nat[n](_ => 0);
      availIdx, usedIdx, firstFree, nfree, lastUsed, deviceIdx := 0, 0, 0, n, 0, 0;
      m, log := Initial(n), [];
      new;
      LinkAll();
      InitialInv(n);
      assert InTable(desc[..], m.free);
    }

    method LinkAll()
      requires 0 < size == desc.Length
      modifies desc
      ensures FreeLinked(desc[..], 0, Initial(size).free)
    {
      for i := 0 to size - 1
        invariant forall k :: 0 <= k < i ==> desc[k].next == k + 1
      {
        desc[i] := desc[i].(next := i + 1);
      }
      desc[size - 1] := desc[size - 1].(next := NONE);
    }

    /** Put a buffer into a descriptor, keeping its link. */
    method WriteDesc(idx: nat, buf: Buffer, more: bool) returns (next: nat)
      requires idx < desc.Length
      modifies desc
      ensures next == old(desc[idx].next) && Carries(desc[idx], buf, more) && desc[idx].next == next
      ensures desc[..] == old(desc[..])[idx := desc[idx]]
    {
      desc[idx] := Desc(buf.addr, buf.len, if buf.write then F_WRITE else 0, desc[idx].next);
      if more {
        desc[idx] := desc[idx].(flags := desc[idx].flags | F_NEXT);
      }
      next := desc[idx].next;
    }

    /** Fill the first descriptors of the free list with the buffers, following `next`. */
    method Fill(bufs: seq<Buffer>) returns (idx: nat)
      requires FreeLinked(desc[..], firstFree, m.free) && Distinct(m.free) && 0 < |bufs| <= |m.free|
      modifies desc
      ensures idx == if |bufs| < |m.free| then m.free[|bufs|] else NONE
      ensures forall d :: 0 <= d < desc.Length ==> desc[d].next == old(desc[d].next)
      ensures forall d :: 0 <= d < desc.Length && d !in m.free[..|bufs|] ==> desc[d] == old(desc[d])
      ensures forall i :: 0 <= i < |bufs| ==> Carries(desc[m.free[i]], bufs[i], i < |bufs| - 1)
    {
      hide Carries;
      idx := firstFree;
      var lastIdx := idx;
      for i := 0 to |bufs|
        invariant idx == if i < |m.free| then m.free[i] else NONE
        invariant forall d :: 0 <= d < desc.Length ==> desc[d].next == old(desc[d].next)
        invariant forall d :: 0 <= d < desc.Length && d !in m.free[..i] ==> desc[d] == old(desc[d])
        invariant forall k :: 0 <= k < i ==> Carries(desc[m.free[k]], bufs[k], k < |bufs| - 1)
        invariant i > 0 ==> lastIdx == m.free[i - 1]
      {
        lastIdx := idx;
        assert m.free[..i + 1] == m.free[..i] + [idx];
        idx := WriteDesc(idx, bufs[i], i < |bufs| - 1);
      }
      EndChain(lastIdx, bufs[|bufs| - 1]);
    }

    /** Clear F_NEXT on the last descriptor of a chain, where it is clear already. */
    method EndChain(idx: nat, ghost buf: Buffer)
      requires idx < desc.Length && Carries(desc[idx], buf, false)
      modifies desc
      ensures desc[..] == old(desc[..])
    {
      desc[idx] := desc[idx].(flags := desc[idx].flags & !F_NEXT);
    }

    /** Store the next entry of a ring. */
    static method WriteRing(ring: array<nat>, slot: nat, ghost base: nat, ghost items: seq<nat>, x: nat)
      requires RingHolds(ring[..], base, items) && |items| < ring.Length < INDEX_RANGE && INDEX_RANGE % ring.Length == 0
      requires slot == Slot(base + |items|, ring.Length)
      modifies ring
      ensures RingHolds(ring[..], base, items + [x]) && ring[..] == old(ring[..])[slot := x]
    {
      RingAppend(ring[..], base, items, x);
      ring[slot] := x;
      assert ring[..] == old(ring[..])[slot := x];
    }

    /** Turn the front of the free list into the chain of a new request. */
    method TakeFront(bufs: seq<Buffer>, ghost token: Ptr)
      requires Shape() && Inv(m) && |m.owner| == size && TableFor(m) && 0 < |bufs| <= |m.free|
      modifies this`firstFree, this`nfree, desc
      ensures TableFor(Pushed(m, bufs, token))
    {
      hide Inv, Carries;
      ChainsAvoidFree(m);
      ghost var before, first := desc[..], firstFree;
      var idx := Fill(bufs);
      firstFree := idx;
      nfree := nfree - |bufs|;
      SplitFree(before, desc[..], first, m.free, bufs, |m.tokens|);
      forall h | h in m.chains && h != m.free[0] ensures ChainLinked(desc[..], m.chains[h]) {
        assert forall d :: d in m.free[..|bufs|] ==> d in m.free;
        ChainKept(before, desc[..], m.chains[h]);
      }
    }

    /** Write the head into the next slot of the available ring, then advance the index. */
    method Publish(head: nat, ghost bufs: seq<Buffer>, ghost token: Ptr)
      requires Shape() && Inv(m) && |m.owner| == size && AvailFor(m) && 0 < |bufs| <= |m.free| && head == m.free[0]
      modifies this`availIdx, availRing
      ensures AvailFor(Pushed(m, bufs, token)) && availIdx == (old(availIdx) + 1) % 0x1_0000
      ensures availRing[..] == old(availRing[..])[old(availIdx) % size := head]
    {
      RingHasRoom(m);
      var slot := availIdx % size;
      WriteRing(availRing, slot, |m.tokens| - |m.avail|, m.avail, head);
      IndexStep(|m.tokens|);
      availIdx := (availIdx + 1) % INDEX_RANGE;
    }

    /** virtqueue_push: -ENOSPC without a change, or the request is queued on the first free descriptors, where
        the device finds exactly its buffers, its token is kept, and its head is published. */
    method Push(bufs: seq<Buffer>, token: Ptr) returns (r: Result)
      requires Valid()
      modifies this, desc, tokens, availRing
      ensures Valid()
      ensures r == NoSpace <==> bufs == [] || |bufs| > old(nfree)
      ensures r == NoSpace ==> m == old(m) && log == old(log) && nfree == old(nfree)
      ensures r == Success ==>
                && log == old(log) + [Event.Push(bufs, token)] && m == Pushed(old(m), bufs, token)
                && nfree == old(nfree) - |bufs| && Found(desc[..], old(firstFree), bufs)
                && old(firstFree) < size && tokens[..] == old(tokens[..])[old(firstFree) := token]
                && availIdx == (old(availIdx) + 1) % 0x1_0000
                && availRing[..] == old(availRing[..])[old(availIdx) % size := old(firstFree)]
    {
      hide Inv, TableFor, TokensFor, AvailFor, UsedFor, Leads;
      FreeCount(m);
      if nfree < |bufs| || |bufs| == 0 { return NoSpace; }
      PushInv(m, bufs, token);
      var head := firstFree;
      TakeFront(bufs, token);
      StoreToken(head, bufs, token);
      Publish(head, bufs, token);
      ghost var e := Event.Push(bufs, token);
      LeadsSnoc(Initial(size), log, m, e);
      UsedAlike(m, Pushed(m, bufs, token));
      m, log := Pushed(m, bufs, token), log + [e];
      HeadFound(head);
      FreeCount(m);
      return Success;
    }

    // Models that agree on what a predicate looks at.
    lemma {:induction false} UsedAlike(w: Model, w': Model)
      requires UsedFor(w) && w'.used == w.used && w'.popped == w.popped
      ensures UsedFor(w')
    {
    }

    lemma {:induction false} AvailAlike(w: Model, w': Model)
      requires AvailFor(w) && w'.avail == w.avail && w'.tokens == w.tokens
      ensures AvailFor(w')
    {
    }

    lemma {:induction false} TableAlike(w: Model, w': Model)
      requires TableFor(w) && TokensFor(w) && w'.free == w.free && w'.chains == w.chains && w'.tokens == w.tokens
      ensures TableFor(w') && TokensFor(w')
    {
    }

    lemma {:induction false} FreeCount(w: Model)
      requires TableFor(w)
      ensures nfree == |w.free| && (w.free != [] ==> firstFree == w.free[0] < desc.Length)
    {
    }

    // What the device finds under the head of a chain.
    lemma {:induction false} HeadFound(head: nat)
      requires Inv(m) && TableFor(m) && head in m.chains
      ensures Found(desc[..], head, m.chains[head].bufs)
    {
      ChainsApart(m, head);
      ChainFound(desc[..], m.chains[head], 0);
      assert m.chains[head].bufs[0..] == m.chains[head].bufs;
    }

    method StoreToken(head: nat, ghost bufs: seq<Buffer>, token: Ptr)
      requires Shape() && Inv(m) && |m.owner| == size && TokensFor(m) && 0 < |bufs| <= |m.free| && head == m.free[0]
      modifies tokens
      ensures TokensFor(Pushed(m, bufs, token)) && head < tokens.Length
      ensures tokens[..] == old(tokens[..])[head := token]
    {
      PushDescriptors(m, bufs, token);
      assert head in m.free;
      tokens[head] := token;
    }

    /** The loop of virtqueue_pop: walk the chain, counting, and link its end to the free list. */
    method WalkChain(head: nat, ghost c: Chain)
      requires ChainLinked(desc[..], c) && c.ds != [] && head == c.ds[0]
      modifies this`nfree, desc
      ensures nfree == old(nfree) + |c.ds|
      ensures var last := c.ds[|c.ds| - 1];
              desc[..] == old(desc[..])[last := old(desc[..])[last].(next := firstFree)]
    {
      ghost var j := 0;
      var idx := head;
      while true
        invariant 0 <= j < |c.ds| && idx == c.ds[j]
        invariant nfree == old(nfree) + j && desc[..] == old(desc[..])
        decreases |c.ds| - j
      {
        nfree := nfree + 1;
        CarriesFlag(desc[..][idx], c.bufs[j], j < |c.ds| - 1);
        if desc[idx].flags & F_NEXT == 0 {
          desc[idx] := desc[idx].(next := firstFree);
          break;
        }
        assert desc[..][c.ds[j]].next == c.ds[j + 1];
        idx := desc[idx].next;
        j := j + 1;
      }
    }

    /** Return the descriptors of the oldest used head to the front of the free list. */
    method GiveBack(head: nat)
      requires Shape() && Inv(m) && |m.owner| == size && TableFor(m) && m.used != [] && head == m.used[0]
      modifies this`nfree, this`firstFree, desc
      ensures head in m.chains && m.chains[head].serial < |m.fate| && TableFor(AfterPop(m))
    {
      hide Inv;
      PopInv(m);
      ChainsApart(m, head);
      ghost var before, c := desc[..], m.chains[head];
      WalkChain(head, c);
      JoinFree(before, desc[..], firstFree, m.free, c);
      firstFree := head;
      forall h | h in m.chains && h != head ensures ChainLinked(desc[..], m.chains[h]) {
        assert c.ds[|c.ds| - 1] in c.ds;
        ChainKept(before, desc[..], m.chains[h]);
      }
    }

    /** Take the token of a used head out of its slot. */
    method TakeToken(head: nat) returns (t: Ptr)
      requires Shape() && Inv(m) && |m.owner| == size && TokensFor(m) && m.used != [] && head == m.used[0]
      modifies tokens
      ensures head in m.chains && m.chains[head].serial < |m.fate| == |m.tokens|
      ensures TokensFor(AfterPop(m)) && t == m.tokens[m.chains[head].serial]
    {
      PopInv(m);
      t := tokens[head];
      tokens[head] := 0;
    }

    /** virtqueue_pop: takes nothing and returns NULL when the driver has popped all that the device returned.
        Otherwise takes the head that was returned first and returns the token given to its push, the `k`-th,
        whose buffers the device found under that head. */
    method Pop() returns (t: Ptr, ghost got: bool, ghost k: nat)
      requires Valid()
      modifies this, desc, tokens
      ensures Valid() && (got <==> Pops(old(log)) < |Completes(old(log))|)
      ensures !got ==> t == 0 && m == old(m) && log == old(log)
      ensures got ==> log == old(log) + [Event.Pop] && Enabled(old(m), Event.Pop) && m == AfterPop(old(m))
      ensures got ==>
                var head := Completes(old(log))[Pops(old(log))];
                && k < |Pushes(old(log))| && k !in old(m).popped && t == Pushes(old(log))[k].token
                && head in old(m).chains && old(m).chains[head].serial == k
                && old(Found(desc[..], Completes(log)[Pops(log)], Pushes(log)[k].bufs))
                && nfree == old(nfree) + |Pushes(old(log))[k].bufs| && firstFree == head
    {
      hide Inv, TableFor, TokensFor, UsedFor, AvailFor, Leads, Recorded;
      k := 0;
      PendingUsed();
      var head, some := PeekUsed();
      if !some { return 0, false, 0; }
      PopInv(m);
      k := m.chains[head].serial;
      PopFacts(head);
      HeadFound(head);
      FreeCount(m);
      t := TakeToken(head);
      GiveBack(head);
      AdvanceUsed();
      LeadsSnoc(Initial(size), log, m, Event.Pop);
      AvailAlike(m, AfterPop(m));
      m, log := AfterPop(m), log + [Event.Pop];
      FreeCount(m);
      got := true;
    }

    lemma {:induction false} PendingUsed()
      requires Reaches(m, size, log)
      ensures m.used != [] <==> Pops(log) < |Completes(log)|
    {
      RunRecorded(m, size, log);
    }

    lemma {:induction false} PopFacts(head: nat)
      requires Reaches(m, size, log) && m.used != [] && head == m.used[0]
      ensures Pops(log) < |Completes(log)| && head == Completes(log)[Pops(log)] && head in m.chains
      ensures m.chains[head].ds != [] && m.chains[head].ds[0] == head && |m.chains[head].ds| == |m.chains[head].bufs|
      ensures var k := m.chains[head].serial;
              && k < |Pushes(log)| == |m.tokens| && k !in m.popped
              && m.chains[head].bufs == Pushes(log)[k].bufs && m.tokens[k] == Pushes(log)[k].token
    {
      RunRecorded(m, size, log);
      PopTakesOldest(m, size, log);
      RunInv(m, size, log);
      assert Carried(m.chains[head], Pushes(log));
    }

    /** Whether the used ring has an unread entry, and its head: the 16-bit indices differ
        exactly when something is pending. */
    method PeekUsed() returns (head: nat, some: bool)
      requires Shape() && Inv(m) && |m.owner| == size && UsedFor(m)
      ensures (some <==> m.used != []) && (some ==> head == m.used[0])
    {
      hide Inv;
      RingHasRoom(m);
      IndicesMeet(|m.popped|, |m.used|);
      if lastUsed == usedIdx { return 0, false; }
      RingDrop(usedRing[..], |m.popped|, m.used);
      return usedRing[lastUsed % size], true;
    }

    method AdvanceUsed()
      requires Shape() && Inv(m) && |m.owner| == size && UsedFor(m) && m.used != []
      modifies this`lastUsed
      ensures m.used[0] in m.chains && m.chains[m.used[0]].serial < |m.fate| && UsedFor(AfterPop(m))
    {
      hide Inv;
      PopInv(m);
      RingDrop(usedRing[..], |m.popped|, m.used);
      IndexStep(|m.popped|);
      lastUsed := (lastUsed + 1) % INDEX_RANGE;
    }

    /** The device takes the oldest available head, under which it finds the buffers of the oldest push that it
        has not taken yet; the index test tells it there is one. */
    method DeviceConsume() returns (head: nat, got: bool)
      requires Valid()
      modifies this`deviceIdx, this`m, this`log
      ensures Valid() && (got <==> Consumes(old(log)) < |Pushes(old(log))|)
      ensures !got ==> m == old(m) && log == old(log)
      ensures got ==>
                && old(m).avail != [] && m == Consumed(old(m)) && log == old(log) + [Event.Consume]
                && Found(desc[..], head, Pushes(old(log))[Consumes(old(log))].bufs)
                && head in m.place && m.place[head] == AtDevice
                && head in m.chains && m.chains[head].serial == Consumes(old(log))
    {
      hide Inv, TableFor, TokensFor, UsedFor, AvailFor, Leads, Recorded;
      ConsumeFacts();
      head, got := PeekAvail();
      if !got { return; }
      ConsumeInv(m);
      HeadFound(head);
      LeadsSnoc(Initial(size), log, m, Event.Consume);
      AdvanceAvail();
      TableAlike(m, Consumed(m));
      UsedAlike(m, Consumed(m));
      m, log := Consumed(m), log + [Event.Consume];
    }

    method PeekAvail() returns (head: nat, some: bool)
      requires Shape() && Inv(m) && |m.owner| == size && AvailFor(m)
      ensures (some <==> m.avail != []) && (some ==> head == m.avail[0])
    {
      hide Inv;
      RingHasRoom(m);
      IndicesMeet(|m.tokens| - |m.avail|, |m.avail|);
      if deviceIdx == availIdx { return 0, false; }
      RingDrop(availRing[..], |m.tokens| - |m.avail|, m.avail);
      return availRing[deviceIdx % size], true;
    }

    method AdvanceAvail()
      requires Shape() && Inv(m) && |m.owner| == size && AvailFor(m) && m.avail != []
      modifies this`deviceIdx
      ensures AvailFor(Consumed(m))
    {
      hide Inv;
      RingHasRoom(m);
      RingDrop(availRing[..], |m.tokens| - |m.avail|, m.avail);
      IndexStep(|m.tokens| - |m.avail|);
      deviceIdx := (deviceIdx + 1) % INDEX_RANGE;
    }

    lemma {:induction false} ConsumeFacts()
      requires Reaches(m, size, log)
      ensures m.avail != [] <==> Consumes(log) < |Pushes(log)|
      ensures m.avail != [] ==>
                var head, k := m.avail[0], Consumes(log);
                head in m.chains && m.chains[head].serial == k && m.chains[head].bufs == Pushes(log)[k].bufs
    {
      RunRecorded(m, size, log);
      assert m.avail != [] ==> Carried(m.chains[m.avail[0]], Pushes(log));
    }

    /** The device returns a head it holds. */
    method DeviceComplete(head: nat)
      requires Valid() && head in m.place && m.place[head] == AtDevice
      modifies this`usedIdx, this`m, this`log, usedRing
      ensures Valid() && m == Completed(old(m), head) && log == old(log) + [Event.Complete(head)]
      ensures usedIdx == (old(usedIdx) + 1) % 0x1_0000
      ensures usedRing[..] == old(usedRing[..])[old(usedIdx) % size := head]
    {
      hide Inv, TableFor, TokensFor, AvailFor, Leads;
      RingHasRoom(m);
      CompleteInv(m, head);
      WriteRing(usedRing, usedIdx % size, |m.popped|, m.used, head);
      IndexStep(|m.popped| + |m.used|);
      usedIdx := (usedIdx + 1) % INDEX_RANGE;
      LeadsSnoc(Initial(size), log, m, Event.Complete(head));
      TableAlike(m, Completed(m, head));
      AvailAlike(m, Completed(m, head));
      m, log := Completed(m, head), log + [Event.Complete(head)];
    }
  }

  lemma {:induction false} ThreeEvents(p: Event, head: nat)
    requires p.Push?
    ensures Pushes([]) == [] && Consumes([]) == Pops([]) == 0 && Pushes([p]) == [p] && Consumes([p]) == 0
    ensures var evs := [p] + [Event.Consume] + [Complete(head)];
            Pushes(evs) == [p] && Completes(evs) == [head] && Pops(evs) == 0
  {
    NoEvent([], []);
    OneEvent(p);
    OneEvent(Event.Consume);
    OneEvent(Complete(head));
    HeadAndRest(Event.Consume, [Complete(head)]);
    HeadAndRest(p, [Event.Consume] + [Complete(head)]);
    hide Pushes, Consumes, Completes, Pops;
    assert [p] + ([Event.Consume] + [Complete(head)]) == [p] + [Event.Consume] + [Complete(head)];
  }

  /** The round trip of one request through a fresh queue: the device finds the buffers under the head it reads,
      and the driver gets the token back. */
  method RoundTrip(n: nat, bufs: seq<Buffer>, token: Ptr) returns (t: Ptr)
    requires 0 < n < INDEX_RANGE && INDEX_RANGE % n == 0 && 0 < |bufs| <= n
    ensures t == token
  {
    hide Queue.Valid, Pushes, Consumes, Completes, Pops, Found;
    var q := new Queue(n);
    var r := q.Push(bufs, token);
    ThreeEvents(Event.Push(bufs, token), 0);
    assert q.log == [Event.Push(bufs, token)];
    var head, got := q.DeviceConsume();
    ThreeEvents(Event.Push(bufs, token), head);
    q.DeviceComplete(head);
    ghost var popped, k;
    t, popped, k := q.Pop();
  }
}
