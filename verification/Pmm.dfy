/** The physical page allocator of `hexahedron/mm/pmm.c`: one section's bitmap, its
first-free-byte hint, free count, page flags and reference counts. */
module Pmm {
  import opened Common

  // PAGE_FLAG_FREE and the reference count of a page descriptor.
  datatype Page = Page(free: bool, refcount: nat)

  /** How an allocation under the lock ends. */
  datatype Outcome = Allocated(blk: nat) | AssertionFails | Outside(blk: nat)

  // ---------- bytes of the bitmap ----------

  /** 1 << i for a bit of a byte. */
  function Mask(i: nat): bv8
    requires i < 8
  {
    if i == 0 then 0x01 else if i == 1 then 0x02 else if i == 2 then 0x04 else if i == 3 then 0x08
    else if i == 4 then 0x10 else if i == 5 then 0x20 else if i == 6 then 0x40 else 0x80
  }

  /** Bit `i` of byte `b` is the page number `8 * b + i`, lowest bit first. */
  lemma {:induction false} MaskIsShift(i: nat)
    requires i < 8
    ensures Mask(i) == (1 as bv8) << i && (Mask(i) as int) == [1, 2, 4, 8, 16, 32, 64, 128][i]
  {
  }

  predicate Bit(b: bv8, i: nat)
    requires i < 8
  {
    b & Mask(i) != 0
  }

  lemma {:induction false} SetBit(b: bv8, i: nat, j: nat)
    requires i < 8 && j < 8
    ensures Bit(b | Mask(i), j) == (j == i || Bit(b, j))
  {
  }

  lemma {:induction false} ClearBit(b: bv8, i: nat, j: nat)
    requires i < 8 && j < 8
    ensures Bit(b & !Mask(i), j) == (j != i && Bit(b, j))
  {
  }

  lemma {:induction false} FullByte(b: bv8)
    ensures b == 0xFF <==> forall i :: 0 <= i < 8 ==> Bit(b, i)
  {
    if forall i :: 0 <= i < 8 ==> Bit(b, i) {
      assert Bit(b, 0) && Bit(b, 1) && Bit(b, 2) && Bit(b, 3) && Bit(b, 4) && Bit(b, 5) && Bit(b, 6) && Bit(b, 7);
    }
  }

  /** A bitmap of bytes as one flag per page. */
  function Flags(bytes: seq<bv8>, n: nat): (u: seq<bool>)
    requires |bytes| == (n + 7) / 8
    ensures |u| == n && forall p :: 0 <= p < n ==> u[p] == Bit(bytes[p / 8], p % 8)
  {
    seq(n, p requires 0 <= p < n => Bit(bytes[p / 8], p % 8))
  }

  lemma {:induction false} FlagsSet(bytes: seq<bv8>, n: nat, p: nat)
    requires |bytes| == (n + 7) / 8 && p < n
    ensures Flags(bytes[p / 8 := bytes[p / 8] | Mask(p % 8)], n) == Flags(bytes, n)[p := true]
  {
    hide Bit, Mask, Flags;
    var bytes' := bytes[p / 8 := bytes[p / 8] | Mask(p % 8)];
    forall q | 0 <= q < n ensures Flags(bytes', n)[q] == Flags(bytes, n)[p := true][q] {
      if q / 8 == p / 8 {
        SetBit(bytes[p / 8], p % 8, q % 8);
        SameBit(p, q);
      } else {
        assert bytes'[q / 8] == bytes[q / 8];
      }
    }
  }

  lemma {:induction false} FlagsCleared(bytes: seq<bv8>, n: nat, p: nat)
    requires |bytes| == (n + 7) / 8 && p < n
    ensures Flags(bytes[p / 8 := bytes[p / 8] & !Mask(p % 8)], n) == Flags(bytes, n)[p := false]
  {
    hide Bit, Mask, Flags;
    var bytes' := bytes[p / 8 := bytes[p / 8] & !Mask(p % 8)];
    forall q | 0 <= q < n ensures Flags(bytes', n)[q] == Flags(bytes, n)[p := false][q] {
      if q / 8 == p / 8 {
        ClearBit(bytes[p / 8], p % 8, q % 8);
        SameBit(p, q);
      } else {
        assert bytes'[q / 8] == bytes[q / 8];
      }
    }
  }

  // Pages of one byte differ in their bits.
  lemma {:induction false} SameBit(p: nat, q: nat)
    requires p / 8 == q / 8
    ensures p % 8 == q % 8 <==> p == q
  {
  }

  // ---------- counting ----------

  /** Number of free pages. */
  function CountFree(used: seq<bool>): nat {
    if used == [] then 0 else CountFree(used[..|used| - 1]) + if used[|used| - 1] then 0 else 1
  }

  lemma {:induction false} CountFreeUpdate(used: seq<bool>, p: nat, b: bool)
    requires p < |used|
    ensures CountFree(used[p := b]) + (if used[p] then 0 else 1) == CountFree(used) + if b then 0 else 1
  {
    if p == |used| - 1 {
      assert used[p := b][..p] == used[..p];
    } else {
      assert used[p := b][..|used| - 1] == used[..|used| - 1][p := b];
      CountFreeUpdate(used[..|used| - 1], p, b);
    }
  }

  /** A positive count has a lowest free page. */
  lemma {:induction false} LowestFree(used: seq<bool>) returns (p: nat)
    requires CountFree(used) > 0
    ensures p < |used| && !used[p] && forall q :: 0 <= q < p ==> used[q]
  {
    var front := used[..|used| - 1];
    if CountFree(front) > 0 { p := LowestFree(front); }
    else {
      p := |used| - 1;
      AllUsed(front);
    }
  }

  lemma {:induction false} AllUsed(used: seq<bool>)
    requires CountFree(used) == 0
    ensures forall q :: 0 <= q < |used| ==> used[q]
  {
    if used != [] { AllUsed(used[..|used| - 1]); }
  }

  // ---------- runs ----------

  predicate FreeRun(used: seq<bool>, st: nat, len: nat) {
    st + len <= |used| && forall p :: st <= p < st + len ==> !used[p]
  }

  ghost predicate NoRunBelow(used: seq<bool>, limit: nat, len: nat) {
    forall st: nat :: st < limit ==> !FreeRun(used, st, len)
  }

  /** No run starts on a page in use, in particular not inside a full byte. */
  lemma {:induction false} NoRunInUsed(used: seq<bool>, from: nat, to: nat, len: nat)
    requires len > 0 && from <= to && NoRunBelow(used, from, len)
    requires forall p :: from <= p < to && p < |used| ==> used[p]
    ensures NoRunBelow(used, to, len)
  {
    forall st: nat | st < to ensures !FreeRun(used, st, len) {
      assert from <= st < |used| ==> used[st];
    }
  }

  /** The bitmap after marking `len` pages from `st`. */
  function Marked(used: seq<bool>, st: nat, len: nat): (r: seq<bool>)
    requires st + len <= |used|
    ensures |r| == |used|
    ensures forall p :: 0 <= p < |used| ==> r[p] == (st <= p < st + len || used[p])
  {
    seq(|used|, p requires 0 <= p < |used| => st <= p < st + len || used[p])
  }

  /** Marking a free run takes exactly its length from the count. */
  lemma {:induction false} CountMarked(used: seq<bool>, st: nat, len: nat)
    requires FreeRun(used, st, len)
    ensures CountFree(Marked(used, st, len)) + len == CountFree(used)
  {
    if len == 0 {
      assert Marked(used, st, 0) == used;
    } else {
      CountMarked(used, st, len - 1);
      CountFreeUpdate(Marked(used, st, len - 1), st + len - 1, true);
      assert Marked(used, st, len) == Marked(used, st, len - 1)[st + len - 1 := true];
    }
  }

  /** The page descriptors after taking `len` pages from `st`. */
  function Taken(ps: seq<Page>, st: nat, len: nat): (r: seq<Page>)
    requires st + len <= |ps|
    ensures |r| == |ps|
    ensures forall p :: 0 <= p < |ps| ==> r[p] == if st <= p < st + len then Page(false, 1) else ps[p]
  {
    seq(|ps|, p requires 0 <= p < |ps| => if st <= p < st + len then Page(false, 1) else ps[p])
  }

  // ---------- agreement of the parts ----------

  // No free page lies below the hinted byte.
  predicate HintOk(used: seq<bool>, ffb: nat) {
    forall p :: 0 <= p < |used| && !used[p] ==> ffb <= p / 8
  }

  lemma {:induction false} HintFreed(used: seq<bool>, p: nat, ffb: nat)
    requires HintOk(used, ffb) && p < |used|
    ensures HintOk(used[p := false], if p / 8 < ffb then p / 8 else ffb)
  {
  }

  // A bit is clear exactly when its page is flagged free, and then it has no references.
  predicate Agree(used: seq<bool>, ps: seq<Page>) {
    |ps| == |used| &&
    forall p :: 0 <= p < |used| ==> ps[p].free == !used[p] && (!used[p] ==> ps[p].refcount == 0)
  }

  lemma {:induction false} AgreeUpdate(used: seq<bool>, ps: seq<Page>, p: nat, u: bool, pg: Page)
    requires Agree(used, ps) && p < |used| && pg.free == !u && (!u ==> pg.refcount == 0)
    ensures Agree(used[p := u], ps[p := pg])
  {
  }

  lemma {:induction false} AgreeTaken(used: seq<bool>, ps: seq<Page>, st: nat, len: nat)
    requires Agree(used, ps) && st + len <= |used|
    ensures Agree(Marked(used, st, len), Taken(ps, st, len))
  {
  }

  /** From a byte below which no page is free, the lowest clear bit gives the lowest free page, if it lies
      in the section at all; and if any page is free it does. */
  lemma {:induction false} LowestBlock(bytes: seq<bv8>, n: nat, b: nat, byte: bv8, i: nat, inside: bool)
    requires |bytes| == (n + 7) / 8 && b <= |bytes| && HintOk(Flags(bytes, n), b) && (b < |bytes| ==> byte == bytes[b])
    requires i < 8 && (forall j :: 0 <= j < i ==> Bit(byte, j))
    requires if inside then !Bit(byte, i) else Bit(byte, i) && b * 8 + i >= n
    ensures inside && b * 8 + i < n ==>
              !Flags(bytes, n)[b * 8 + i] && forall q :: 0 <= q < b * 8 + i ==> Flags(bytes, n)[q]
    ensures CountFree(Flags(bytes, n)) > 0 <==> inside && b * 8 + i < n
  {
    var used := Flags(bytes, n);
    if inside && b * 8 + i < n {
      assert used[b * 8 + i] == Bit(bytes[b], i);
      forall q | 0 <= q < b * 8 + i ensures used[q] {
        if q >= b * 8 { assert Bit(byte, q - b * 8); }
      }
      if CountFree(used) == 0 { AllUsed(used); }
    } else if CountFree(used) > 0 {
      var p := LowestFree(used);
      FreeIsAtOrBefore(bytes, n, b, byte, i, inside, p);
    }
  }

  lemma {:induction false} FreeIsAtOrBefore(bytes: seq<bv8>, n: nat, b: nat, byte: bv8, i: nat, inside: bool, p: nat)
    requires |bytes| == (n + 7) / 8 && b <= |bytes| && (b < |bytes| ==> byte == bytes[b])
    requires i < 8 && (forall j :: 0 <= j < i ==> Bit(byte, j))
    requires if inside then !Bit(byte, i) else Bit(byte, i) && b * 8 + i >= n
    requires p < n && b <= p / 8 && !Flags(bytes, n)[p] && forall q :: 0 <= q < p ==> Flags(bytes, n)[q]
    ensures inside && b * 8 + i <= p
  {
    assert p / 8 == b ==> !Bit(byte, p % 8);
    if p / 8 > b && inside { PageOf(bytes, n, b, i); }
  }

  lemma {:induction false} PageOf(bytes: seq<bv8>, n: nat, b: nat, i: nat)
    requires |bytes| == (n + 7) / 8 && b < |bytes| && i < 8 && b * 8 + i < n
    ensures Flags(bytes, n)[b * 8 + i] == Bit(bytes[b], i)
  {
    assert (b * 8 + i) / 8 == b && (b * 8 + i) % 8 == i;
  }

  // ---------- the section ----------

  class Section {
    const npages: nat         // size / PAGE_SIZE
    const bmap: array<bv8>
    const pages: array<Page>
    var ffb: nat              // first byte that may hold a free page
    var nfree: nat

    /** The bitmap as one flag per page. */
    ghost function Used(): (u: seq<bool>)
      requires bmap.Length == (npages + 7) / 8
      reads bmap
      ensures |u| == npages
    {
      Flags(bmap[..], npages)
    }

    ghost predicate Valid()
      reads this, bmap, pages
    {
      && bmap.Length == (npages + 7) / 8 && pages.Length == npages && bmap as object != pages
      && nfree == CountFree(Used()) && HintOk(Used(), ffb) && Agree(Used(), pages[..]) && ffb <= bmap.Length
    }

    constructor (n: nat)
      ensures Valid() && npages == n && nfree == n && fresh(bmap) && fresh(pages)
      ensures forall p :: 0 <= p < n ==> !Used()[p]
    {
      npages := n;
      bmap := new bv8[(n + 7) / 8](_ => 0);
      pages := new Page[n](_ => Page(true, 0));
      ffb, nfree := 0, n;
      new;
      assert forall p :: 0 <= p < n ==> !Used()[p];
      AllFree(Used());
    }

    /** Set a page's bit. */
    method SetUsed(p: nat)
      requires bmap.Length == (npages + 7) / 8 && p < npages
      modifies bmap
      ensures Used() == old(Used())[p := true]
    {
      hide Mask, Flags;
      FlagsSet(bmap[..], npages, p);
      bmap[p / 8] := bmap[p / 8] | Mask(p % 8);
      assert bmap[..] == old(bmap[..])[p / 8 := old(bmap[p / 8]) | Mask(p % 8)];
    }

    /** Clear a page's bit. */
    method ClearUsed(p: nat)
      requires bmap.Length == (npages + 7) / 8 && p < npages
      modifies bmap
      ensures Used() == old(Used())[p := false]
    {
      hide Mask, Flags;
      FlagsCleared(bmap[..], npages, p);
      bmap[p / 8] := bmap[p / 8] & !Mask(p % 8);
      assert bmap[..] == old(bmap[..])[p / 8 := old(bmap[p / 8]) & !Mask(p % 8)];
    }

    /** From byte `from` on, the first byte with a clear bit, given that some page at or
        past it is free and none before it; the bound the kernel asserts holds throughout. */
    method FirstFreeByte(from: nat, ghost p: nat) returns (b: nat)
      requires bmap.Length == (npages + 7) / 8 && p < npages && !Used()[p] && from <= p / 8
      requires forall q :: 0 <= q < p ==> Used()[q]
      ensures from <= b <= p / 8 && bmap[b] != 0xFF
      ensures HintOk(Used(), b)
    {
      b := from;
      while bmap[b] == 0xFF
        invariant from <= b <= p / 8
        decreases p / 8 - b
      {
        FullByte(bmap[b]);
        assert Used()[p] == Bit(bmap[p / 8], p % 8);
        b := b + 1;
        assert b * 8 < npages;
      }
    }

    // A byte of the bitmap, or the one in memory behind it.
    function ByteAt(i: nat, beyond: bv8): bv8
      requires i <= bmap.Length
      reads bmap
    {
      if i < bmap.Length then bmap[i] else beyond
    }

    /** Recompute the hint from the start, as both allocators do when they find its byte full.  The kernel's
        assertion fails only when the whole bitmap and the byte behind it are full. */
    method Recover(beyond: bv8) returns (ok: bool)
      requires Valid()
      modifies this`ffb
      ensures Valid() && (ok <==> ByteAt(ffb, beyond) != 0xFF)
      ensures !ok ==> nfree == 0 && beyond == 0xFF && forall b :: 0 <= b < bmap.Length ==> bmap[b] == 0xFF
    {
      ffb := 0;
      ok := true;
      while ByteAt(ffb, beyond) == 0xFF
        invariant ffb <= bmap.Length && forall b :: 0 <= b < ffb ==> bmap[b] == 0xFF
        decreases bmap.Length - ffb
      {
        if ffb * 8 >= npages {
          ok := false;
          break;
        }
        ffb := ffb + 1;
      }
      FullBelow(ffb);
    }

    /** Recompute the hint if its byte is full. */
    method CheckHint(beyond: bv8) returns (ok: bool)
      requires Valid()
      modifies this`ffb
      ensures Valid() && (ok ==> ByteAt(ffb, beyond) != 0xFF) && (!ok ==> nfree == 0)
    {
      ok := true;
      if ByteAt(ffb, beyond) == 0xFF { ok := Recover(beyond); }
    }

    // No free page lies in full bytes.
    lemma {:induction false} FullBelow(b: nat)
      requires bmap.Length == (npages + 7) / 8 && b <= bmap.Length && forall c :: 0 <= c < b ==> bmap[c] == 0xFF
      ensures HintOk(Used(), b) && (b * 8 >= npages ==> CountFree(Used()) == 0)
    {
      forall p | 0 <= p < npages && !Used()[p] ensures b <= p / 8 {
        if p / 8 < b { FullByte(bmap[p / 8]); }
      }
      if CountFree(Used()) > 0 { var p := LowestFree(Used()); }
    }

    /** The lowest clear bit of a byte; the kernel asserts that no set bit before it lies past the section. */
    method LowBit(b: nat, byte: bv8) returns (i: nat, ok: bool)
      requires byte != 0xFF
      ensures i < 8 && forall j :: 0 <= j < i ==> Bit(byte, j)
      ensures if ok then !Bit(byte, i) else Bit(byte, i) && b * 8 + i >= npages
    {
      FullByte(byte);
      i := 0;
      while byte & Mask(i) != 0
        invariant 0 <= i < 8 && forall j :: 0 <= j < i ==> Bit(byte, j)
        decreases 8 - i
      {
        if b * 8 + i >= npages { return i, false; }
        assert exists j :: i < j < 8 && !Bit(byte, j);
        i := i + 1;
      }
      ok := true;
    }

    /** The search of pmm_allocatePage: the lowest free page of the section, if and only if there is one. */
    method FindBlock(beyond: bv8) returns (r: Outcome)
      requires Valid()
      modifies this`ffb
      ensures Valid() && (r.Allocated? <==> nfree > 0)
      ensures r.Allocated? ==> r.blk < npages && !Used()[r.blk] && forall q :: 0 <= q < r.blk ==> Used()[q]
      ensures r.Outside? ==> r.blk >= npages
    {
      hide HintOk, Agree, CountFree, Flags;
      var ok := CheckHint(beyond);
      if !ok { return AssertionFails; }
      var i, inside := LowBit(ffb, ByteAt(ffb, beyond));
      LowestBlock(bmap[..], npages, ffb, ByteAt(ffb, beyond), i, inside);
      if !inside { return AssertionFails; }
      var blk := ffb * 8 + i;
      r := if blk >= npages then Outside(blk) else Allocated(blk);
    }

    /** pmm_allocatePage from the point where the section's lock is held; `beyond` is the byte behind the
        bitmap, which the search can read.  A page of the section is allocated, the lowest free one, and no
        assertion fails, if and only if the section has a free page at that point.  Otherwise an assertion
        fails or the search settles on a block outside the section; nothing is modelled past that. */
    method AllocatePage(beyond: bv8) returns (r: Outcome)
      requires Valid()
      modifies this, bmap, pages
      ensures Valid() && (r.Allocated? <==> old(nfree) > 0)
      ensures r.Allocated? ==>
                && nfree == old(nfree) - 1
                && r.blk < npages && !old(Used())[r.blk] && (forall q :: 0 <= q < r.blk ==> old(Used())[q])
                && Used() == old(Used())[r.blk := true]
                && pages[..] == old(pages[..])[r.blk := Page(false, 1)]
      ensures !r.Allocated? ==> Used() == old(Used()) && pages[..] == old(pages[..]) && nfree == old(nfree)
      ensures r.Outside? ==> r.blk >= npages
    {
      hide HintOk, CountFree;
      r := FindBlock(beyond);
      if r.Allocated? {
        assert pages[r.blk].free && pages[r.blk].refcount == 0;
        Take(r.blk);
        Rehint();
      }
    }

    /** Mark one free page as taken. */
    method Take(blk: nat)
      requires Valid() && blk < npages && !Used()[blk]
      modifies this`nfree, bmap, pages
      ensures Valid() && nfree == old(nfree) - 1
      ensures Used() == old(Used())[blk := true]
      ensures pages[..] == old(pages[..])[blk := Page(false, 1)]
    {
      CountFreeUpdate(Used(), blk, true);
      AgreeUpdate(Used(), pages[..], blk, true, Page(false, 1));
      SetUsed(blk);
      pages[blk] := Page(false, 1);
      nfree := nfree - 1;
      assert pages[..] == old(pages[..])[blk := Page(false, 1)];
    }

    /** Advance the hint past full bytes while a free page remains. */
    method Rehint()
      requires Valid()
      modifies this`ffb
      ensures Valid()
    {
      if nfree > 0 {
        ghost var next := LowestFree(Used());
        ffb := FirstFreeByte(ffb, next);
      }
    }

    /** Whether pages st .. st + len are all free. */
    method RunIsFree(st: nat, len: nat) returns (ok: bool)
      requires bmap.Length == (npages + 7) / 8 && st + len <= npages
      ensures ok <==> FreeRun(Used(), st, len)
    {
      ok := true;
      for k := 0 to len
        invariant ok && FreeRun(Used(), st, k)
      {
        var idx := st + k;
        assert Used()[idx] == Bit(bmap[idx / 8], idx % 8);
        if bmap[idx / 8] & Mask(idx % 8) != 0 { return false; }
      }
    }

    /** A full byte has no free page. */
    lemma {:induction false} FullByteUsed(cur: nat)
      requires bmap.Length == (npages + 7) / 8 && cur < bmap.Length && bmap[cur] == 0xFF
      ensures forall p :: cur * 8 <= p < cur * 8 + 8 && p < npages ==> Used()[p]
    {
      FullByte(bmap[cur]);
    }

    /** The search of __pmm_try_section: byte by byte from the hint, skipping full bytes. */
    method FindRun(len: nat) returns (r: Option<nat>)
      requires bmap.Length == (npages + 7) / 8 && HintOk(Used(), ffb) && ffb <= bmap.Length
      ensures r.None? && len > 0 ==> forall st: nat :: !FreeRun(Used(), st, len)
      ensures r.Some? ==> FreeRun(Used(), r.value, len) && (len > 0 ==> NoRunBelow(Used(), r.value, len))
    {
      var bcount := (npages + 7) / 8;
      if len > 0 { NoRunInUsed(Used(), 0, ffb * 8, len); }
      for cur := ffb to bcount
        invariant len > 0 ==> NoRunBelow(Used(), cur * 8, len)
      {
        if bmap[cur] == 0xFF {
          FullByteUsed(cur);
          if len > 0 { NoRunInUsed(Used(), cur * 8, cur * 8 + 8, len); }
        } else {
          for bit := 0 to 8
            invariant len > 0 ==> NoRunBelow(Used(), cur * 8 + bit, len)
          {
            var st := cur * 8 + bit;
            if st + len > npages { return None; }
            var ok := RunIsFree(st, len);
            if ok { return Some(st); }
          }
        }
      }
      return None;
    }

    /** Mark the pages of a run. */
    method MarkRun(st: nat, len: nat)
      requires Valid() && FreeRun(Used(), st, len)
      modifies bmap, pages
      ensures Used() == Marked(old(Used()), st, len)
      ensures pages[..] == Taken(old(pages[..]), st, len)
    {
      for k := 0 to len
        invariant Used() == Marked(old(Used()), st, k)
        invariant pages[..] == Taken(old(pages[..]), st, k)
      {
        SetUsed(st + k);
        pages[st + k] := Page(false, 1);
        assert Used() == Marked(old(Used()), st, k)[st + k := true];
        assert pages[..] == Taken(old(pages[..]), st, k)[st + k := Page(false, 1)];
      }
    }

    /** Take a free run. */
    method TakeRun(st: nat, len: nat)
      requires Valid() && FreeRun(Used(), st, len)
      modifies this`nfree, bmap, pages
      ensures Valid() && nfree == old(nfree) - len
      ensures Used() == Marked(old(Used()), st, len)
      ensures pages[..] == Taken(old(pages[..]), st, len)
    {
      CountMarked(Used(), st, len);
      AgreeTaken(Used(), pages[..], st, len);
      MarkRun(st, len);
      nfree := nfree - len;
    }

    /** __pmm_try_section: the lowest run of `len` free pages, or none when there is none.  A request for no
        pages takes nothing, and fails the kernel's assertion only on a full section. */
    method TrySection(len: nat, beyond: bv8) returns (r: Option<nat>, asserted: bool)
      requires Valid()
      modifies this, bmap, pages
      ensures Valid() && (asserted ==> r.None? && len == 0 && old(nfree) == 0)
      ensures len > 0 ==> (r.None? <==> forall st: nat :: !FreeRun(old(Used()), st, len))
      ensures r.None? ==> Used() == old(Used()) && pages[..] == old(pages[..]) && nfree == old(nfree)
      ensures r.Some? ==> FreeRun(old(Used()), r.value, len)
                          && (len > 0 ==> NoRunBelow(old(Used()), r.value, len))
                          && Used() == Marked(old(Used()), r.value, len) && nfree == old(nfree) - len
                          && pages[..] == Taken(old(pages[..]), r.value, len)
      ensures r.Some? ==> forall p :: 0 <= p < npages ==>
                if r.value <= p < r.value + len then Used()[p] && pages[p] == Page(false, 1)
                else Used()[p] == old(Used())[p] && pages[p] == old(pages[p])
    {
      asserted := false;
      if nfree < len {
        forall st: nat ensures !FreeRun(Used(), st, len) {
          if FreeRun(Used(), st, len) { CountMarked(Used(), st, len); }
        }
        return None, false;
      }
      var ok := CheckHint(beyond);
      if !ok { return None, true; }
      r := FindRun(len);
      if r.Some? {
        TakeRun(r.value, len);
        SkipFull();
      }
    }

    /** Advance the hint past full bytes, up to the end of the bitmap. */
    method SkipFull()
      requires Valid()
      modifies this`ffb
      ensures Valid()
    {
      while ffb < bmap.Length && bmap[ffb] == 0xFF
        invariant HintOk(Used(), ffb) && ffb <= bmap.Length
      {
        FullByte(bmap[ffb]);
        ffb := ffb + 1;
      }
    }

    /** pmm_retainPage: one more reference, which leaves the section consistent exactly when the page is in
        use. */
    method RetainPage(off: nat)
      requires Valid() && off < npages
      modifies pages
      ensures Used() == old(Used()) && (Valid() <==> old(Used())[off])
      ensures pages[..] == old(pages[..])[off := Page(!old(Used())[off], old(pages[off].refcount) + 1)]
    {
      ghost var ps := pages[..];
      pages[off] := pages[off].(refcount := pages[off].refcount + 1);
      assert pages[..] == ps[off := Page(!Used()[off], ps[off].refcount + 1)];
      assert bmap[..] == old(bmap[..]);
      if Used()[off] {
        AgreeUpdate(Used(), ps, off, true, Page(false, ps[off].refcount + 1));
        assert Used()[off := true] == Used();
      } else {
        assert pages[..][off].refcount > 0;
      }
    }

    /** pmm_releasePage; a page without references is a double free and panics. */
    method ReleasePage(off: nat) returns (panicked: bool)
      requires Valid() && off < npages
      modifies this, bmap, pages
      ensures Valid() && (panicked <==> old(pages[off].refcount) == 0)
      ensures panicked ==> Used() == old(Used()) && pages[..] == old(pages[..])
      ensures old(pages[off].refcount) == 1 ==>
                Used() == old(Used())[off := false] && nfree == old(nfree) + 1
                && pages[..] == old(pages[..])[off := Page(true, 0)]
      ensures old(pages[off].refcount) > 1 ==>
                Used() == old(Used()) && nfree == old(nfree)
                && pages[..] == old(pages[..])[off := Page(false, old(pages[off].refcount) - 1)]
    {
      if pages[off].refcount == 0 { return true; }
      var ref := pages[off].refcount - 1;
      if ref == 0 {
        FreeLast(off);
      } else {
        SetReferences(off, ref);
      }
      return false;
    }

    /** Change the reference count of a page in use. */
    method SetReferences(off: nat, ref: nat)
      requires Valid() && off < npages && Used()[off]
      modifies pages
      ensures Valid() && Used() == old(Used()) && pages[..] == old(pages[..])[off := Page(false, ref)]
    {
      AgreeUpdate(Used(), pages[..], off, true, Page(false, ref));
      pages[off] := pages[off].(refcount := ref);
      assert pages[..] == old(pages[..])[off := Page(false, ref)];
      assert bmap[..] == old(bmap[..]) && Used()[off := true] == Used();
    }

    /** Return a page whose last reference is gone. */
    method FreeLast(off: nat)
      requires Valid() && off < npages && Used()[off]
      modifies this, bmap, pages
      ensures Valid() && nfree == old(nfree) + 1
      ensures Used() == old(Used())[off := false] && pages[..] == old(pages[..])[off := Page(true, 0)]
    {
      CountFreeUpdate(Used(), off, false);
      AgreeUpdate(Used(), pages[..], off, false, Page(true, 0));
      HintFreed(Used(), off, ffb);
      hide CountFree, Agree, HintOk, Flags;
      pages[off] := Page(true, 0);
      assert pages[..] == old(pages[..])[off := Page(true, 0)] && bmap[..] == old(bmap[..]);
      ClearUsed(off);
      if off / 8 < ffb { ffb := off / 8; }
      nfree := nfree + 1;
    }
  }

  lemma {:induction false} AllFree(used: seq<bool>)
    requires forall p :: 0 <= p < |used| ==> !used[p]
    ensures CountFree(used) == |used|
  {
    if used != [] { AllFree(used[..|used| - 1]); }
  }

  /** A section of one page: the second allocation under the lock gets no page. */
  method OnePageTwice(beyond: bv8) returns (first: Outcome, second: Outcome)
    ensures first == Allocated(0) && !second.Allocated?
  {
    var s := new Section(1);
    first := s.AllocatePage(beyond);
    second := s.AllocatePage(beyond);
  }

  // ---------- two threads and one page ----------

  /** A thread in pmm_allocatePage: before the unlocked look at the free count, past it, or done. */
  datatype Caller = Looking | Chosen | Served | Unserved

  /** The free count of a section and its callers. */
  datatype Race = Race(nfree: nat, callers: seq<Caller>)

  /** A caller sees a positive free count without holding the lock. */
  function Look(s: Race, t: nat): Race
    requires t < |s.callers| && s.callers[t] == Looking && s.nfree > 0
  {
    s.(callers := s.callers[t := Chosen])
  }

  /** It takes the lock and allocates, which gives it a page exactly when one is free. */
  function Lock(s: Race, t: nat): Race
    requires t < |s.callers| && s.callers[t] == Chosen
  {
    if s.nfree > 0 then Race(s.nfree - 1, s.callers[t := Served]) else s.(callers := s.callers[t := Unserved])
  }

  /** Two callers look at a section with one free page; the second to take the lock finds none. */
  lemma {:induction false} LastPageRace()
    ensures var s := Look(Look(Race(1, [Looking, Looking]), 0), 1);
            && Lock(s, 0).nfree == 0 && Lock(s, 0).callers[1] == Chosen
            && Lock(Lock(s, 0), 1) == Race(0, [Served, Unserved])
  {
  }

  /** What may happen next: a caller past the look takes the lock, or someone frees a page. */
  datatype Turn = Takes(t: nat) | Frees

  function After(s: Race, e: Turn): Race
    requires e.Takes? ==> e.t < |s.callers| && s.callers[e.t] == Chosen
  {
    match e
    case Takes(t) => Lock(s, t)
    case Frees => s.(nfree := s.nfree + 1)
  }

  /** Each caller takes the lock once, in any order and with any frees in between. */
  ghost predicate Waiting(s: Race, turns: seq<Turn>) {
    && (forall i :: 0 <= i < |turns| && turns[i].Takes? ==> turns[i].t < |s.callers| && s.callers[turns[i].t] == Chosen)
    && forall i, j :: 0 <= i < j < |turns| && turns[i].Takes? && turns[j].Takes? ==> turns[i].t != turns[j].t
  }

  ghost function Outcomes(s: Race, turns: seq<Turn>): Race
    requires Waiting(s, turns)
    decreases |turns|
  {
    if turns == [] then s
    else
      WaitingTail(s, turns);
      Outcomes(After(s, turns[0]), turns[1..])
  }

  lemma {:induction false} WaitingTail(s: Race, turns: seq<Turn>)
    requires Waiting(s, turns) && turns != []
    ensures Waiting(After(s, turns[0]), turns[1..])
  {
    var s', rest := After(s, turns[0]), turns[1..];
    assert forall i :: 0 <= i < |rest| ==> rest[i] == turns[i + 1];
  }

  /** How many pages the turns free, less those they ask for. */
  function Balance(turns: seq<Turn>): int {
    if turns == [] then 0 else (if turns[0].Takes? then -1 else 1) + Balance(turns[1..])
  }

  ghost predicate Covered(nfree: nat, turns: seq<Turn>) {
    forall k :: 0 <= k <= |turns| ==> nfree + Balance(turns[..k]) >= 0
  }

  lemma {:induction false} CoveredTail(nfree: nat, turns: seq<Turn>)
    requires turns != []
    ensures var left := if turns[0].Takes? then nfree - 1 else nfree + 1;
            Covered(nfree, turns) <==> left >= 0 && Covered(left, turns[1..])
  {
    var left, rest := if turns[0].Takes? then nfree - 1 else nfree + 1, turns[1..];
    forall k | 0 <= k <= |rest| ensures nfree + Balance(turns[..k + 1]) == left + Balance(rest[..k]) {
      assert turns[..k + 1][1..] == rest[..k];
    }
    assert turns[..1] == [turns[0]] && [turns[0]][1..] == [];
    assert nfree + Balance(turns[..1]) == left;
    if Covered(nfree, turns) {
      assert nfree + Balance(turns[..1]) >= 0;
      forall k | 0 <= k <= |rest| ensures left + Balance(rest[..k]) >= 0 {
        assert nfree + Balance(turns[..k + 1]) >= 0;
      }
    }
    if left >= 0 && Covered(left, rest) {
      forall k | 0 <= k <= |turns| ensures nfree + Balance(turns[..k]) >= 0 {
        if k > 0 { assert left + Balance(rest[..k - 1]) >= 0; }
      }
    }
  }

  /** Every caller past the unlocked look gets a page if and only if at no point more of them have taken the
      lock than pages were free at first or have been freed since. */
  lemma {:induction false} AllServedIff(s: Race, turns: seq<Turn>)
    requires Waiting(s, turns)
    ensures var s' := Outcomes(s, turns);
            (forall i :: 0 <= i < |turns| && turns[i].Takes? ==>
               turns[i].t < |s'.callers| && s'.callers[turns[i].t] == Served) <==>
            Covered(s.nfree, turns)
    decreases |turns|
  {
    if turns == [] {
    } else {
      var s1, rest := After(s, turns[0]), turns[1..];
      WaitingTail(s, turns);
      AllServedIff(s1, rest);
      CoveredTail(s.nfree, turns);
      assert forall i :: 0 <= i < |rest| ==> rest[i] == turns[i + 1];
      if turns[0].Takes? { OthersTurns(s1, rest, turns[0].t); }
    }
  }

  /** With no page freed meanwhile, the i-th caller to take the lock is served if and only if more than i
      pages were free. */
  lemma {:induction false} ServedIff(s: Race, turns: seq<Turn>, i: nat)
    requires Waiting(s, turns) && i < |turns| && forall j :: 0 <= j < |turns| ==> turns[j].Takes?
    ensures var s' := Outcomes(s, turns);
            |s'.callers| == |s.callers| && s'.callers[turns[i].t] == if i < s.nfree then Served else Unserved
    decreases |turns|
  {
    WaitingTail(s, turns);
    if i > 0 {
      ServedIff(After(s, turns[0]), turns[1..], i - 1);
    } else {
      OthersTurns(After(s, turns[0]), turns[1..], turns[0].t);
    }
  }

  // A caller that is not in the order is left alone.
  lemma {:induction false} OthersTurns(s: Race, turns: seq<Turn>, t: nat)
    requires Waiting(s, turns) && t < |s.callers| && Takes(t) !in turns
    ensures |Outcomes(s, turns).callers| == |s.callers| && Outcomes(s, turns).callers[t] == s.callers[t]
    decreases |turns|
  {
    if turns != [] {
      WaitingTail(s, turns);
      OthersTurns(After(s, turns[0]), turns[1..], t);
    }
  }
}
