/** What rt_memheap_alloc, rt_memheap_free and rt_memheap_realloc of rt-thread/src/memheap.c take and give back, to the
    byte: which block, how large, and how much is available afterwards. */
module MemHeapAnswers {
  import opened Seqs
  import opened Tiles
  import opened MemHeap
  import O = MemHeapObject

  // ---------- every byte accounted for ----------

  /** The payload bytes of the used blocks among all but the last of b. */
  function Taken(b: seq<int>, used: set<int>): int {
    if |b| < 2 then 0 else (if b[0] in used then b[1] - b[0] - HDR else 0) + Taken(b[1..], used)
  }

  lemma {:induction false} Telescope(b: seq<int>, used: set<int>)
    requires |b| >= 1
    ensures Sum(b, used) + Taken(b, used) + HDR * (|b| - 1) == b[|b| - 1] - b[0]
  {
    if |b| >= 2 { Telescope(b[1..], used); }
  }

  /** The pool is what is available, what is in use, and a header for each block. */
  lemma Accounting(h: Heap)
    requires CoreInv(h)
    ensures h.avail + Taken(h.blocks, h.used) + HDR * |h.blocks| == h.size
  {
    Telescope(h.blocks, h.used);
  }

  // ---------- rt_memheap_alloc ----------

  /** The first block on the free ring with room for n bytes. */
  ghost predicate FirstWithRoom(h: Heap, x: int, n: int)
    requires CoreInv(h)
  {
    exists j :: 0 <= j < |h.free| && h.free[j] == x && Room(h, x) >= n && forall k :: 0 <= k < j ==> Room(h, h.free[k]) < n
  }

  /** The payload of an unused block. */
  ghost function Room(h: Heap, x: int): int
    requires CoreInv(h)
  {
    if x in h.free then FreeBlock(h, x); Payload(h, x) else -1
  }

  /** Is a block of have bytes worth splitting when n are wanted? */
  predicate Worth(have: int, n: int) { have >= n + HDR + MINI }

  function One(b: bool): int { if b then 1 else 0 }

  /** h1 is h with n bytes taken from the unused block x: exactly as many, unless the rest would not do for a block of
      its own. The rest goes to the front of the ring. */
  ghost predicate Allotted(h: Heap, h1: Heap, x: int, n: int)
    requires CoreInv(h) && CoreInv(h1)
  {
    var have := Room(h, x);
    && x in Live(h1) && |Live(h1)[x]| == (if Worth(have, n) then n else have)
    && h1.avail == h.avail - |Live(h1)[x]| - HDR * One(Worth(have, n)) && |h1.blocks| == |h.blocks| + One(Worth(have, n))
    && h1.free == (if Worth(have, n) then [x + HDR + n] else []) + Without(h.free, x)
    && h1.maxUsed == Max(h.maxUsed, h1.size - h1.avail) && h1.size == h.size
  }

  /** The first block on the ring with room, and less than 36 bytes more of it than n. */
  ghost predicate TakenFirst(h: Heap, h1: Heap, x: int, n: int) {
    CoreInv(h) && CoreInv(h1) && FirstWithRoom(h, x, n) && Allotted(h, h1, x, n) && n <= |Live(h1)[x]| < n + HDR + MINI
  }

  /** rt_memheap_alloc takes the first block on the free ring that is large enough, and less than 36 bytes more of it
      than the rounded request. */
  lemma AllocTakes(h: Heap, request: int)
    requires HeapInv(h) && 0 <= request < WORD && Alloc(h, request).1 != NULL
    ensures TakenFirst(h, Alloc(h, request).0, Alloc(h, request).1 - HDR, Request(request))
  {
    hide CoreInv, Request, Carve, Tiled, Payload, NoAdjacentFree, Live, Block;
    AllocSpec(h, request);
    InvTiled(h);
    var n := Request(request);
    FirstFitBounds(h, 0, n);
    var j := FirstFit(h, 0, n);
    var x := h.free[j];
    FreeBlock(h, x);
    forall k | 0 <= k < j ensures Room(h, h.free[k]) < n { RoomIs(h, h.free[k]); }
    RoomIs(h, x);
    CarveTakes(h, x, n);
  }

  lemma RoomIs(h: Heap, x: int)
    requires CoreInv(h) && x in h.free
    ensures Tiled(h.blocks, h.size) && Block(h, x) && Room(h, x) == Payload(h, x)
  {
    hide CoreInv;
    FreeBlock(h, x);
  }

  lemma CarveTakes(h: Heap, x: int, n: int)
    requires HeapInv(h) && x in h.free && n >= MINI && n % 4 == 0 && Room(h, x) >= n
    requires Tiled(h.blocks, h.size) && Block(h, x) && HeapInv(Carve(h, x, n)) && x in Live(Carve(h, x, n))
    ensures Allotted(h, Carve(h, x, n), x, n)
  {
    hide CoreInv, Tiled, Live, Without, Content, Ins, NoAdjacentFree;
    var h1, i := Carve(h, x, n), IndexOf(h.blocks, x);
    RoomIs(h, x);
    LiveHas(h1, x);
    InvTiled(h1);
    TailLast(h, i);
    NextAt(h, i);
    hide IndexOf, Block;
    PayloadIs(h1, x);
    if Worth(Room(h, x), n) { InsNext(h, h1, i, x + HDR + n); InsLength(h.blocks, i, x + n + HDR); } else { SamePayload(h, h1, x); }
  }

  lemma InsLength(b: seq<int>, i: nat, n: int)
    requires i < |b|
    ensures |Ins(b, i, n)| == |b| + 1
  {
  }

  // ---------- rt_memheap_free ----------

  /** Is the block before x unused? */
  ghost predicate LeftUnused(h: Heap, x: int)
    requires Tiled(h.blocks, h.size)
  {
    exists y :: y in h.free && Block(h, y) && Next(h, y) == x
  }

  /** Is the block after x? */
  ghost predicate RightUnused(h: Heap, x: int)
    requires Tiled(h.blocks, h.size) && Block(h, x)
  {
    Next(h, x) in h.free
  }

  /** x is given back: its bytes, and a header for each unused neighbour. The block is put at the front of the ring, or
      has become part of the unused block before it. */
  ghost predicate GivenBack(h: Heap, h1: Heap, x: int) {
    && CoreInv(h) && Tiled(h.blocks, h.size) && Block(h, x) && x in Live(h)
    && var l, r := LeftUnused(h, x), RightUnused(h, x);
       && h1.avail == h.avail + |Live(h)[x]| + HDR * (One(l) + One(r)) && |h1.blocks| == |h.blocks| - One(l) - One(r)
       && h1.free == (if l then [] else [x]) + (if r then Without(h.free, Next(h, x)) else h.free)
       && h1.used == h.used - {x} && h1.maxUsed == h.maxUsed && h1.size == h.size
  }

  lemma FreeGives(h: Heap, x: int)
    requires HeapInv(h) && x in h.used && x != h.size - HDR
    ensures GivenBack(h, Free(h, x), x)
  {
    hide CoreInv, NoAdjacentFree, Free, Tiled, IndexOf, Del, Without, Live;
    BlockIndex(h, x);
    LiveHas(h, x);
    PayloadIs(h, x);
    var i := IndexOf(h.blocks, x);
    O.MemHeapObj.FreeIs(h, x, i);
    Beside(h, i);
    if i > 0 && h.blocks[i - 1] !in h.used { DelLength(h.blocks, i); }
    var b := if i > 0 && h.blocks[i - 1] !in h.used then Del(h.blocks, i) else h.blocks;
    DelLength(b, if i > 0 && h.blocks[i - 1] !in h.used then i else i + 1);
  }

  lemma DelLength(b: seq<int>, i: nat)
    requires i < |b|
    ensures |Del(b, i)| == |b| - 1
  {
  }

  /** The neighbours of the block at i. */
  lemma Beside(h: Heap, i: nat)
    requires HeapInv(h) && i + 1 < |h.blocks|
    ensures Tiled(h.blocks, h.size) && Block(h, h.blocks[i]) && Next(h, h.blocks[i]) == h.blocks[i + 1]
    ensures LeftUnused(h, h.blocks[i]) <==> i > 0 && h.blocks[i - 1] !in h.used
    ensures RightUnused(h, h.blocks[i]) <==> h.blocks[i + 1] !in h.used
  {
    InvTiled(h);
    NextAt(h, i);
    Unused(h);
    hide CoreInv, NoAdjacentFree, Next;
    if i > 0 {
      NextAt(h, i - 1);
      assert h.blocks[i - 1] !in h.used ==> h.blocks[i - 1] in h.free;
    }
    if LeftUnused(h, h.blocks[i]) {
      var y :| y in h.free && Block(h, y) && Next(h, y) == h.blocks[i];
      OneBefore(h, y, i);
    }
  }

  lemma Unused(h: Heap)
    requires CoreInv(h)
    ensures forall x :: x in h.free <==> x in h.blocks && x !in h.used
  {
    hide Tiled, HeadersOk, Sum;
  }

  lemma OneBefore(h: Heap, y: int, i: nat)
    requires Tiled(h.blocks, h.size) && Block(h, y) && i < |h.blocks| && Next(h, y) == h.blocks[i]
    ensures i > 0 && h.blocks[i - 1] == y
  {
    var k := IndexOf(h.blocks, y);
    TailLast(h, k);
    TiledNoDup(h.blocks, h.size);
  }

  // ---------- rt_memheap_realloc ----------

  /** What an allocation of n bytes would find. */
  ghost predicate Refused(h: Heap, n: int)
    requires CoreInv(h)
  {
    n >= h.avail || forall x :: x in h.free ==> Room(h, x) < n
  }

  /** Can the block x grow to n bytes where it is, a least block and more being left of the next one? */
  ghost predicate CanGrow(h: Heap, x: int, n: int)
    requires HeapInv(h) && Tiled(h.blocks, h.size) && Block(h, x)
  {
    RightUnused(h, x) && Payload(h, x) + Room(h, Next(h, x)) > n + MINI
  }

  /** What rt_memheap_realloc answers and leaves for the block x and n, the size asked for in rounded form. */
  ghost predicate ReallocAnswer(h: Heap, h1: Heap, p: int, x: int, n: int) {
    && HeapInv(h) && HeapInv(h1) && Tiled(h.blocks, h.size) && Block(h, x) && x in Live(h)
    && var have := |Live(h)[x]|;
       if have > n + HDR + MINI then ShrunkTo(h, h1, p, x, n)
       else if have >= n then h1 == h && p == x + HDR
       else if CanGrow(h, x, n) then GrownTo(h, h1, p, x, n)
       else if Refused(h, n) then h1 == h && p == NULL
       else MovedTo(h, h1, p, x, n)
  }

  /** The block is cut to exactly n bytes; with the rest goes a header's worth if no unused block follows. */
  ghost predicate ShrunkTo(h: Heap, h1: Heap, p: int, x: int, n: int)
    requires HeapInv(h) && HeapInv(h1) && Tiled(h.blocks, h.size) && Block(h, x) && x in Live(h)
  {
    && p == x + HDR && x in Live(h1) && |Live(h1)[x]| == n
    && h1.avail == h.avail + (|Live(h)[x]| - n) - (if RightUnused(h, x) then 0 else HDR)
    && h1.free == [x + HDR + n] + (if RightUnused(h, x) then Without(h.free, Next(h, x)) else h.free)
  }

  /** The block has exactly n bytes, and what it grew by comes off the next one. */
  ghost predicate GrownTo(h: Heap, h1: Heap, p: int, x: int, n: int)
    requires HeapInv(h) && HeapInv(h1) && Tiled(h.blocks, h.size) && Block(h, x) && x in Live(h)
  {
    && p == x + HDR && x in Live(h1) && |Live(h1)[x]| == n && h1.avail == h.avail - (n - |Live(h)[x]|)
    && h1.free == [x + HDR + n] + Without(h.free, Next(h, x))
  }

  /** The first block on the ring with room has taken its place, and x has been given back. */
  ghost predicate MovedTo(h: Heap, h1: Heap, p: int, x: int, n: int)
    requires HeapInv(h) && HeapInv(h1) && x in Live(h)
  {
    && FirstWithRoom(h, p - HDR, n) && p - HDR in Live(h1) && x !in Live(h1) && n <= |Live(h1)[p - HDR]| < n + HDR + MINI
    && |Live(h1)[p - HDR]| == (if Worth(Room(h, p - HDR), n) then n else Room(h, p - HDR))
    && h1.avail == h.avail + |Live(h)[x]| - |Live(h1)[p - HDR]| + HDR * (|h.blocks| - |h1.blocks|)
  }

  /** rt_memheap_realloc of a live block, to a size other than zero. */
  lemma ReallocTakes(h: Heap, x: int, newsize: int)
    requires HeapInv(h) && x in h.used && x != h.size - HDR && 0 < newsize < WORD && GrowthSafe(h, x, Request(newsize))
    ensures ReallocAnswer(h, Realloc(h, x, newsize).0, Realloc(h, x, newsize).1, x, Request(newsize))
  {
    hide CoreInv, NoAdjacentFree, Live, Request, Grow, Shrink, Move, Resized, IndexOf, Tiled, ShrunkTo, GrownTo, MovedTo,
         CanGrow, Refused;
    ReallocSpec(h, x, newsize);
    BlockIndex(h, x);
    PayloadIs(h, x);
    LiveHas(h, x);
    RequestAligned(newsize);
    var i, n := IndexOf(h.blocks, x), Request(newsize);
    Beside(h, i);
    CanGrowAt(h, i, n);
    if n > Payload(h, x) {
      if Grows(h, i, n) {
        UnusedNotTail(h, i + 1);
        PlainReach(h, i, n);
        GrowTakes(h, i, n);
      } else {
        MoveTakes(h, x, n);
      }
    } else if n + HDR + MINI < Payload(h, x) {
      ShrinkTakes(h, i, n);
    }
  }

  lemma CanGrowAt(h: Heap, i: nat, n: int)
    requires HeapInv(h) && i + 1 < |h.blocks| && Tiled(h.blocks, h.size) && Block(h, h.blocks[i]) && 0 <= n
    requires Next(h, h.blocks[i]) == h.blocks[i + 1] && (n + MINI < WORD || h.blocks[i + 1] in h.used)
    ensures CanGrow(h, h.blocks[i], n) <==> Grows(h, i, n)
  {
    hide Tiled, NoAdjacentFree, CoreInv, Block;
    Unused(h);
    if h.blocks[i + 1] !in h.used {
      UnusedNotTail(h, i + 1);
      RoomIs(h, h.blocks[i + 1]);
      NextAt(h, i + 1);
    }
  }

  lemma ShrinkTakes(h: Heap, i: nat, n: int)
    requires HeapInv(h) && i + 1 < |h.blocks| && h.blocks[i] in h.used && n % 4 == 0 && n >= 0
    requires h.blocks[i] + HDR + n + HDR <= h.blocks[i + 1]
    ensures Tiled(h.blocks, h.size) && Block(h, h.blocks[i]) && h.blocks[i] in Live(h) && HeapInv(Shrink(h, i, n))
    ensures ShrunkTo(h, Shrink(h, i, n), h.blocks[i] + HDR, h.blocks[i], n)
  {
    hide CoreInv, NoAdjacentFree, Tiled, Live, Content, Without, Del, Ins, AdjacentOnly, Next, Block, Resized, LeftUnused;
    ShrinkSpec(h, i, n);
    Beside(h, i);
    var x, h1 := h.blocks[i], CutTail(h, i, n);
    InvTiled(h);
    GapLeast(h, i);
    CutTailCore(h, i, n);
    InvTiled(h1);
    InsAt(h.blocks, i, x + HDR + n);
    CutIsFree(h, i, n);
    RightInv(h1, i + 1);
    InsNext(h, h1, i, x + HDR + n);
    CutNotNull(h1, x);
    var h2 := Right(h1, i + 1);
    LiveHas(h, x);
    PayloadIs(h, x);
    LiveHas(h2, x);
    PayloadIs(h2, x);
    KeptNext(h1, h2, x);
    FreeTwice(h, i, n);
  }

  lemma CutNotNull(h: Heap, x: int)
    requires Tiled(h.blocks, h.size) && Block(h, x)
    ensures x != NULL
  {
    NotNull(h, x);
  }

  lemma KeptNext(h: Heap, h1: Heap, x: int)
    requires Tiled(h.blocks, h.size) && Tiled(h1.blocks, h1.size) && Untouched(h, h1, NULL) && x in h.used && Block(h, x) && x != NULL
    ensures Block(h1, x) && Next(h1, x) == Next(h, x)
  {
    hide Tiled, Block, Next;
  }

  /** The ring after the rest was put in front and the next block, if unused, taken out. */
  lemma FreeTwice(h: Heap, i: nat, n: int)
    requires HeapInv(h) && i + 1 < |h.blocks| && h.blocks[i] in h.used && n % 4 == 0 && n >= 0
    requires h.blocks[i] + HDR + n + HDR <= h.blocks[i + 1]
    ensures var z, y := h.blocks[i] + HDR + n, h.blocks[i + 1]; var h2 := Shrink(h, i, n);
      && h2.free == [z] + (if y in h.used then h.free else Without(h.free, y))
      && h2.avail == h.avail + (y - z - HDR) + (if y in h.used then 0 else HDR)
  {
    hide CoreInv, NoAdjacentFree, Ins, Del, Stamp, Without;
    O.MemHeapObj.ShrinkPlace(h, i, n);
  }

  lemma GrowTakes(h: Heap, i: nat, n: int)
    requires HeapInv(h) && i + 2 < |h.blocks| && h.blocks[i] in h.used && h.blocks[i + 1] !in h.used && n % 4 == 0
    requires h.blocks[i + 1] - h.blocks[i] - HDR < n && h.blocks[i] + HDR + n + HDR <= h.blocks[i + 2]
    ensures Tiled(h.blocks, h.size) && Block(h, h.blocks[i]) && h.blocks[i] in Live(h) && HeapInv(Grow(h, i, n))
    ensures GrownTo(h, Grow(h, i, n), h.blocks[i] + HDR, h.blocks[i], n)
  {
    hide CoreInv, NoAdjacentFree, Tiled, Live, Content, Without, Del, Ins, AdjacentOnly, Next, Block, Resized;
    GrowSpec(h, i, n);
    Beside(h, i);
    var x, h1 := h.blocks[i], Absorb(h, i + 1);
    InvTiled(h);
    GapLeast(h, i);
    AbsorbCore(h, i + 1);
    InvTiled(h1);
    DelAt(h.blocks, i + 1);
    CutTailCore(h1, i, n);
    var h2 := CutTail(h1, i, n);
    InvTiled(h2);
    InsNext(h1, h2, i, x + HDR + n);
    var h3 := Mark(h2);
    SamePayload(h2, h3, x);
    LiveHas(h, x);
    PayloadIs(h, x);
    LiveHas(h3, x);
    PayloadIs(h3, x);
  }

  lemma MoveTakes(h: Heap, x: int, n: int)
    requires HeapInv(h) && x in h.used && x != h.size - HDR && 0 <= n < WORD && n == Request(n)
    requires Tiled(h.blocks, h.size) && Block(h, x) && n > Payload(h, x)
    ensures x in Live(h) && HeapInv(Move(h, x, n).0)
    ensures Refused(h, n) <==> Move(h, x, n).1 == NULL
    ensures Refused(h, n) ==> Move(h, x, n).0 == h
    ensures !Refused(h, n) ==> MovedTo(h, Move(h, x, n).0, Move(h, x, n).1, x, n)
  {
    hide CoreInv, NoAdjacentFree, Tiled, Payload, Live, Block, Request, Free, Copy, FirstWithRoom, Resized;
    MoveSpec(h, x, n);
    RefusedIff(h, n);
    var (h1, p) := Alloc(h, n);
    if p != NULL {
      MoveReady(h, x, n);
      AllocSpec(h, n);
      AllocTakes(h, n);
      hide Alloc;
      var h2 := h1.(bytes := Copy(h1.bytes, p, x + HDR, Payload(h, x)));
      MovedSizes(h, h1, h2, x, p - HDR, n);
    }
  }

  lemma RefusedIff(h: Heap, n: int)
    requires HeapInv(h) && n == Request(n)
    ensures Refused(h, n) <==> Alloc(h, n).1 == NULL
  {
    hide CoreInv, NoAdjacentFree, Request, Alloc, Payload, Block, Tiled;
    AllocFailsIff(h, n);
    forall x | x in h.free ensures Block(h, x) && Room(h, x) == Payload(h, x) { RoomIs(h, x); }
  }

  /** Copying changes no size, and giving x back no other block's. */
  lemma MovedSizes(h: Heap, h1: Heap, h2: Heap, x: int, z: int, n: int)
    requires HeapInv(h) && HeapInv(h1) && HeapInv(h2) && x in h.used && x != h.size - HDR && x in h2.used && h2.size == h.size
    requires Added(h, h1, z, n) && TakenFirst(h, h1, z, n) && h2 == h1.(bytes := h2.bytes)
    requires Tiled(h.blocks, h.size) && Block(h, x)
    ensures x in Live(h) && HeapInv(Free(h2, x)) && MovedTo(h, Free(h2, x), z + HDR, x, n)
  {
    hide CoreInv, NoAdjacentFree, Tiled, Live, Content, Block, Next, Request, FirstWithRoom, Free, LeftUnused, RightUnused;
    LiveHas(h, x);
    LiveHas(h1, x);
    LiveHas(h1, z);
    FreeSpec(h2, x);
    FreeGives(h2, x);
    assert x in Live(h1) && Live(h1)[x] == Live(h)[x];
    SameSize(h1, h2, x);
    SameSize(h1, h2, z);
  }

  lemma SameSize(h: Heap, h1: Heap, x: int)
    requires CoreInv(h) && CoreInv(h1) && h1 == h.(bytes := h1.bytes) && x in Live(h)
    ensures x in Live(h1) && |Live(h1)[x]| == |Live(h)[x]|
  {
    hide CoreInv, Tiled, Live, Content, Block, Next;
    LiveHas(h, x);
    LiveHas(h1, x);
    PayloadIs(h, x);
    PayloadIs(h1, x);
    SamePayload(h, h1, x);
  }

  /** The whole of rt_memheap_realloc: of nothing it is an allocation, and to nothing a release. */
  ghost predicate CallAnswer(h: Heap, h1: Heap, p: int, ptr: int, newsize: int) {
    && HeapInv(h)
    && if newsize == 0 then p == NULL && (if ptr == NULL then h1 == h else GivenBack(h, h1, ptr - HDR))
       else if ptr != NULL then ReallocAnswer(h, h1, p, ptr - HDR, Request(newsize))
       else if Refused(h, Request(newsize)) then h1 == h && p == NULL
       else p != NULL && TakenFirst(h, h1, p - HDR, Request(newsize))
  }

  lemma CallTakes(h: Heap, ptr: int, newsize: int)
    requires O.Callable(h, ptr, newsize) && O.SafeCall(h, ptr, newsize)
    ensures CallAnswer(h, O.ReallocCall(h, ptr, newsize).0, O.ReallocCall(h, ptr, newsize).1, ptr, newsize)
  {
    hide HeapInv, Alloc, Free, Realloc, Request, GrowthSafe, GivenBack, ReallocAnswer, TakenFirst, Refused;
    RequestAligned(newsize);
    if newsize == 0 {
      if ptr != NULL { FreeGives(h, ptr - HDR); }
    } else if ptr != NULL {
      ReallocTakes(h, ptr - HDR, newsize);
    } else {
      RefusedIff(h, Request(newsize));
      AllocSpec(h, Request(newsize));
      if Alloc(h, Request(newsize)).1 != NULL { AllocTakes(h, Request(newsize)); }
    }
  }
}
