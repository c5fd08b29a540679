/** What rt_malloc, rt_free and rt_realloc of rt-thread/src/mem.c take and give back, to the byte, whether lfree is the
    lowest free block or not. */
module SmallMemAnswers {
  import opened Seqs
  import opened Tiles
  import opened SmallMem

  /** Is y a free block with room for n bytes where rt_malloc looks: from lfree on, below mem_size_aligned - n? */
  ghost predicate RoomAt(s: Sm, y: int, n: int) {
    && y in s.blocks && y !in s.used && s.lfree <= y < s.m - n && y in s.next && s.next[y] - y - SM >= n
  }

  /** The first such block. */
  ghost predicate FirstRoom(s: Sm, x: int, n: int) { RoomAt(s, x, n) && forall y :: RoomAt(s, y, n) ==> x <= y }

  /** Is a block of have bytes split when n are wanted? */
  predicate Worth(have: int, n: int) { have >= n + SM + MIN }

  /** s1 is s with block x in use: for n bytes, unless the rest would not do for a block; used_mem counts it and its
      header, and max_mem keeps up. */
  ghost predicate Allotted(s: Sm, s1: Sm, x: int, n: int)
    requires ChainInv(s) && ChainInv(s1)
  {
    && x in s.next && x in Live(s1) && x !in s.used && s1.used == s.used + {x}
    && |Live(s1)[x]| == (if Worth(s.next[x] - x - SM, n) then n else s.next[x] - x - SM)
    && s1.usedMem == s.usedMem + |Live(s1)[x]| + SM && s1.maxMem == Max(s.maxMem, s1.usedMem)
    && (s.lfree != x ==> s1.lfree == s.lfree)
  }

  lemma {:induction false} SearchFirst(s: Sm, n: int, i: nat)
    requires ChainInv(s) && i < |s.blocks| && n >= MIN
    ensures var j := Search(s.blocks, s.used, s.m - n, n, i);
      (j < |s.blocks| ==> s.blocks[j] in s.next && s.next[s.blocks[j]] - s.blocks[j] - SM >= n)
      && forall k :: i <= k < |s.blocks| && k < j && s.blocks[k] !in s.used && s.blocks[k] < s.m - n && s.blocks[k] in s.next ==>
           s.next[s.blocks[k]] - s.blocks[k] - SM < n
    decreases |s.blocks| - i
  {
    hide ChainInv;
    if i + 1 < |s.blocks| { ChainPlace(s, i); }
    LastBlock(s, i);
    if s.blocks[i] < s.m - n && i + 1 < |s.blocks| {
      if s.blocks[i] in s.used || s.blocks[i + 1] - (s.blocks[i] + SM) < n { SearchFirst(s, n, i + 1); }
    } else if i + 1 < |s.blocks| {
      forall k | i <= k < |s.blocks| ensures s.blocks[k] >= s.m - n { if k > i { InOrder(s, i, k); } }
    }
  }

  lemma LastBlock(s: Sm, i: nat)
    requires ChainInv(s) && i < |s.blocks|
    ensures i + 1 == |s.blocks| ==> s.blocks[i] == s.End()
  {
  }

  lemma InOrder(s: Sm, i: nat, k: nat)
    requires ChainInv(s) && i < k < |s.blocks|
    ensures s.blocks[i] < s.blocks[k]
  {
  }

  /** What the search from lfree finds. */
  lemma SearchAnswer(s: Sm, n: int)
    requires CoreInv(s) && n >= MIN
    ensures s.lfree in s.blocks
    ensures var j := Search(s.blocks, s.used, s.m - n, n, IndexOf(s.blocks, s.lfree));
      if j < |s.blocks| then FirstRoom(s, s.blocks[j], n) else forall y :: !RoomAt(s, y, n)
  {
    hide ChainInv, LfreeOk, Search;
    LfreeIn(s);
    var i := IndexOf(s.blocks, s.lfree);
    var j := Search(s.blocks, s.used, s.m - n, n, i);
    SearchFirst(s, n, i);
    forall y | RoomAt(s, y, n) ensures j < |s.blocks| && s.blocks[j] <= y {
      var k := IndexOf(s.blocks, y);
      if k < i { InOrder(s, k, i); }
      if j < k { InOrder(s, j, k); }
    }
    if j < |s.blocks| && i < j { InOrder(s, i, j); }
  }

  /** rt_malloc fails iff nothing or too much is asked for, or there is no room where it looks. */
  lemma MallocNullIff(s: Sm, size: int)
    requires HeapInv(s) && 0 <= size < WORD
    ensures Malloc(s, size).1 == NULL <==> size == 0 || Align(size) > s.m || forall y :: !RoomAt(s, y, Request(size))
  {
    hide ChainInv, NoAdjacentFree, LfreeOk, Search, Take, Request, RoomAt, FirstRoom;
    LfreeIn(s);
    var n := Request(size);
    SearchAnswer(s, n);
    var j := Search(s.blocks, s.used, s.m - n, n, IndexOf(s.blocks, s.lfree));
    if j < |s.blocks| {
      FirstIsRoom(s, s.blocks[j], n);
      NotNull(s, s.blocks[j]);
    }
  }

  lemma FirstIsRoom(s: Sm, x: int, n: int)
    requires FirstRoom(s, x, n)
    ensures RoomAt(s, x, n)
  {
  }

  lemma NotNull(s: Sm, x: int)
    requires ChainInv(s) && x in s.blocks
    ensures x >= 0 && x + SM != NULL
  {
    var i := IndexOf(s.blocks, x);
    if i > 0 { InOrder(s, 0, i); }
  }

  ghost predicate TakenFirst(s: Sm, s1: Sm, x: int, n: int) {
    ChainInv(s) && ChainInv(s1) && FirstRoom(s, x, n) && Allotted(s, s1, x, n)
  }

  /** Otherwise it takes the first block with room. */
  lemma MallocTakes(s: Sm, size: int)
    requires HeapInv(s) && 0 <= size < WORD && Malloc(s, size).1 != NULL
    ensures TakenFirst(s, Malloc(s, size).0, Malloc(s, size).1 - SM, Request(size))
  {
    hide ChainInv, NoAdjacentFree, LfreeOk, Search, Take, Request, FirstRoom, Live;
    MallocSpec(s, size);
    LfreeIn(s);
    var n := Request(size);
    SearchAnswer(s, n);
    var j := Search(s.blocks, s.used, s.m - n, n, IndexOf(s.blocks, s.lfree));
    ChainPlace(s, j);
    TakeTakes(s, j, n);
  }

  lemma TakeTakes(s: Sm, i: nat, n: int)
    requires HeapInv(s) && i + 1 < |s.blocks| && s.blocks[i] !in s.used && n >= MIN && n % 4 == 0
    requires s.blocks[i + 1] - (s.blocks[i] + SM) >= n && HeapInv(Take(s, i, n)) && s.blocks[i] in Live(Take(s, i, n))
    ensures Allotted(s, Take(s, i, n), s.blocks[i], n)
  {
    hide ChainInv, NoAdjacentFree, LfreeOk, Live, Ins, Stamp, Advance;
    var x, s1 := s.blocks[i], Take(s, i, n);
    ChainPlace(s, i);
    LiveHas(s1, x);
    if Worth(s.next[x] - x - SM, n) { InsTiledHere(s, i, x + SM + n); }
  }

  // ---------- rt_free ----------

  /** rt_free gives back the block and its header, and no other; max_mem stays. */
  ghost predicate GivenBack(s: Sm, s1: Sm, x: int) {
    && ChainInv(s) && x in Live(s) && s1.used == s.used - {x} && s1.usedMem == s.usedMem - |Live(s)[x]| - SM
    && s1.maxMem == s.maxMem && s1.lfree <= x && s1.lfree <= s.lfree
  }

  lemma FreeGives(s: Sm, x: int)
    requires HeapInv(s) && x in s.used && x != s.End()
    ensures GivenBack(s, Free(s, x), x)
  {
    hide ChainInv, NoAdjacentFree, LfreeOk, Live, Plug;
    LiveHas(s, x);
    UsedAt(s, x);
    var i := IndexOf(s.blocks, x);
    hide IndexOf;
    ReleaseOrder(s, i);
    PlugFrame(Release(s, i), i);
  }

  lemma ReleaseOrder(s: Sm, i: nat)
    requires ChainInv(s) && i + 1 < |s.blocks|
    ensures i > 0 ==> s.blocks[i - 1] < s.blocks[i]
    ensures s.blocks[i] < s.blocks[i + 1]
  {
  }

  /** plug_holes moves lfree down only. */
  lemma PlugFrame(s: Sm, i: nat)
    requires i + 1 < |s.blocks| && s.blocks[i] < s.blocks[i + 1] && (i > 0 ==> s.blocks[i - 1] < s.blocks[i])
    ensures var s1 := Plug(s, i); s1.used == s.used && s1.usedMem == s.usedMem && s1.maxMem == s.maxMem && s1.lfree <= s.lfree
  {
    hide Del;
    if s.blocks[i + 1] !in s.used && i + 2 < |s.blocks| { DelBefore(s.blocks, i + 1); }
  }

  lemma DelBefore(b: seq<int>, i: nat)
    requires 0 < i < |b|
    ensures Del(b, i)[i - 1] == b[i - 1] && (i > 1 ==> Del(b, i)[i - 2] == b[i - 2]) && |Del(b, i)| == |b| - 1
  {
  }

  // ---------- rt_realloc ----------

  /** What rt_realloc answers for the block x, and leaves. */
  ghost predicate ReallocAnswer(s: Sm, s1: Sm, p: int, x: int, newsize: int) {
    && HeapInv(s) && HeapInv(s1) && x in Live(s)
    && var n, have := Align(newsize), |Live(s)[x]|;
       if n > s.m then s1 == s && p == NULL
       else if n == 0 then p == NULL && GivenBack(s, s1, x)
       else if have == n then s1 == s && p == x + SM
       else if have > n + SM + MIN then
         p == x + SM && x in Live(s1) && |Live(s1)[x]| == n && s1.used == s.used && s1.usedMem == s.usedMem - (have - n)
       else if forall y :: !RoomAt(s, y, Request(n)) then s1 == s && p == NULL
       else MovedTo(s, s1, x, p - SM, n)
  }

  /** The first block with room has taken the place of x, which has been given back. */
  ghost predicate MovedTo(s: Sm, s1: Sm, x: int, z: int, n: int)
    requires HeapInv(s) && HeapInv(s1) && x in Live(s)
  {
    && FirstRoom(s, z, Request(n)) && z in Live(s1) && s1.used == s.used - {x} + {z} && x != z
    && |Live(s1)[z]| == (if Worth(s.next[z] - z - SM, Request(n)) then Request(n) else s.next[z] - z - SM)
    && s1.usedMem == s.usedMem + |Live(s1)[z]| - |Live(s)[x]|
  }

  lemma ReallocTakes(s: Sm, x: int, newsize: int)
    requires HeapInv(s) && x in Live(s) && 0 <= newsize < WORD
    ensures ReallocAnswer(s, Realloc(s, x, newsize).0, Realloc(s, x, newsize).1, x, newsize)
  {
    hide ChainInv, NoAdjacentFree, LfreeOk, Live, Lowest, Free, Shrink, Move, GivenBack, MovedTo, RoomAt, Resized, IndexOf;
    ReallocSpec(s, x, newsize);
    LiveHas(s, x);
    RequestCovers(newsize);
    UsedAt(s, x);
    LivePayload(s, x);
    var n, i := Align(newsize), IndexOf(s.blocks, x);
    if n > s.m {
    } else if n == 0 {
      FreeGives(s, x);
    } else if |Live(s)[x]| > n + SM + MIN {
      ShrinkTakes(s, i, n);
    } else if |Live(s)[x]| != n {
      MoveTakes(s, x, n);
    }
  }

  lemma LivePayload(s: Sm, x: int)
    requires ChainInv(s) && x in Live(s)
    ensures x in s.next && |Live(s)[x]| == s.next[x] - x - SM
  {
    LiveHas(s, x);
  }

  lemma ShrinkTakes(s: Sm, i: nat, n: int)
    requires HeapInv(s) && i + 1 < |s.blocks| && s.blocks[i] in s.used && n % 4 == 0 && n >= 0
    requires s.blocks[i] + SM + n + SM <= s.blocks[i + 1]
    ensures var s1, x := Shrink(s, i, n), s.blocks[i];
      && HeapInv(s1) && x in Live(s) && x in Live(s1) && |Live(s1)[x]| == n && s1.used == s.used
      && s1.usedMem == s.usedMem - (|Live(s)[x]| - n)
  {
    hide ChainInv, NoAdjacentFree, LfreeOk, Live, Lowest, Kept, Plug, Untouched, Ins, Resized;
    ShrinkSpec(s, i, n);
    ShrinkInv(s, i, n);
    ChainPlace(s, i);
    var x, z := s.blocks[i], s.blocks[i] + SM + n;
    LiveHas(s, x);
    LivePayload(s, x);
    var s1, s2 := CutTail(s, i, n), Shrink(s, i, n);
    LiveHas(s2, x);
    LivePayload(s2, x);
    UntouchedAt(s1, s2, x);
    InsTiledHere(s, i, z);
    CutUsed(s, i, n);
  }

  lemma CutUsed(s: Sm, i: nat, n: int)
    requires ChainInv(s) && i + 1 < |s.blocks| && s.blocks[i] + SM + n + SM <= s.blocks[i + 1]
    ensures Shrink(s, i, n).usedMem == CutTail(s, i, n).usedMem
    ensures n >= 0 ==> s.blocks[i] in CutTail(s, i, n).next && CutTail(s, i, n).next[s.blocks[i]] == s.blocks[i] + SM + n
  {
    hide Ins, Del, Stamp;
  }

  lemma MoveTakes(s: Sm, x: int, n: int)
    requires HeapInv(s) && x in Live(s) && 0 < n <= s.m && Align(n) == n && |Live(s)[x]| != n && |Live(s)[x]| <= n + SM + MIN
    ensures HeapInv(Move(s, x, n).0)
    ensures Move(s, x, n).1 == NULL <==> forall y :: !RoomAt(s, y, Request(n))
    ensures Move(s, x, n).1 == NULL ==> Move(s, x, n).0 == s
    ensures Move(s, x, n).1 != NULL ==> MovedTo(s, Move(s, x, n).0, x, Move(s, x, n).1 - SM, n)
  {
    hide ChainInv, NoAdjacentFree, LfreeOk, Live, Request, Malloc, Free, Copy, Keep, RoomAt, FirstRoom, Resized;
    BelowWord(s);
    MoveSpec(s, x, n);
    MallocNullIff(s, n);
    MoveReady(s, x, n);
    MallocSpec(s, n);
    var (s1, p) := Malloc(s, n);
    if p != NULL {
      MallocTakes(s, n);
      var s2 := s1.(bytes := Copy(s1.bytes, p, x + SM, Keep(s, x, n)));
      MovedSizes(s, s1, s2, x, p - SM, n);
    }
  }

  lemma BelowWord(s: Sm)
    requires ChainInv(s)
    ensures s.m < WORD
  {
  }

  lemma MovedSizes(s: Sm, s1: Sm, s2: Sm, x: int, z: int, n: int)
    requires HeapInv(s) && HeapInv(s1) && HeapInv(s2) && x in Live(s) && x in s2.used && x != s2.End()
    requires Added(s, s1, z, n) && TakenFirst(s, s1, z, Request(n)) && s2 == s1.(bytes := s2.bytes)
    ensures HeapInv(Free(s2, x)) && MovedTo(s, Free(s2, x), x, z, n)
  {
    hide ChainInv, NoAdjacentFree, LfreeOk, Live, Request, Free, FirstRoom;
    LiveHas(s, x);
    assert x in Live(s1) && Live(s1)[x] == Live(s)[x];
    SameSize(s1, s2, x);
    SameSize(s1, s2, z);
    FreeSpec(s2, x);
    FreeGives(s2, x);
  }

  lemma SameSize(s: Sm, s1: Sm, x: int)
    requires ChainInv(s) && ChainInv(s1) && s1 == s.(bytes := s1.bytes) && x in Live(s)
    ensures x in Live(s1) && |Live(s1)[x]| == |Live(s)[x]|
  {
    hide ChainInv, Live;
    LivePayload(s, x);
    LiveHas(s, x);
    LiveHas(s1, x);
  }
}
