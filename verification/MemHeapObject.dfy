/** rt-thread/src/memheap.c as it runs: block headers whose links are rewritten one by one. */
module MemHeapObject {
  import opened Seqs
  import opened Tiles
  import opened MapRing
  import opened MemHeap

  /** free_header, as a node of the free ring. */
  const LIST: int := -1

  /** A call of rt_memheap_realloc; ptr NULL allocates, newsize 0 frees. */
  ghost predicate Callable(h: Heap, ptr: int, newsize: int) {
    HeapInv(h) && 0 <= newsize < WORD && (ptr != NULL ==> ptr - HDR in h.used && ptr != h.size)
  }

  ghost function ReallocCall(h: Heap, ptr: int, newsize: int): (Heap, int)
    requires Callable(h, ptr, newsize)
  {
    if newsize == 0 then (if ptr == NULL then h else Free(h, ptr - HDR), NULL)
    else if ptr == NULL then Alloc(h, Request(newsize))
    else Realloc(h, ptr - HDR, newsize)
  }

  /** It is not one of those by which GrowthSafe fails. */
  ghost predicate SafeCall(h: Heap, ptr: int, newsize: int)
    requires Callable(h, ptr, newsize)
  {
    newsize == 0 || ptr == NULL || GrowthSafe(h, ptr - HDR, Request(newsize))
  }

  class MemHeapObj {
    var size: int
    var next: Links
    var prev: Links
    var nextFree: Links
    var prevFree: Links
    var used: map<int, bool>
    var bytes: seq<Cell>
    var avail: int
    var maxUsed: int
    ghost var blocks: seq<int>
    ghost var free: seq<int>

    ghost function UsedSet(): set<int>
      reads this
    {
      UsedOf(blocks, used)
    }

    /** The blocks whose used bit is set. */
    static function UsedOf(b: seq<int>, used: map<int, bool>): set<int> {
      set x | x in b && x in used && used[x]
    }

    static lemma UsedIn(b: seq<int>, used: map<int, bool>)
      ensures forall x :: x in UsedOf(b, used) ==> x in b
    {
    }

    static lemma UsedSetTrue(b: seq<int>, used: map<int, bool>, x: int)
      requires x in b
      ensures UsedOf(b, used[x := true]) == UsedOf(b, used) + {x}
      ensures UsedOf(b, used[x := false]) == UsedOf(b, used) - {x}
    {
    }

    static lemma UsedInserted(b: seq<int>, used: map<int, bool>, i: nat, n: int)
      requires i < |b| && n !in b
      ensures UsedOf(Ins(b, i, n), used[n := false]) == UsedOf(b, used)
    {
      InsAt(b, i, n);
    }

    static lemma UsedDeleted(b: seq<int>, used: map<int, bool>, i: nat)
      requires i < |b| && NoDup(b) && b[i] in used && !used[b[i]]
      ensures UsedOf(Del(b, i), used) == UsedOf(b, used)
    {
      DelAt(b, i);
    }

    ghost function Abs(): Heap
      reads this
    {
      Heap(size, blocks, UsedSet(), free, avail, maxUsed, bytes)
    }

    /** The links of the headers form the two rings. */
    ghost predicate Rings()
      reads this
    {
      && Ring(next, prev, blocks) && Ring(nextFree, prevFree, [LIST] + free) && LIST !in blocks
      && forall x :: x in blocks ==> x in used
    }

    ghost predicate Valid()
      reads this
    {
      HeapInv(Abs()) && Rings()
    }

    /** rt_memheap_init of a pool whose bytes are as given. */
    constructor (poolSize: int, pool: seq<Cell>)
      requires 2 * HDR <= poolSize < WORD && |pool| == poolSize / 4 * 4
      ensures Abs() == Init(poolSize, pool) && Valid()
    {
      size := poolSize / 4 * 4;
      avail := poolSize / 4 * 4 - 2 * HDR;
      maxUsed := 2 * HDR;
      var tail := poolSize / 4 * 4 - HDR;
      // the free list header, alone; then the first block after it, and the tail
      nextFree, prevFree := map[LIST := 0, 0 := LIST], map[LIST := 0, 0 := LIST];
      next, prev := map[0 := tail, tail := 0], map[0 := tail, tail := 0];
      used := map[0 := false, tail := true];
      bytes := Stamp(Stamp(pool, 0, HDR), tail, HDR);
      blocks, free := [0, tail], [0];
      new;
      InitInv(poolSize, pool);
      FirstRings(tail);
      hide Stamp;
      assert UsedSet() == {tail};
    }

    static lemma FirstRings(tail: int)
      requires tail > 0
      ensures var l: Links := map[0 := tail, tail := 0]; Ring(l, l, [0, tail])
      ensures var f: Links := map[LIST := 0, 0 := LIST]; Ring(f, f, [LIST] + [0])
    {
    }

    /** header_ptr->next and header_ptr->prev of a block. */
    lemma BlockLinks(i: nat)
      requires Rings() && i < |blocks|
      ensures blocks[i] in next && next[blocks[i]] == blocks[Succ(i, |blocks|)]
      ensures blocks[i] in prev && prev[blocks[i]] == blocks[Pred(i, |blocks|)]
    {
      Neighbours(next, prev, blocks, i);
    }

    /** A new header n after block x. */
    method InsertBlock(x: int, n: int, ghost i: nat)
      requires Rings() && i < |blocks| && blocks[i] == x && n !in blocks && n != LIST
      modifies this`next, this`prev, this`blocks, this`used, this`bytes
      ensures Rings() && blocks == Ins(old(blocks), i, n) && bytes == Stamp(old(bytes), n, HDR)
      ensures used == old(used)[n := false] && UsedSet() == old(UsedSet())
    {
      hide UsedOf;
      BlockLinks(i);
      UsedInserted(blocks, used, i, n);
      used := used[n := false];
      prev := prev[n := x];
      next := next[n := next[x]];
      prev := prev[next[x] := n];
      next := next[x := n];
      bytes := Stamp(bytes, n, HDR);
      InsertRing(old(next), old(prev), blocks, i, n, next, prev);
      InsAt(blocks, i, n);
      blocks := Ins(blocks, i, n);
    }

    /** The header x taken out of the block ring. */
    method RemoveBlock(x: int, ghost i: nat)
      requires Rings() && i < |blocks| && blocks[i] == x && |blocks| > 1
      modifies this`next, this`prev, this`blocks
      ensures Rings() && blocks == Del(old(blocks), i)
      ensures x in used && (!used[x] ==> UsedSet() == old(UsedSet()))
    {
      hide UsedOf;
      BlockLinks(i);
      if !used[x] { UsedDeleted(blocks, used, i); }
      assert blocks[Pred(i, |blocks|)] != x;
      next := next[prev[x] := next[x]];
      prev := prev[next[x] := prev[x]];
      RemoveRing(old(next), old(prev), blocks, i, next, prev);
      DelAt(blocks, i);
      blocks := Del(blocks, i);
    }

    /** x to the front of the free ring. */
    method LinkFree(x: int)
      requires Rings() && x != LIST && x !in free
      modifies this`nextFree, this`prevFree, this`free
      ensures Rings() && free == [x] + old(free)
    {
      ghost var c := [LIST] + free;
      Neighbours(nextFree, prevFree, c, 0);
      nextFree := nextFree[x := nextFree[LIST]];
      prevFree := prevFree[x := LIST];
      prevFree := prevFree[nextFree[LIST] := x];
      nextFree := nextFree[LIST := x];
      InsertRing(old(nextFree), old(prevFree), c, 0, x, nextFree, prevFree);
      assert Inserted(c, 0, x) == [LIST] + ([x] + free);
      free := [x] + free;
    }

    /** x out of the free ring. */
    method UnlinkFree(x: int)
      requires Rings() && x in free
      modifies this`nextFree, this`prevFree, this`free
      ensures Rings() && free == Without(old(free), x)
    {
      hide NoDup, Without;
      ghost var c := [LIST] + free;
      ghost var i := IndexOf(free, x) + 1;
      FreeIndex(free, x);
      Neighbours(nextFree, prevFree, c, i);
      assert c[Succ(i, |c|)] != x by { Apart(c, i); }
      prevFree := prevFree[nextFree[x] := prevFree[x]];
      nextFree := nextFree[prevFree[x] := nextFree[x]];
      RemoveRing(old(nextFree), old(prevFree), c, i, nextFree, prevFree);
      FreeRest(free, x);
      free := Without(free, x);
    }

    static lemma FreeIndex(l: seq<int>, x: int)
      requires x in l
      ensures IndexOf(l, x) + 1 < |[LIST] + l| && ([LIST] + l)[IndexOf(l, x) + 1] == x
    {
    }

    static lemma Apart(c: seq<int>, i: nat)
      requires NoDup(c) && i < |c| && |c| > 1
      ensures c[Succ(i, |c|)] != c[i] && c[Pred(i, |c|)] != c[i]
    {
    }

    static lemma FreeRest(l: seq<int>, x: int)
      requires x in l && NoDup([LIST] + l)
      ensures var c, i := [LIST] + l, IndexOf(l, x) + 1; c[..i] + c[i + 1..] == [LIST] + Without(l, x)
    {
      var c, i := [LIST] + l, IndexOf(l, x);
      FreeNoDup(c, l);
      WithoutAt(l, i);
      hide Without;
      assert c[..i + 1] == [LIST] + l[..i] && c[i + 2..] == l[i + 1..];
    }

    static lemma FreeNoDup(c: seq<int>, l: seq<int>)
      requires c == [LIST] + l && NoDup(c)
      ensures NoDup(l)
    {
      forall i, j | 0 <= i < j < |l| ensures l[i] != l[j] { assert c[i + 1] != c[j + 1]; }
    }

    /** MEMITEM_SIZE of a block. */
    method ItemSize(x: int, ghost i: nat) returns (r: int)
      requires Rings() && i + 1 < |blocks| && blocks[i] == x
      ensures r == blocks[i + 1] - x - HDR
    {
      BlockLinks(i);
      r := next[x] - x - HDR;
    }

    /** available_size goes down, max_used_size follows. */
    method Take(n: int)
      modifies this`avail, this`maxUsed
      ensures Abs() == Mark(old(Abs()).(avail := old(avail) - n))
    {
      avail := avail - n;
      if size - avail > maxUsed { maxUsed := size - avail; }
    }

    /** The search along the free ring. */
    method Search(request: int) returns (header: int, freeSize: int)
      requires Valid() && request >= MINI
      ensures var j := FirstFit(Abs(), 0, request);
        if j < |free| then header == free[j] && freeSize == Payload(Abs(), header) >= request
        else freeSize < request
    {
      hide HeapInv, FirstFit;
      ghost var h, c := Abs(), [LIST] + free;
      HeapCore(h);
      Neighbours(nextFree, prevFree, c, 0);
      header := nextFree[LIST];
      freeSize := 0;
      ghost var j := 0;
      while header != LIST && freeSize < request
        invariant j <= |free| && header == c[Succ(j, |c|)]
        invariant freeSize < request ==> FirstFit(h, j, request) == FirstFit(h, 0, request)
        invariant freeSize >= request ==> j < |free| && j == FirstFit(h, 0, request) && freeSize == Payload(h, free[j])
        decreases |free| - j, if freeSize < request then 1 else 0
      {
        NotList(c, j);
        FitStep(h, j, request);
        Located(h, header);
        freeSize := ItemSize(header, IndexOf(blocks, header));
        if freeSize < request {
          Neighbours(nextFree, prevFree, c, j + 1);
          header := nextFree[header];
          j := j + 1;
        }
      }
      if freeSize < request {
        ListOnly(c, j);
        FitEnd(h, j, request);
      }
    }

    static lemma HeapCore(h: Heap)
      requires HeapInv(h)
      ensures CoreInv(h)
    {
    }

    static lemma NotList(c: seq<int>, j: nat)
      requires NoDup(c) && c != [] && c[0] == LIST && j < |c| && c[Succ(j, |c|)] != LIST
      ensures j + 1 < |c| && c[Succ(j, |c|)] == c[j + 1]
    {
    }

    static lemma ListOnly(c: seq<int>, j: nat)
      requires NoDup(c) && c != [] && c[0] == LIST && j < |c| && c[Succ(j, |c|)] == LIST
      ensures j + 1 == |c|
    {
    }

    static lemma FitStep(h: Heap, j: nat, request: int)
      requires CoreInv(h) && j < |h.free|
      ensures Block(h, h.free[j]) && Tiled(h.blocks, h.size)
      ensures FirstFit(h, j, request) == if Payload(h, h.free[j]) >= request then j else FirstFit(h, j + 1, request)
    {
      hide CoreInv;
      FreeBlock(h, h.free[j]);
    }

    static lemma FitEnd(h: Heap, j: nat, request: int)
      requires CoreInv(h) && j == |h.free|
      ensures FirstFit(h, j, request) == j
    {
    }

    static lemma Located(h: Heap, x: int)
      requires Tiled(h.blocks, h.size) && Block(h, x)
      ensures var i := IndexOf(h.blocks, x); i + 1 < |h.blocks| && h.blocks[i] == x && Next(h, x) == h.blocks[i + 1]
    {
      TailLast(h, IndexOf(h.blocks, x));
    }

    /** The block found is taken into use, split when the rest is worth a block. */
    method CarveBlock(header: int, freeSize: int, n: int)
      requires Valid() && header in free && Tiled(blocks, size) && Block(Abs(), header)
      requires freeSize == Payload(Abs(), header) >= n >= MINI && n % 4 == 0
      modifies this
      ensures Abs() == Carve(old(Abs()), header, n) && Rings()
    {
      hide HeapInv, Tiled, Block, Ins, Without, Stamp, Ring, UsedOf;
      ghost var h := Abs();
      Located(h, header);
      if freeSize >= n + HDR + MINI {
        var z := header + n + HDR;
        SplitPlace(h, header, n);
        SplitOff(header, z, IndexOf(blocks, header));
        Take(n + HDR);
        InsAt(h.blocks, IndexOf(h.blocks, header), z);
      } else {
        Take(freeSize);
        UnlinkFree(header);
      }
      UsedSetTrue(blocks, used, header);
      used := used[header := true];
    }

    /** A free block of its own behind the header of a block that leaves the free list. */
    method SplitOff(header: int, z: int, ghost i: nat)
      requires Rings() && i < |blocks| && blocks[i] == header && z !in blocks && z != LIST
      requires header in free && z !in Without(free, header)
      modifies this`next, this`prev, this`nextFree, this`prevFree, this`blocks, this`free, this`used, this`bytes
      ensures Rings() && blocks == Ins(old(blocks), i, z) && free == [z] + Without(old(free), header)
      ensures bytes == Stamp(old(bytes), z, HDR) && used == old(used)[z := false] && UsedSet() == old(UsedSet())
    {
      hide Ring, Ins, Without, Stamp, UsedOf;
      InsertBlock(header, z, i);
      UnlinkFree(header);
      LinkFree(z);
    }

    static lemma SplitPlace(h: Heap, x: int, n: int)
      requires HeapInv(h) && x in h.free && Tiled(h.blocks, h.size) && Block(h, x)
      requires Payload(h, x) >= n + HDR + MINI && n >= MINI && n % 4 == 0
      ensures var z := x + n + HDR; z !in h.blocks && z !in h.free && z !in Without(h.free, x) && z != LIST && z != x
    {
      hide NoAdjacentFree, HeadersOk, Sum, Without;
      var i := IndexOf(h.blocks, x);
      TailLast(h, i);
      TiledMod(h.blocks, h.size, i);
      InsTiled(h.blocks, h.size, i, x + n + HDR);
    }

    method MemheapAlloc(request: int) returns (ptr: int)
      requires Valid() && 0 <= request < WORD
      modifies this
      ensures (Abs(), ptr) == Alloc(old(Abs()), request) && Valid()
    {
      hide HeapInv, FirstFit, Carve, Ring, Alloc, Align, Payload, Block, Tiled, Live, UsedOf;
      ghost var h := Abs();
      HeapCore(h);
      AllocIs(h, request);
      AllocSpec(h, request);
      var n := Align(request);
      if n < MINI { n := MINI; }
      FirstFitBounds(h, 0, n);
      if n < avail {
        var header, freeSize := Search(n);
        if freeSize >= n {
          FreeBlock(h, header);
          CarveBlock(header, freeSize, n);
          return header + HDR;
        }
      }
      ptr := NULL;
    }

    static lemma AllocIs(h: Heap, request: int)
      requires HeapInv(h) && 0 <= request < WORD
      ensures var n := Request(request);
        if n >= h.avail || FirstFit(h, 0, n) >= |h.free| then Alloc(h, request) == (h, NULL)
        else
          var x := h.free[FirstFit(h, 0, n)];
          Block(h, x) && Carve.requires(h, x, n) && Alloc(h, request) == (Carve(h, x, n), x + HDR)
    {
      hide FirstFit, Carve, CoreInv;
      FirstFitBounds(h, 0, Request(request));
      if FirstFit(h, 0, Request(request)) < |h.free| { FreeBlock(h, h.free[FirstFit(h, 0, Request(request))]); }
    }

    method MemheapFree(ptr: int)
      requires Valid() && ptr - HDR in UsedSet() && ptr - HDR != size - HDR
      modifies this
      ensures Abs() == Free(old(Abs()), ptr - HDR) && Valid()
    {
      hide HeapInv, Ring, Free, Without, Ins, Del, UsedOf, IndexOf;
      UsedIn(blocks, used);
      ghost var h, i := Abs(), IndexOf(blocks, ptr - HDR);
      var x := ptr - HDR;
      FreeSpec(h, x);
      FreePlaces(h, x, i);
      FreeFacts(h, x, i);
      var header, insertHeader := ReleaseLeft(x, i);
      hide Rings;
      ghost var mid := Abs();
      ReleasedPlaces(h, mid, x, i);
      MergeAndInsert(header, insertHeader, if insertHeader then i else i - 1);
      FreeCombines(h, mid, Abs(), x, i);
    }

    static lemma FreePlaces(h: Heap, x: int, i: nat)
      requires HeapInv(h) && x in h.used && x != h.size - HDR && i == IndexOf(h.blocks, x)
      ensures i + 1 < |h.blocks| && h.blocks[i] == x
    {
      hide HeapInv, Free;
      FreeIs(h, x, i);
    }

    /** The heap after ReleaseLeft. */
    static ghost predicate Released(h: Heap, mid: Heap, x: int, i: nat)
      requires i + 1 < |h.blocks|
    {
      var left := i > 0 && h.blocks[i - 1] !in h.used;
      mid == h.(used := h.used - {x}, blocks := if left then Del(h.blocks, i) else h.blocks,
                avail := h.avail + (h.blocks[i + 1] - x - HDR) + (if left then HDR else 0))
    }

    static lemma ReleasedPlaces(h: Heap, mid: Heap, x: int, i: nat)
      requires HeapInv(h) && x in h.used && x != h.size - HDR && i == IndexOf(h.blocks, x) && i + 1 < |h.blocks|
      requires Released(h, mid, x, i)
      ensures var left := i > 0 && h.blocks[i - 1] !in h.used; var j := if left then i - 1 else i;
        j + 1 < |mid.blocks| && mid.blocks[j + 1] == h.blocks[i + 1] && mid.blocks[j] == (if left then h.blocks[i - 1] else x)
    {
      hide HeapInv, Free, Del, IndexOf;
      FreeIs(h, x, i);
    }

    /** ReleaseLeft and MergeAndInsert together are rt_memheap_free. */
    static lemma FreeCombines(h: Heap, mid: Heap, fin: Heap, x: int, i: nat)
      requires HeapInv(h) && x in h.used && x != h.size - HDR && i == IndexOf(h.blocks, x) && i + 1 < |h.blocks|
      requires Released(h, mid, x, i) && h.blocks[i + 1] != x
      requires var left := i > 0 && h.blocks[i - 1] !in h.used; var j := if left then i - 1 else i;
        var y := h.blocks[i + 1]; var f := if y in mid.used then mid.free else Without(mid.free, y);
        j + 1 < |mid.blocks| &&
        fin == mid.(blocks := if y in mid.used then mid.blocks else Del(mid.blocks, j + 1),
                    free := if left then f else [x] + f, avail := mid.avail + (if y in mid.used then 0 else HDR))
      ensures fin == Free(h, x)
    {
      hide HeapInv, Free, Del, IndexOf, Without;
      FreeIs(h, x, i);
    }

    method MergeAndInsert(header: int, insertHeader: bool, ghost j: nat)
      requires Rings() && j + 1 < |blocks| && blocks[j] == header && blocks[j + 1] != header
      requires blocks[j + 1] !in UsedSet() ==> blocks[j + 1] in free
      requires insertHeader ==> header != LIST && header !in free
      modifies this
      ensures Rings()
      ensures var h, y := old(Abs()), old(blocks[j + 1]); var f := if y in h.used then h.free else Without(h.free, y);
        Abs() == h.(blocks := if y in h.used then h.blocks else Del(h.blocks, j + 1),
                    free := if insertHeader then [header] + f else f, avail := h.avail + (if y in h.used then 0 else HDR))
    {
      hide Ring, Del, Without, UsedOf;
      MergeNext(header, j);
      if insertHeader { LinkFree(header); }
    }

    /** The used bit cleared, and the block merged into the one before if that is unused. */
    method ReleaseLeft(x: int, ghost i: nat) returns (header: int, insertHeader: bool)
      requires Rings() && i + 1 < |blocks| && blocks[i] == x && blocks[|blocks| - 1] in UsedSet() - {x}
      requires i > 0 ==> blocks[i - 1] != x
      modifies this
      ensures Rings() && var h := old(Abs()); var left := i > 0 && h.blocks[i - 1] !in h.used;
        && insertHeader == !left && header == (if left then h.blocks[i - 1] else x)
        && Abs() == h.(used := h.used - {x}, blocks := if left then Del(h.blocks, i) else h.blocks,
                       avail := h.avail + (h.blocks[i + 1] - x - HDR) + (if left then HDR else 0))
    {
      hide Ring, Del, UsedOf;
      UsedSetTrue(blocks, used, x);
      used := used[x := false];
      var item := ItemSize(x, i);
      avail := avail + item;
      header, insertHeader := x, true;
      BlockLinks(i);
      UsedBit(prev[x]);
      if !used[prev[header]] {
        avail := avail + HDR;
        header := prev[header];
        RemoveBlock(x, i);
        insertHeader := false;
      }
    }

    lemma UsedBit(x: int)
      requires x in blocks && x in used
      ensures used[x] <==> x in UsedSet()
    {
    }

    /** The block after header, if unused, merged into it. */
    method MergeNext(header: int, ghost j: nat)
      requires Rings() && j + 1 < |blocks| && blocks[j] == header && |blocks| > 1
      requires blocks[j + 1] !in UsedSet() ==> blocks[j + 1] in free
      modifies this
      ensures Rings() && used == old(used)
      ensures var h, y := old(Abs()), old(blocks[j + 1]);
        Abs() == if y in h.used then h
                 else h.(blocks := Del(h.blocks, j + 1), free := Without(h.free, y), avail := h.avail + HDR)
    {
      hide Ring, Del, Without, UsedOf;
      BlockLinks(j);
      var y := next[header];
      UsedBit(y);
      if !used[y] {
        avail := avail + HDR;
        RemoveBlock(y, j + 1);
        UnlinkFree(y);
      }
    }

    /** rt_memheap_free in one step. */
    static lemma FreeIs(h: Heap, x: int, i: nat)
      requires HeapInv(h) && x in h.used && x != h.size - HDR && i == IndexOf(h.blocks, x)
      ensures i + 1 < |h.blocks| && h.blocks[i] == x
      ensures var left, y := i > 0 && h.blocks[i - 1] !in h.used, h.blocks[i + 1];
        var b, f := if left then Del(h.blocks, i) else h.blocks, if y in h.used then h.free else Without(h.free, y);
        var j := if left then i - 1 else i;
        && j + 1 < |b| && b[j + 1] == y && b[j] == (if left then h.blocks[i - 1] else x)
        && Free(h, x) == h.(used := h.used - {x}, blocks := if y in h.used then b else Del(b, j + 1),
             free := if left then f else [x] + f,
             avail := h.avail + (y - x - HDR) + (if left then HDR else 0) + (if y in h.used then 0 else HDR))
    {
      hide CoreInv, NoAdjacentFree, Tiled, IndexOf, Del, Without;
      BlockIndex(h, x);
      LeftInv(h, i);
      FreeFacts(h, x, i);
      LeftIs(h, x, i);
      var y := h.blocks[i + 1];
      FrontWithout(h.free, x, y);
      DelFirst(h.blocks, i);
    }

    static lemma DelFirst(b: seq<int>, i: nat)
      requires i + 1 < |b|
      ensures |Del(b, i)| == |b| - 1 && Del(b, i)[i] == b[i + 1] && (i > 0 ==> Del(b, i)[i - 1] == b[i - 1])
    {
    }

    static lemma LeftIs(h: Heap, x: int, i: nat)
      requires i + 1 < |h.blocks| && h.blocks[i] == x && x !in h.free
      ensures var left, y := i > 0 && h.blocks[i - 1] !in h.used, h.blocks[i + 1];
        Left(h, i) == h.(used := h.used - {x}, blocks := if left then Del(h.blocks, i) else h.blocks,
                         free := if left then h.free else [x] + h.free,
                         avail := h.avail + (y - x - HDR) + (if left then HDR else 0))
    {
      FrontWithout(h.free, x, x);
      hide Without, Del;
    }

    static lemma FrontWithout(l: seq<int>, x: int, y: int)
      requires x !in l
      ensures Without([x] + l, x) == l && (x != y ==> Without([x] + l, y) == [x] + Without(l, y))
    {
      assert ([x] + l)[1..] == l;
    }

    static lemma FreeFacts(h: Heap, x: int, i: nat)
      requires HeapInv(h) && x in h.used && x != h.size - HDR && i + 1 < |h.blocks| && h.blocks[i] == x
      ensures x != LIST && x !in h.free && h.blocks[|h.blocks| - 1] in h.used - {x} && |h.blocks| > 1
      ensures h.blocks[i + 1] !in h.used ==> h.blocks[i + 1] in h.free
      ensures h.blocks[i + 1] != x && (i > 0 ==> h.blocks[i - 1] != x && h.blocks[i - 1] != h.blocks[i + 1])
    {
      TiledMod(h.blocks, h.size, i);
      hide NoAdjacentFree, HeadersOk, Sum;
    }

    /** The next block taken in, and a smaller one built where the grown block ends. */
    method GrowInPlace(x: int, n: int, have: int, ghost i: nat)
      requires Valid() && i + 2 < |blocks| && blocks[i] == x && x in UsedSet() && n % 4 == 0 && 0 <= n < WORD
      requires have == blocks[i + 1] - x - HDR && 0 <= have < n && Grows(Abs(), i, n)
      modifies this
      ensures Abs() == Grow(old(Abs()), i, Reach(x, n)) && Rings()
    {
      hide HeapInv, Ring, Without, Ins, Del, UsedOf, Stamp;
      ghost var h := Abs();
      GrowReach(h, i, n);
      GrowPlace(h, i, Reach(x, n));
      hide Grows, Reach;
      BlockLinks(i);
      var y := next[x];
      UsedBit(y);
      Take(Reach(x, n) - have);
      UnlinkFree(y);
      RemoveBlock(y, i + 1);
      var z := x + HDR + Reach(x, n);
      InsertBlock(x, z, i);
      LinkFree(z);
    }

    /** Where the new header comes to lie: behind the payload, or inside the block's own header when the sum wraps. */
    static lemma GrowReach(h: Heap, i: nat, n: int)
      requires HeapInv(h) && i + 2 < |h.blocks| && n % 4 == 0 && 0 <= n < WORD && Grows(h, i, n)
      requires h.blocks[i + 1] - h.blocks[i] - HDR < n
      ensures var x := h.blocks[i]; var d := Reach(x, n);
        && d % 4 == 0
        && ((h.blocks[i + 1] < x + HDR + d && x + HDR + d + HDR <= h.blocks[i + 2]) || -HDR < d < 0)
    {
      hide UsedOk, FreeOk, HeadersOk, Sum, NoAdjacentFree;
      assert 0 <= h.blocks[i] && h.blocks[i] % 4 == 0 && h.blocks[i + 1] % 4 == 0;
      assert h.blocks[i + 2] <= h.size - HDR;
    }

    static lemma GrowPlace(h: Heap, i: nat, n: int)
      requires HeapInv(h) && i + 2 < |h.blocks| && h.blocks[i + 1] !in h.used && n % 4 == 0
      requires (h.blocks[i + 1] < h.blocks[i] + HDR + n && h.blocks[i] + HDR + n + HDR <= h.blocks[i + 2]) || -HDR < n < 0
      ensures h.blocks[i + 1] in h.free
      ensures var b, z := Del(h.blocks, i + 1), h.blocks[i] + HDR + n;
        && i + 1 < |b| && b[i] == h.blocks[i] && b[i + 1] == h.blocks[i + 2]
        && z !in b && z != LIST && z !in h.free && z !in Without(h.free, h.blocks[i + 1])
    {
      hide NoAdjacentFree, HeadersOk, Sum, Del, Without, Tiled;
      DelFirst(h.blocks, i + 1);
      TiledMod(h.blocks, h.size, i);
      GrowRoom(h.blocks, h.size, i, n);
    }

    static lemma GrowRoom(b: seq<int>, size: int, i: nat, n: int)
      requires Tiled(b, size) && i + 2 < |b| && n % 4 == 0
      requires (b[i + 1] < b[i] + HDR + n && b[i] + HDR + n + HDR <= b[i + 2]) || -HDR < n < 0
      ensures b[i] + HDR + n !in b && b[i] + HDR + n !in Del(b, i + 1)
    {
      var z := b[i] + HDR + n;
      DelAt(b, i + 1);
      forall k | 0 <= k < |b| ensures b[k] != z {
        assert k < i ==> b[k] + HDR <= b[i];
        assert k > i ==> b[i] + HDR <= b[k];
        assert k < i + 1 ==> b[k] + HDR <= b[i + 1];
        assert k > i + 2 ==> b[i + 2] + HDR <= b[k];
      }
      hide Del;
    }

    /** The tail of the block split off, and the next block merged into it if unused. */
    method ShrinkInPlace(x: int, n: int, ghost i: nat)
      requires Valid() && i + 1 < |blocks| && blocks[i] == x && x in UsedSet() && n % 4 == 0 && n >= 0
      requires x + HDR + n + HDR <= blocks[i + 1]
      modifies this
      ensures Abs() == Shrink(old(Abs()), i, n) && Rings()
    {
      hide HeapInv, Ring, Without, Ins, Del, UsedOf, Stamp;
      ghost var h := Abs();
      ShrinkPlace(h, i, n);
      var z := x + n + HDR;
      InsertBlock(x, z, i);
      BlockLinks(i + 1);
      var y := next[z];
      UsedBit(y);
      if !used[y] { TakeIn(y, i + 2); }
      LinkFree(z);
      var item := ItemSize(z, i + 1);
      avail := avail + item;
    }

    /** An unused block merged into the one before it. */
    method TakeIn(y: int, ghost j: nat)
      requires Rings() && j + 1 < |blocks| && blocks[j] == y && y in free && y in used && !used[y]
      modifies this`next, this`prev, this`nextFree, this`prevFree, this`blocks, this`free, this`avail
      ensures Rings() && blocks == Del(old(blocks), j) && free == Without(old(free), y) && UsedSet() == old(UsedSet())
      ensures avail == old(avail) - (old(blocks)[j + 1] - y - HDR)
    {
      hide Ring, Del, Without, UsedOf;
      var item := ItemSize(y, j);
      avail := avail - item;
      RemoveBlock(y, j);
      UnlinkFree(y);
    }

    static lemma ShrinkPlace(h: Heap, i: nat, n: int)
      requires HeapInv(h) && i + 1 < |h.blocks| && h.blocks[i] in h.used && n % 4 == 0 && n >= 0
      requires h.blocks[i] + HDR + n + HDR <= h.blocks[i + 1]
      ensures var b, z, y := Ins(h.blocks, i, h.blocks[i] + HDR + n), h.blocks[i] + HDR + n, h.blocks[i + 1];
        && z !in h.blocks && z != LIST && z !in h.free && z !in Without(h.free, y) && z != y
        && |b| == |h.blocks| + 1 && b[i + 1] == z && b[i + 2] == y
        && Without([z] + h.free, y) == [z] + Without(h.free, y)
        && (y !in h.used ==> y in h.free && i + 3 < |b| && |Del(b, i + 2)| == |b| - 1
                             && Del(b, i + 2)[i + 1] == z && Del(b, i + 2)[i + 2] == b[i + 3])
    {
      hide NoAdjacentFree, HeadersOk, Sum, Ins, Del, Without, Tiled;
      var b, z, y := h.blocks, h.blocks[i] + HDR + n, h.blocks[i + 1];
      TiledMod(b, h.size, i);
      InsTiled(b, h.size, i, z);
      InsPlaces(b, i, z);
      assert y in b && z !in h.free;
      if y !in h.used {
        UnusedNotTail(h, i + 1);
        DelFirst(Ins(b, i, z), i + 2);
      }
      FrontWithout(h.free, z, y);
    }

    static lemma InsPlaces(b: seq<int>, i: nat, z: int)
      requires i + 1 < |b|
      ensures var r := Ins(b, i, z); |r| == |b| + 1 && r[i] == b[i] && r[i + 1] == z && r[i + 2] == b[i + 1]
    {
    }

    /** rt_memheap_realloc */
    method MemheapRealloc(ptr: int, newsize: int) returns (r: int)
      requires Rings() && Callable(Abs(), ptr, newsize)
      modifies this
      ensures (Abs(), r) == ReallocCall(old(Abs()), ptr, newsize) && Rings()
      ensures SafeCall(old(Abs()), ptr, newsize) ==> Valid()
    {
      hide HeapInv, Rings, Alloc, Free, Realloc, UsedSet, Request, GrowthSafe;
      if newsize == 0 {
        if ptr != NULL { MemheapFree(ptr); }
        return NULL;
      }
      RequestAligned(newsize);
      var n := Request(newsize);
      if ptr == NULL {
        r := MemheapAlloc(n);
      } else {
        ghost var h := Abs();
        r := Resize(ptr, newsize);
        if GrowthSafe(h, ptr - HDR, Request(newsize)) { ReallocSpec(h, ptr - HDR, newsize); }
      }
    }

    /** The rest of rt_memheap_realloc, for an existing block. */
    method Resize(ptr: int, newsize: int) returns (r: int)
      requires Valid() && 0 < newsize < WORD
      requires ptr - HDR in Abs().used && ptr != size
      modifies this
      ensures (Abs(), r) == Realloc(old(Abs()), ptr - HDR, newsize) && Rings()
    {
      hide HeapInv, Rings, Alloc, Free, Realloc, Request, UsedOf, Grow, Shrink, Move, Tiled, IndexOf, Next, Block, Grows, GrowthSafe;
      var x, n := ptr - HDR, Request(newsize);
      ghost var h := Abs();
      ReallocIs(h, x, newsize);
      ghost var i := IndexOf(h.blocks, x);
      var have := ItemSize(x, i);
      r := ptr;
      if n > have {
        r := GrowOrMove(x, n, have, i);
      } else if n + HDR + MINI < have {
        ShrinkInPlace(x, n, i);
      }
    }

    /** rt_memheap_realloc with the position of the block made explicit. */
    static lemma ReallocIs(h: Heap, x: int, newsize: int)
      requires HeapInv(h) && x in h.used && x != h.size - HDR && 0 < newsize < WORD
      ensures x in h.blocks && Tiled(h.blocks, h.size) && Block(h, x)
      ensures var i, n := IndexOf(h.blocks, x), Request(newsize);
        && i + 1 < |h.blocks| && h.blocks[i] == x && Next(h, x) == h.blocks[i + 1] && x + HDR <= h.blocks[i + 1]
        && n % 4 == 0 && MINI <= n < WORD && Request(n) == n
      ensures var i, n := IndexOf(h.blocks, x), Request(newsize); var have := h.blocks[i + 1] - x - HDR;
        Realloc(h, x, newsize) ==
          if n > have then
            if Grows(h, i, n) then (UnusedNotTail(h, i + 1); (Grow(h, i, Reach(x, n)), x + HDR)) else Move(h, x, n)
          else if n + HDR + MINI >= have then (h, x + HDR) else (Shrink(h, i, n), x + HDR)
    {
      hide NoAdjacentFree, Request, Grow, Shrink, Move, IndexOf, CoreInv, Tiled, Grows, Reach;
      BlockIndex(h, x);
      RequestAligned(newsize);
      var i := IndexOf(h.blocks, x);
      GapLeast(h, i);
      if h.blocks[i + 1] !in h.used { UnusedNotTail(h, i + 1); }
    }

    method GrowOrMove(x: int, n: int, have: int, ghost i: nat) returns (r: int)
      requires Valid() && x in UsedSet() && x != size - HDR && 0 <= n < WORD && n == Request(n) && n % 4 == 0
      requires i + 1 < |blocks| && blocks[i] == x && blocks[i + 1] - x - HDR == have && 0 <= have < n
      requires Tiled(blocks, size) && Block(Abs(), x) && Next(Abs(), x) == blocks[i + 1]
      modifies this
      ensures Rings()
      ensures var h := old(Abs());
        if Grows(h, i, n) then i + 2 < |h.blocks| && Abs() == Grow(h, i, Reach(x, n)) && r == x + HDR
        else (Abs(), r) == Move(h, x, n)
    {
      hide HeapInv, Ring, UsedOf, Grow, Move, Tiled, Next, Block, Request, Reach;
      ghost var h := Abs();
      HeapCore(h);
      BlockLinks(i);
      var y := next[x];
      UsedBit(y);
      if !used[y] {
        UnusedNotTail(h, i + 1);
        var nextSize := ItemSize(y, i + 1);
        if nextSize + have > (n + MINI) % WORD {
          GrowInPlace(x, n, have, i);
          return x + HDR;
        }
      }
      r := MoveTo(x, n, have);
    }

    /** Another block, the old bytes copied there, and the old block freed. */
    method MoveTo(x: int, n: int, have: int) returns (r: int)
      requires Valid() && x in UsedSet() && x != size - HDR && 0 <= n < WORD && n == Request(n)
      requires Tiled(blocks, size) && Block(Abs(), x) && n > Payload(Abs(), x) == have
      modifies this
      ensures (Abs(), r) == Move(old(Abs()), x, n) && Valid()
    {
      hide HeapInv, Ring, Alloc, Free, Request, UsedOf, Tiled, Block, Payload;
      ghost var h := Abs();
      MoveReady(h, x, n);
      AllocSpec(h, n);
      r := MemheapAlloc(n);
      if r != NULL {
        bytes := Copy(bytes, r, x + HDR, have);
        MemheapFree(x + HDR);
      }
    }
  }
}
