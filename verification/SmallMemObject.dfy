/** rt-thread/src/mem.c as it runs: the chain's links, lfree and the counters changed step by step. */
module SmallMemObject {
  import opened Seqs
  import opened Tiles
  import opened SmallMem
  import S = SmallMem

  class SmallHeap {
    var m: int
    var next: map<int, int>
    var prev: map<int, int>
    var used: set<int>
    var lfree: int
    var usedMem: int
    var maxMem: int
    var bytes: seq<Cell>
    ghost var blocks: seq<int>

    ghost function Abs(): Sm
      reads this
    {
      Sm(m, next, prev, used, lfree, usedMem, maxMem, bytes, blocks)
    }

    /** rt_system_heap_init with memSize bytes between the two headers. */
    constructor (memSize: int, memory: seq<Cell>)
      requires MIN <= memSize < WORD && memSize % 4 == 0 && |memory| == memSize + 2 * SM
      ensures Abs() == Init(memSize, memory) && HeapInv(Abs())
    {
      m := memSize;
      next := map[0 := memSize + SM, memSize + SM := memSize + SM];
      prev := map[0 := 0, memSize + SM := memSize + SM];
      used := {memSize + SM};
      lfree, usedMem, maxMem := 0, 0, 0;
      bytes := Stamp(Stamp(memory, 0, SM), memSize + SM, SM);
      blocks := [0, memSize + SM];
      new;
      InitInv(memSize, memory);
    }

    /** plug_holes */
    method PlugHoles(mem: int, ghost i: nat)
      requires ChainInv(Abs()) && i + 1 < |blocks| && blocks[i] == mem && mem !in used
      modifies this`next, this`prev, this`lfree, this`blocks
      ensures Abs() == Plug(old(Abs()), i)
    {
      hide ChainInv;
      ghost var s := Abs();
      ChainPlace(s, i);
      EndUsed(s, i + 1);
      PrevAt(s, i);
      if i + 2 < |blocks| { ChainPlace(s, i + 1); }
      var nmem := next[mem];
      if mem != nmem && nmem !in used && nmem != m + SM {
        if lfree == nmem { lfree := mem; }
        next := next[mem := next[nmem]];
        prev := prev[next[mem] := mem];
        blocks := Del(blocks, i + 1);
        AfterDel(s.blocks, i + 1);
      }
      var pmem := prev[mem];
      if pmem != mem && pmem !in used {
        if lfree == mem { lfree := pmem; }
        next := next[pmem := next[mem]];
        prev := prev[next[mem] := pmem];
        blocks := Del(blocks, i);
      }
    }

    static lemma AfterDel(b: seq<int>, i: nat)
      requires 0 < i && i + 1 < |b|
      ensures var r := Del(b, i); |r| == |b| - 1 && r[i - 1] == b[i - 1] && r[i] == b[i + 1] && (i > 1 ==> r[i - 2] == b[i - 2])
    {
    }

    static lemma PrevAt(s: Sm, i: nat)
      requires ChainInv(s) && i + 1 < |s.blocks|
      ensures s.blocks[i] in s.prev && s.prev[s.blocks[i]] == if i == 0 then s.blocks[0] else s.blocks[i - 1]
      ensures i > 0 ==> s.blocks[i - 1] != s.blocks[i]
      ensures s.blocks[i + 1] != s.blocks[i] && (i + 2 < |s.blocks| ==> s.blocks[i + 2] != s.blocks[i] && s.blocks[i + 1] != s.End())
    {
      LastIsEnd(s.blocks, s.End(), i + 1);
      Ordered(s.blocks, s.End(), i, i + 1);
      if i + 2 < |s.blocks| { Ordered(s.blocks, s.End(), i, i + 2); }
      if i > 0 { Ordered(s.blocks, s.End(), i - 1, i); }
    }

    method Malloc(size: int) returns (ptr: int)
      requires HeapInv(Abs()) && 0 <= size < WORD
      modifies this
      ensures (Abs(), ptr) == S.Malloc(old(Abs()), size) && HeapInv(Abs())
    {
      hide ChainInv, NoAdjacentFree, LfreeOk, Take, IndexOf, Search;
      ghost var s := Abs();
      MallocSpec(s, size);
      RequestCovers(size);
      LfreeIn(s);
      if size == 0 { return NULL; }
      var n := Align(size);
      if n > m { return NULL; }
      if n < MIN { n := MIN; }
      var found, mem, k := Find(n);
      if !found { return NULL; }
      TakeBlock(mem, n, k);
      ptr := mem + SM;
    }

    /** The search from lfree along the chain. */
    method Find(n: int) returns (found: bool, mem: int, ghost k: nat)
      requires CoreInv(Abs()) && lfree in blocks && n >= MIN
      ensures k == Search(blocks, used, m - n, n, IndexOf(blocks, lfree)) && found == (k < |blocks|)
      ensures found ==> mem == blocks[k]
    {
      hide ChainInv, LfreeOk, IndexOf;
      ghost var s := Abs();
      mem := lfree;
      k := IndexOf(blocks, lfree);
      while mem < m - n
        invariant k < |blocks| && mem == blocks[k]
        invariant Search(blocks, used, m - n, n, k) == Search(blocks, used, m - n, n, IndexOf(blocks, lfree))
        decreases |blocks| - k
      {
        BelowEnd(s, k, n);
        ChainPlace(s, k);
        if mem !in used && next[mem] - (mem + SM) >= n {
          return true, mem, k;
        }
        mem := next[mem];
        k := k + 1;
      }
      found := false;
      k := |blocks|;
    }

    static lemma BelowEnd(s: Sm, k: nat, n: int)
      requires ChainInv(s) && k < |s.blocks| && s.blocks[k] < s.m - n && n >= 0
      ensures k + 1 < |s.blocks|
    {
    }

    method TakeBlock(mem: int, n: int, ghost i: nat)
      requires HeapInv(Abs()) && i + 1 < |blocks| && blocks[i] == mem && mem !in used && n >= MIN && n % 4 == 0
      requires blocks[i + 1] - (mem + SM) >= n
      modifies this
      ensures Abs() == Take(old(Abs()), i, n)
    {
      hide ChainInv, NoAdjacentFree, LfreeOk, Ins, Stamp;
      ghost var s, s1 := Abs(), Abs();
      ChainPlace(s, i);
      if next[mem] - (mem + SM) >= n + SM + MIN {
        InsTiledHere(s, i, mem + SM + n);
        LinkedChain(s, i, mem + SM + n, used + {mem}, usedMem + n + SM);
        s1 := Linked(s, i, mem + SM + n).(used := used + {mem}, usedMem := usedMem + n + SM);
        InsertLinks(mem, mem + SM + n, i, s);
        used := used + {mem};
        usedMem := usedMem + n + SM;
        PlacesAfterIns(s.blocks, i, mem + SM + n);
      } else {
        WholeChain(s, i);
        s1 := s.(used := used + {mem}, usedMem := usedMem + (next[mem] - mem));
        used := used + {mem};
        usedMem := usedMem + (next[mem] - mem);
      }
      if maxMem < usedMem { maxMem := usedMem; }
      if mem == lfree { NextFree(s1, i); }
    }

    /** The loop that moves lfree to the next free block. */
    method NextFree(ghost s: Sm, ghost i: nat)
      requires ChainInv(s) && s.next == next && s.blocks == blocks && s.used == used && s.m == m
      requires i < |blocks| && blocks[i] == lfree
      modifies this`lfree
      ensures lfree == Advance(blocks, used, i)
    {
      hide ChainInv;
      ghost var k := i;
      while lfree in used && lfree != m + SM
        invariant k < |blocks| && lfree == blocks[k] && Advance(blocks, used, k) == Advance(blocks, used, i)
        decreases |blocks| - k
      {
        NextInChain(s, k);
        lfree := next[lfree];
        k := k + 1;
      }
      if lfree == m + SM { EndOfChain(s, k); }
    }

    static lemma NextInChain(s: Sm, k: nat)
      requires ChainInv(s) && k < |s.blocks| && s.blocks[k] != s.End()
      ensures k + 1 < |s.blocks| && s.blocks[k] in s.next && s.next[s.blocks[k]] == s.blocks[k + 1]
    {
    }

    static lemma EndOfChain(s: Sm, k: nat)
      requires ChainInv(s) && k < |s.blocks| && s.blocks[k] == s.End()
      ensures k + 1 == |s.blocks|
    {
      LastIsEnd(s.blocks, s.End(), k);
    }

    /** rt_free of the block whose header is mem. */
    method FreeBlock(mem: int)
      requires HeapInv(Abs()) && mem in used && mem != m + SM
      modifies this
      ensures Abs() == Free(old(Abs()), mem) && HeapInv(Abs())
    {
      hide ChainInv, NoAdjacentFree, LfreeOk, IndexOf, Plug;
      ghost var s := Abs();
      FreeSpec(s, mem);
      UsedAt(s, mem);
      ghost var i := IndexOf(blocks, mem);
      ReleaseChain(s, i);
      used := used - {mem};
      if mem < lfree { lfree := mem; }
      usedMem := usedMem - (next[mem] - mem);
      PlugHoles(mem, i);
    }

    /** rt_realloc of an allocated block. */
    method Realloc(rmem: int, newsize: int) returns (r: int)
      requires HeapInv(Abs()) && rmem - SM in Live(Abs()) && 0 <= newsize < WORD
      modifies this
      ensures (Abs(), r) == S.Realloc(old(Abs()), rmem - SM, newsize) && HeapInv(Abs())
    {
      hide ChainInv, NoAdjacentFree, LfreeOk, IndexOf, Plug, Live, Free, Shrink, Move, Stamp;
      ghost var s := Abs();
      var mem := rmem - SM;
      LiveHas(s, mem);
      RequestCovers(newsize);
      ReallocSpec(s, mem, newsize);
      var n := Align(newsize);
      if n > m { return NULL; }
      if n == 0 {
        FreeBlock(mem);
        return NULL;
      }
      UsedAt(s, mem);
      ghost var i := IndexOf(blocks, mem);
      var size := next[mem] - mem - SM;
      if size == n { return rmem; }
      if n + SM + MIN < size {
        ShrinkBlock(mem, n, size, i);
        return rmem;
      }
      r := MoveTo(mem, n, size);
    }

    method ShrinkBlock(mem: int, n: int, size: int, ghost i: nat)
      requires HeapInv(Abs()) && i + 1 < |blocks| && blocks[i] == mem && mem in used && n % 4 == 0 && n >= 0
      requires size == blocks[i + 1] - mem - SM && n + SM <= size
      modifies this
      ensures Abs() == Shrink(old(Abs()), i, n)
    {
      hide ChainInv, NoAdjacentFree, LfreeOk, Plug, Ins, Stamp;
      ghost var s := Abs();
      ShrinkInv(s, i, n);
      usedMem := usedMem - (size - n);
      ghost var s1 := Abs();
      InsertLinks(mem, mem + SM + n, i, s);
      PlacesAfterIns(s.blocks, i, mem + SM + n);
      PlugHoles(mem + SM + n, i + 1);
    }

    /** A header mem2 put in after mem. */
    method InsertLinks(mem: int, mem2: int, ghost i: nat, ghost s: Sm)
      requires ChainInv(s) && Abs() == s.(usedMem := usedMem) && i + 1 < |blocks| && blocks[i] == mem && mem2 !in blocks
      modifies this`next, this`prev, this`bytes, this`blocks
      ensures Abs() == Linked(s, i, mem2).(usedMem := usedMem)
    {
      ChainPlace(s, i);
      bytes := Stamp(bytes, mem2, SM);
      next := next[mem2 := next[mem]];
      prev := prev[mem2 := mem];
      next := next[mem := mem2];
      if next[mem2] != m + SM {
        prev := prev[next[mem2] := mem2];
      }
      blocks := Ins(blocks, i, mem2);
    }

    /** A new block, the old bytes copied there as far as they fit, and the old block freed. */
    method MoveTo(mem: int, n: int, size: int) returns (nmem: int)
      requires HeapInv(Abs()) && mem in Live(Abs()) && size == |Live(Abs())[mem]| && 0 < n < WORD && Align(n) == n
      modifies this
      ensures (Abs(), nmem) == Move(old(Abs()), mem, n) && HeapInv(Abs())
    {
      hide ChainInv, NoAdjacentFree, LfreeOk, Live, Free, Copy;
      ghost var s := Abs();
      MoveReady(s, mem, n);
      MallocSpec(s, n);
      KeepIs(s, mem, n);
      nmem := Malloc(n);
      if nmem != NULL {
        bytes := Copy(bytes, nmem, mem + SM, if size < n then size else n);
        FreeBlock(mem);
      }
    }
  }
}
