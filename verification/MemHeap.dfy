/** Memory heaps with boundary headers, a block ring and a free ring: rt-thread/src/memheap.c. Addresses are
    offsets from start_addr; 32-bit build, RT_ALIGN_SIZE 4. */
module MemHeap {
  import opened Seqs
  import opened Tiles

  /** RT_MEMHEAP_SIZE: six 32-bit words. */
  const HDR: int := 24
  const MINI: int := 12
  /** RT_NULL, as a block or as a result. */
  const NULL: int := -2

  /** blocks are the headers in address order, the used tail block last; free is the free ring from free_list on. */
  datatype Heap = Heap(size: int, blocks: seq<int>, used: set<int>, free: seq<int>,
                       avail: int, maxUsed: int, bytes: seq<Cell>)

  // ---------- sums over the free blocks ----------

  function Gap(x: int, y: int, used: set<int>): int {
    if x in used then 0 else y - x - HDR
  }

  /** The payload bytes of the unused blocks among all but the last of b. */
  function Sum(b: seq<int>, used: set<int>): int {
    if |b| < 2 then 0 else Gap(b[0], b[1], used) + Sum(b[1..], used)
  }

  lemma {:induction false} SumJoin(p: seq<int>, q: seq<int>, used: set<int>)
    requires p != [] && q != []
    ensures Sum(p + q, used) == Sum(p, used) + Gap(p[|p| - 1], q[0], used) + Sum(q, used)
  {
    var b := p + q;
    assert b[1..] == p[1..] + q;
    if |p| > 1 { SumJoin(p[1..], q, used); } else { assert b[1..] == q; }
  }

  lemma {:induction false} SumFrame(b: seq<int>, used: set<int>, used1: set<int>)
    requires forall i :: 0 <= i < |b| - 1 ==> (b[i] in used <==> b[i] in used1)
    ensures Sum(b, used) == Sum(b, used1)
  {
    if |b| >= 2 {
      forall i | 0 <= i < |b[1..]| - 1 ensures b[1..][i] in used <==> b[1..][i] in used1 { assert b[1..][i] == b[i + 1]; }
      SumFrame(b[1..], used, used1);
    }
  }

  // ---------- invariant ----------

  /** The blocks tile the pool, in address order, word-aligned, each with room for its header. */
  ghost predicate Tiled(b: seq<int>, size: int) {
    && |b| >= 2 && b[0] == 0 && b[|b| - 1] == size - HDR
    && (forall i, j :: 0 <= i < j < |b| ==> b[i] + HDR <= b[j])
    && (forall i :: 0 <= i < |b| ==> b[i] % 4 == 0)
  }

  ghost predicate NoAdjacentFree(b: seq<int>, used: set<int>) {
    forall i :: 0 <= i < |b| - 1 ==> b[i] in used || b[i + 1] in used
  }

  ghost predicate UsedOk(b: seq<int>, used: set<int>, size: int) {
    (forall x :: x in used ==> x in b) && size - HDR in used
  }

  ghost predicate FreeOk(b: seq<int>, used: set<int>, free: seq<int>) {
    NoDup(free) && forall x :: x in free <==> x in b && x !in used
  }

  ghost predicate HeadersOk(b: seq<int>, bytes: seq<Cell>) {
    forall x, k :: x in b && x <= k < x + HDR && 0 <= k < |bytes| ==> bytes[k] == Meta
  }

  /** The ring of blocks tiles the pool and ends in the used tail; the free ring holds exactly the unused blocks;
      available_size is the sum of the unused payloads. */
  ghost predicate CoreInv(h: Heap) {
    && Tiled(h.blocks, h.size) && h.size < WORD && |h.bytes| == h.size
    && UsedOk(h.blocks, h.used, h.size)
    && FreeOk(h.blocks, h.used, h.free)
    && h.avail == Sum(h.blocks, h.used)
    && HeadersOk(h.blocks, h.bytes)
  }

  /** Moreover, no two neighbours are unused, and max_used_size is at least what is in use. */
  ghost predicate HeapInv(h: Heap) {
    CoreInv(h) && NoAdjacentFree(h.blocks, h.used) && h.size - h.avail <= h.maxUsed
  }

  lemma TiledNoDup(b: seq<int>, size: int)
    requires Tiled(b, size)
    ensures NoDup(b)
  {
  }

  /** Is x a block other than the tail? */
  ghost predicate Block(h: Heap, x: int) { x in h.blocks && x != h.size - HDR }

  /** item->next */
  ghost function Next(h: Heap, x: int): int
    requires Tiled(h.blocks, h.size) && Block(h, x)
  {
    h.blocks[IndexOf(h.blocks, x) + 1]
  }

  /** MEMITEM_SIZE */
  ghost function Payload(h: Heap, x: int): int
    requires Tiled(h.blocks, h.size) && Block(h, x)
  {
    Next(h, x) - x - HDR
  }

  lemma NextAt(h: Heap, i: nat)
    requires Tiled(h.blocks, h.size) && i + 1 < |h.blocks|
    ensures Block(h, h.blocks[i]) && Next(h, h.blocks[i]) == h.blocks[i + 1] && IndexOf(h.blocks, h.blocks[i]) == i
    ensures 0 <= h.blocks[i] && h.blocks[i] + HDR <= h.blocks[i + 1] <= h.size - HDR
  {
    TiledNoDup(h.blocks, h.size);
    IndexAt(h.blocks, i);
  }

  // ---------- the changes the operations are made of ----------

  lemma InsTiled(b: seq<int>, size: int, i: nat, n: int)
    requires Tiled(b, size) && i + 1 < |b| && n % 4 == 0 && b[i] + HDR <= n && n + HDR <= b[i + 1]
    ensures Tiled(Ins(b, i, n), size) && n !in b
  {
    InsAt(b, i, n);
    var r := Ins(b, i, n);
    hide Ins;
    forall j, k | 0 <= j < k < |r| ensures r[j] + HDR <= r[k] { InsOrder(b, size, i, n, r, j, k); }
    forall j | 0 <= j < |b| ensures b[j] != n { if j < i { } else if j > i + 1 { } }
  }

  lemma InsOrder(b: seq<int>, size: int, i: nat, n: int, r: seq<int>, j: nat, k: nat)
    requires Tiled(b, size) && i + 1 < |b| && b[i] + HDR <= n && n + HDR <= b[i + 1] && j < k < |r| == |b| + 1
    requires forall k {:trigger r[k]} :: 0 <= k < |r| ==> r[k] == if k <= i then b[k] else if k == i + 1 then n else b[k - 1]
    ensures r[j] + HDR <= r[k]
  {
    if j == i + 1 {
      assert b[i + 1] <= b[k - 1];
    } else if k == i + 1 {
      assert r[j] == b[j] && r[k] == n && (j == i || b[j] + HDR <= b[i]);
    } else {
      assert b[if j <= i then j else j - 1] + HDR <= b[if k <= i then k else k - 1];
    }
  }

  lemma DelTiled(b: seq<int>, size: int, i: nat)
    requires Tiled(b, size) && 0 < i && i + 1 < |b|
    ensures Tiled(Del(b, i), size)
  {
    DelAt(b, i);
    hide Del;
  }

  /** How the sum of unused payloads changes when the block at i is split by a header at n. */
  lemma InsSum(b: seq<int>, i: nat, n: int, used: set<int>, used1: set<int>)
    requires NoDup(b) && i + 1 < |b| && forall x :: x in b && x != b[i] ==> (x in used <==> x in used1)
    ensures Sum(Ins(b, i, n), used1)
            == Sum(b, used) - Gap(b[i], b[i + 1], used) + Gap(b[i], n, used1) + Gap(n, b[i + 1], used1)
  {
    var p, q := b[..i + 1], b[i + 1..];
    SumJoin(p, q, used);
    SumJoin(p + [n], q, used1);
    SumJoin(p, [n], used1);
    assert b == p + q;
    SumFrame(p, used, used1);
    SumFrame(q, used, used1);
  }

  /** When the block at i is merged into the one before. */
  lemma DelSum(b: seq<int>, i: nat, used: set<int>, used1: set<int>)
    requires NoDup(b) && 0 < i && i + 1 < |b|
    requires forall x :: x in b && x != b[i] && x != b[i - 1] ==> (x in used <==> x in used1)
    ensures Sum(Del(b, i), used1)
            == Sum(b, used) - Gap(b[i - 1], b[i], used) - Gap(b[i], b[i + 1], used) + Gap(b[i - 1], b[i + 1], used1)
  {
    var p, q := b[..i], b[i + 1..];
    SumJoin(p + [b[i]], q, used);
    SumJoin(p, [b[i]], used);
    SumJoin(p, q, used1);
    assert b == p + [b[i]] + q;
    SumFrame(p, used, used1);
    SumFrame(q, used, used1);
  }

  /** And when only the used bit of the block at i changes. */
  lemma UsedSum(b: seq<int>, i: nat, used: set<int>, used1: set<int>)
    requires NoDup(b) && i + 1 < |b| && forall x :: x in b && x != b[i] ==> (x in used <==> x in used1)
    ensures Sum(b, used1) == Sum(b, used) - Gap(b[i], b[i + 1], used) + Gap(b[i], b[i + 1], used1)
  {
    var p, q := b[..i + 1], b[i + 1..];
    SumJoin(p, q, used);
    SumJoin(p, q, used1);
    assert b == p + q;
    SumFrame(p, used, used1);
    SumFrame(q, used, used1);
  }

  /** The block after each block, once a header was put in at n. */
  lemma InsNext(h: Heap, h1: Heap, i: nat, n: int)
    requires Tiled(h.blocks, h.size) && i + 1 < |h.blocks| && Tiled(h1.blocks, h1.size) && h1.size == h.size
    requires h1.blocks == Ins(h.blocks, i, n)
    ensures Block(h, h.blocks[i]) && Block(h1, h.blocks[i]) && Next(h1, h.blocks[i]) == n
    ensures Block(h1, n) && Next(h1, n) == h.blocks[i + 1]
    ensures forall x :: Block(h, x) && x != h.blocks[i] ==> Block(h1, x) && Next(h1, x) == Next(h, x)
  {
    InsAt(h.blocks, i, n);
    hide Ins, Tiled, Block, Next;
    NextAt(h, i);
    NextAt(h1, i);
    NextAt(h1, i + 1);
    forall x | Block(h, x) && x != h.blocks[i] ensures Block(h1, x) && Next(h1, x) == Next(h, x) { InsNextAt(h, h1, i, n, x); }
  }

  lemma InsNextAt(h: Heap, h1: Heap, i: nat, n: int, x: int)
    requires Tiled(h.blocks, h.size) && i + 1 < |h.blocks| && Tiled(h1.blocks, h1.size) && h1.size == h.size
    requires h1.blocks == Ins(h.blocks, i, n) && Block(h, x) && x != h.blocks[i]
    ensures Block(h1, x) && Next(h1, x) == Next(h, x)
  {
    var k := IndexOf(h.blocks, x);
    TailLast(h, k);
    InsAt(h.blocks, i, n);
    hide Ins, Tiled, Next, IndexOf;
    NextAt(h, k);
    NextAt(h1, if k < i then k else k + 1);
  }

  lemma TailLast(h: Heap, k: nat)
    requires Tiled(h.blocks, h.size) && k < |h.blocks|
    ensures h.blocks[k] != h.size - HDR <==> k + 1 < |h.blocks|
  {
  }

  lemma DelNext(h: Heap, h1: Heap, i: nat)
    requires Tiled(h.blocks, h.size) && 0 < i && i + 1 < |h.blocks| && Tiled(h1.blocks, h1.size) && h1.size == h.size
    requires h1.blocks == Del(h.blocks, i)
    ensures Block(h1, h.blocks[i - 1]) && Next(h1, h.blocks[i - 1]) == h.blocks[i + 1]
    ensures forall x :: Block(h, x) && x != h.blocks[i] && x != h.blocks[i - 1] ==> Block(h1, x) && Next(h1, x) == Next(h, x)
  {
    DelAt(h.blocks, i);
    hide Del, Tiled, Block, Next;
    NextAt(h1, i - 1);
    forall x | Block(h, x) && x != h.blocks[i] && x != h.blocks[i - 1] ensures Block(h1, x) && Next(h1, x) == Next(h, x) {
      DelNextAt(h, h1, i, x);
    }
  }

  lemma DelNextAt(h: Heap, h1: Heap, i: nat, x: int)
    requires Tiled(h.blocks, h.size) && 0 < i && i + 1 < |h.blocks| && Tiled(h1.blocks, h1.size) && h1.size == h.size
    requires h1.blocks == Del(h.blocks, i) && Block(h, x) && x != h.blocks[i] && x != h.blocks[i - 1]
    ensures Block(h1, x) && Next(h1, x) == Next(h, x)
  {
    var k := IndexOf(h.blocks, x);
    TailLast(h, k);
    DelAt(h.blocks, i);
    hide Del, Tiled, Next, IndexOf;
    NextAt(h, k);
    NextAt(h1, if k < i then k else k - 1);
  }

  // ---------- the operations ----------

  /** The aligned size asked for, at least RT_MEMHEAP_MINIALLOC. */
  function Request(size: int): (r: int)
    ensures r >= MINI && r % 4 == 0
  {
    if Align(size) < MINI then MINI else Align(size)
  }

  /** The size asked for is covered unless rounding it up wraps. */
  lemma RequestCovers(size: int)
    requires 0 <= size < WORD
    ensures Request(size) >= size <==> size <= WORD - 4
    ensures Request(size) < WORD
  {
  }

  /** max_used_size keeps up with what is in use. */
  function Mark(h: Heap): Heap {
    if h.size - h.avail > h.maxUsed then h.(maxUsed := h.size - h.avail) else h
  }

  lemma FreeBlock(h: Heap, x: int)
    requires CoreInv(h) && x in h.free
    ensures Block(h, x) && x !in h.used && Tiled(h.blocks, h.size)
  {
    hide Tiled, NoAdjacentFree, HeadersOk;
  }

  /** The search of rt_memheap_alloc along the free ring. */
  ghost function FirstFit(h: Heap, j: nat, size: int): nat
    requires CoreInv(h) && j <= |h.free|
    decreases |h.free| - j
  {
    if j == |h.free| then j
    else
      FreeBlock(h, h.free[j]);
      if Payload(h, h.free[j]) >= size then j else FirstFit(h, j + 1, size)
  }

  /** A free block taken into use, split when the rest is worth a block. */
  ghost function Carve(h: Heap, x: int, size: int): Heap
    requires Tiled(h.blocks, h.size) && Block(h, x)
  {
    var f, i := Payload(h, x), IndexOf(h.blocks, x);
    if f >= size + HDR + MINI then
      var n := x + size + HDR;
      Mark(h.(blocks := Ins(h.blocks, i, n), bytes := Stamp(h.bytes, n, HDR), used := h.used + {x},
              free := [n] + Without(h.free, x), avail := h.avail - size - HDR))
    else
      Mark(h.(used := h.used + {x}, free := Without(h.free, x), avail := h.avail - f))
  }

  ghost function Alloc(h: Heap, request: int): (Heap, int)
    requires HeapInv(h)
  {
    var size := Request(request);
    if size >= h.avail then (h, NULL)
    else
      FirstFitBounds(h, 0, size);
      var j := FirstFit(h, 0, size);
      if j == |h.free| then (h, NULL)
      else
        FreeBlock(h, h.free[j]);
        (Carve(h, h.free[j], size), h.free[j] + HDR)
  }

  lemma FirstFitBounds(h: Heap, j: nat, size: int)
    requires CoreInv(h) && j <= |h.free|
    ensures FirstFit(h, j, size) <= |h.free|
    ensures var r := FirstFit(h, j, size); r < |h.free| ==> Block(h, h.free[r]) && Payload(h, h.free[r]) >= size
    ensures forall k :: j <= k < FirstFit(h, j, size) ==> Block(h, h.free[k]) && Payload(h, h.free[k]) < size
    decreases |h.free| - j
  {
    hide CoreInv, Payload, Block;
    if j < |h.free| {
      FreeBlock(h, h.free[j]);
      if Payload(h, h.free[j]) < size { FirstFitBounds(h, j + 1, size); }
    }
  }

  // ---------- rt_memheap_alloc ----------

  lemma CarveInv(h: Heap, x: int, size: int)
    requires HeapInv(h) && x in h.free && size >= MINI && size % 4 == 0
    requires Block(h, x) && Payload(h, x) >= size
    ensures HeapInv(Carve(h, x, size))
  {
    hide NoAdjacentFree, HeadersOk, FreeOk, UsedOk, Tiled, IndexOf, Ins, Stamp, Sum, Without, Mark;
    var i := IndexOf(h.blocks, x);
    TailLast(h, i);
    NextAt(h, i);
    if Payload(h, x) >= size + HDR + MINI { SplitInv(h, i, size); } else { WholeInv(h, i); }
  }

  lemma NowUsed(b: seq<int>, used: set<int>, free: seq<int>, size: int, x: int)
    requires UsedOk(b, used, size) && FreeOk(b, used, free) && x in b
    ensures UsedOk(b, used + {x}, size) && FreeOk(b, used + {x}, Without(free, x))
    ensures NoAdjacentFree(b, used) ==> NoAdjacentFree(b, used + {x})
  {
    hide Without;
  }

  lemma WholeInv(h: Heap, i: nat)
    requires HeapInv(h) && i + 1 < |h.blocks| && h.blocks[i] in h.free && Block(h, h.blocks[i])
    ensures HeapInv(Mark(h.(used := h.used + {h.blocks[i]}, free := Without(h.free, h.blocks[i]),
                            avail := h.avail - Payload(h, h.blocks[i]))))
  {
    hide NoAdjacentFree, HeadersOk, FreeOk, UsedOk, Without;
    var x := h.blocks[i];
    TiledNoDup(h.blocks, h.size);
    NextAt(h, i);
    FreeBlock(h, x);
    NowUsed(h.blocks, h.used, h.free, h.size, x);
    hide Tiled;
    UsedSum(h.blocks, i, h.used, h.used + {x});
    hide Sum;
  }

  lemma SplitInv(h: Heap, i: nat, size: int)
    requires HeapInv(h) && i + 1 < |h.blocks| && h.blocks[i] in h.free && size >= MINI && size % 4 == 0
    requires h.blocks[i] + size + HDR + HDR <= h.blocks[i + 1]
    ensures var x := h.blocks[i]; var n := x + size + HDR;
      HeapInv(Mark(h.(blocks := Ins(h.blocks, i, n), bytes := Stamp(h.bytes, n, HDR), used := h.used + {x},
                      free := [n] + Without(h.free, x), avail := h.avail - size - HDR)))
  {
    hide NoAdjacentFree, HeadersOk, FreeOk, UsedOk, Without, Ins, Stamp, Sum;
    var x := h.blocks[i];
    var n := x + size + HDR;
    TiledNoDup(h.blocks, h.size);
    FreeBlock(h, x);
    TiledMod(h.blocks, h.size, i);
    InsTiled(h.blocks, h.size, i, n);
    hide Tiled;
    InsSum(h.blocks, i, n, h.used, h.used + {x});
    SplitNeighbours(h.blocks, i, n, h.used);
    NowUsed(h.blocks, h.used, h.free, h.size, x);
    NewFree(h.blocks, h.used + {x}, Without(h.free, x), h.size, i, n);
    SplitHeaders(h.blocks, h.bytes, i, n);
  }

  lemma TiledMod(b: seq<int>, size: int, i: nat)
    requires Tiled(b, size) && i < |b|
    ensures b[i] % 4 == 0 && 0 <= b[i] <= size - HDR
  {
    if i + 1 < |b| { assert b[i] + HDR <= b[|b| - 1]; }
    if i > 0 { assert b[0] + HDR <= b[i]; }
  }

  /** A new header that starts a free block. */
  lemma NewFree(b: seq<int>, used: set<int>, free: seq<int>, size: int, i: nat, n: int)
    requires UsedOk(b, used, size) && FreeOk(b, used, free) && n !in b && i < |b|
    ensures UsedOk(Ins(b, i, n), used, size) && FreeOk(Ins(b, i, n), used, [n] + free) && n !in used
  {
    InsAt(b, i, n);
    hide Ins;
    assert n !in used && n !in free;
  }

  lemma SplitNeighbours(b: seq<int>, i: nat, n: int, used: set<int>)
    requires NoAdjacentFree(b, used) && i + 1 < |b| && b[i] !in used
    ensures NoAdjacentFree(Ins(b, i, n), used + {b[i]})
  {
    InsAt(b, i, n);
    assert b[i] in used || b[i + 1] in used;
    hide Ins;
  }

  lemma SplitHeaders(b: seq<int>, bytes: seq<Cell>, i: nat, n: int)
    requires HeadersOk(b, bytes) && i < |b|
    ensures HeadersOk(Ins(b, i, n), Stamp(bytes, n, HDR))
  {
    InsAt(b, i, n);
    hide Ins;
  }

  // ---------- the live regions ----------

  /** What the callers have: for every allocated block, the bytes of its payload. */
  ghost function Live(h: Heap): map<int, seq<Cell>>
    requires CoreInv(h)
  {
    map x | x in h.used && x != h.size - HDR :: Content(h, x)
  }

  ghost function Content(h: Heap, x: int): seq<Cell>
    requires CoreInv(h) && x in h.used && x != h.size - HDR
  {
    UsedBlock(h, x);
    h.bytes[x + HDR..Next(h, x)]
  }

  lemma UsedBlock(h: Heap, x: int)
    requires CoreInv(h) && x in h.used && x != h.size - HDR
    ensures Tiled(h.blocks, h.size) && Block(h, x) && 0 <= x && x + HDR <= Next(h, x) <= h.size - HDR && |h.bytes| == h.size
  {
    hide HeadersOk, FreeOk;
    var k := IndexOf(h.blocks, x);
    TailLast(h, k);
    NextAt(h, k);
  }

  /** Live payloads do not overlap, and lie between headers. */
  lemma LiveDisjoint(h: Heap, x: int, z: int)
    requires CoreInv(h) && x in Live(h) && z in Live(h) && x < z
    ensures x + HDR + |Live(h)[x]| <= z
  {
    UsedBlock(h, x);
    UsedBlock(h, z);
    hide CoreInv;
    ContentLength(h, x);
    InOrder(h, x, z);
  }

  lemma InOrder(h: Heap, x: int, z: int)
    requires Tiled(h.blocks, h.size) && Block(h, x) && z in h.blocks && x < z
    ensures Next(h, x) <= z
  {
    var i, j := IndexOf(h.blocks, x), IndexOf(h.blocks, z);
    TailLast(h, i);
    assert i + 1 < j ==> h.blocks[i + 1] + HDR <= h.blocks[j];
  }

  /** Block z has the same end and its payload is untouched. */
  ghost predicate Kept(h: Heap, h1: Heap, z: int)
    requires Tiled(h.blocks, h.size) && Block(h, z) && Tiled(h1.blocks, h1.size)
  {
    && Block(h1, z) && Next(h1, z) == Next(h, z) && |h1.bytes| == |h.bytes|
    && forall k :: z + HDR <= k < Next(h, z) && 0 <= k < |h.bytes| ==> h1.bytes[k] == h.bytes[k]
  }

  lemma KeptContent(h: Heap, h1: Heap, z: int)
    requires CoreInv(h) && CoreInv(h1) && h1.size == h.size && z in h.used && z in h1.used && z != h.size - HDR
    requires Tiled(h.blocks, h.size) && Block(h, z) && Tiled(h1.blocks, h1.size) && Kept(h, h1, z)
    ensures Content(h1, z) == Content(h, z)
  {
    hide CoreInv, Next, Block;
    UsedBlock(h, z);
    UsedBlock(h1, z);
  }

  /** The live regions after blocks other than x were kept. */
  lemma LiveOthers(h: Heap, h1: Heap, x: int)
    requires CoreInv(h) && CoreInv(h1) && h1.size == h.size && x != h.size - HDR
    requires Tiled(h.blocks, h.size) && Tiled(h1.blocks, h1.size)
    requires forall z :: z != x ==> (z in h1.used <==> z in h.used)
    requires forall z :: z in h.used && Block(h, z) && z != x ==> Kept(h, h1, z)
    ensures x in h1.used ==> Live(h1) == Live(h)[x := Content(h1, x)]
    ensures x !in h1.used ==> Live(h1) == map z | z in Live(h) && z != x :: Live(h)[z]
  {
    hide CoreInv, Content, Tiled, Kept;
    forall z | z in h.used && z != h.size - HDR && z != x ensures Content(h1, z) == Content(h, z) {
      UsedBlock(h, z);
      KeptContent(h, h1, z);
    }
  }

  lemma InvTiled(h: Heap)
    requires CoreInv(h)
    ensures Tiled(h.blocks, h.size) && h.size - HDR in h.used && |h.bytes| == h.size && NoDup(h.blocks)
  {
    TiledNoDup(h.blocks, h.size);
  }

  /** A header put inside the block at i leaves every other block as it was. */
  lemma InsKept(h: Heap, h1: Heap, i: nat, n: int)
    requires Tiled(h.blocks, h.size) && i + 1 < |h.blocks| && h.blocks[i] + HDR <= n && n + HDR <= h.blocks[i + 1]
    requires Tiled(h1.blocks, h1.size) && h1.size == h.size && h1.blocks == Ins(h.blocks, i, n) && h1.bytes == Stamp(h.bytes, n, HDR)
    ensures forall z :: Block(h, z) && z != h.blocks[i] ==> Kept(h, h1, z)
  {
    InsNext(h, h1, i, n);
    hide Tiled, Ins, Block, Next;
    forall z | Block(h, z) && z != h.blocks[i] ensures Kept(h, h1, z) {
      forall k | z + HDR <= k < Next(h, z) && 0 <= k < |h.bytes| ensures h1.bytes[k] == h.bytes[k] {
        StampOutside(h, i, n, z, k);
      }
    }
  }

  /** Where a header goes inside the block at i: no other block's payload is touched. */
  lemma StampOutside(h: Heap, i: nat, n: int, x: int, k: int)
    requires Tiled(h.blocks, h.size) && i + 1 < |h.blocks| && h.blocks[i] + HDR <= n && n + HDR <= h.blocks[i + 1]
    requires Block(h, x) && x != h.blocks[i] && x + HDR <= k < Next(h, x)
    ensures !(n <= k < n + HDR)
  {
    var j := IndexOf(h.blocks, x);
    TailLast(h, j);
    NextAt(h, j);
    assert j < i ==> j + 1 == i || h.blocks[j + 1] + HDR <= h.blocks[i];
    assert i < j ==> i + 1 == j || h.blocks[i + 1] + HDR <= h.blocks[j];
  }

  lemma SameKept(h: Heap, h1: Heap)
    requires h1.blocks == h.blocks && h1.size == h.size && h1.bytes == h.bytes && Tiled(h.blocks, h.size)
    ensures forall z :: Block(h, z) ==> Kept(h, h1, z)
  {
  }

  /** Allocation adds one live region and touches no other. */
  lemma CarveLive(h: Heap, x: int, size: int)
    requires HeapInv(h) && x in h.free && size >= MINI && size % 4 == 0
    requires Tiled(h.blocks, h.size) && Block(h, x) && Payload(h, x) >= size && HeapInv(Carve(h, x, size))
    ensures var h1 := Carve(h, x, size);
      && x !in Live(h) && x in Live(h1) && size <= |Live(h1)[x]| < size + HDR + MINI && Live(h1) == Live(h)[x := Live(h1)[x]]
  {
    hide CoreInv, Tiled, Kept, Content;
    var h1, i := Carve(h, x, size), IndexOf(h.blocks, x);
    InvTiled(h1);
    FreeBlock(h, x);
    CarveNext(h, x, size);
    hide Carve, Block, Next;
    LiveOthers(h, h1, x);
    ContentLength(h1, x);
  }

  lemma ContentLength(h: Heap, x: int)
    requires CoreInv(h) && x in h.used && x != h.size - HDR && Tiled(h.blocks, h.size) && Block(h, x)
    ensures |Content(h, x)| == Payload(h, x)
  {
    hide CoreInv;
    UsedBlock(h, x);
  }

  lemma CarveNext(h: Heap, x: int, size: int)
    requires Tiled(h.blocks, h.size) && Block(h, x) && Payload(h, x) >= size >= MINI && Tiled(Carve(h, x, size).blocks, h.size)
    ensures var h1 := Carve(h, x, size);
      && h1.used == h.used + {x} && h1.size == h.size && Block(h1, x) && size <= Payload(h1, x) < size + HDR + MINI && x != h.size - HDR
      && forall z :: Block(h, z) && z != x ==> Kept(h, h1, z)
  {
    hide Tiled, Ins, Sum, Kept, IndexOf;
    var h1, i := Carve(h, x, size), IndexOf(h.blocks, x);
    TailLast(h, i);
    NextAt(h, i);
    if Payload(h, x) >= size + HDR + MINI {
      InsNext(h, h1, i, x + size + HDR);
      InsKept(h, h1, i, x + size + HDR);
    } else {
      SameKept(h, h1);
    }
  }

  /** rt_memheap_alloc keeps the heap in shape; on success a new region, as large as asked for unless rounding the
      size wraps, appears among the live ones. */
  lemma AllocSpec(h: Heap, request: int)
    requires HeapInv(h) && 0 <= request < WORD
    ensures HeapInv(Alloc(h, request).0)
    ensures Alloc(h, request).1 == NULL ==> Alloc(h, request).0 == h
    ensures Alloc(h, request).1 != NULL ==> Added(h, Alloc(h, request).0, Alloc(h, request).1 - HDR, request)
  {
    hide CoreInv, Request, Live, Carve, Tiled, Payload;
    InvTiled(h);
    var size := Request(request);
    FirstFitBounds(h, 0, size);
    var j := FirstFit(h, 0, size);
    if size < h.avail && j < |h.free| {
      RequestCovers(request);
      FreeBlock(h, h.free[j]);
      FirstNotNull(h, h.free[j]);
      CarveInv(h, h.free[j], size);
      CarveLive(h, h.free[j], size);
    }
  }

  /** x is a new live region of h1; the others are as in h. */
  ghost predicate Added(h: Heap, h1: Heap, x: int, request: int)
    requires CoreInv(h) && CoreInv(h1)
  {
    && x % 4 == 0 && x !in Live(h) && x in Live(h1) && Live(h1) == Live(h)[x := Live(h1)[x]]
    && Request(request) <= |Live(h1)[x]| < Request(request) + HDR + MINI && (request <= WORD - 4 ==> |Live(h1)[x]| >= request)
  }

  /** It fails iff no free block is large enough, or all that is available would be used up. */
  lemma AllocFailsIff(h: Heap, request: int)
    requires HeapInv(h)
    ensures Tiled(h.blocks, h.size) && forall x :: x in h.free ==> Block(h, x)
    ensures Alloc(h, request).1 == NULL <==>
      Request(request) >= h.avail || forall x :: x in h.free ==> Payload(h, x) < Request(request)
  {
    hide CoreInv, Request, Carve, Tiled, Payload;
    InvTiled(h);
    var size := Request(request);
    FirstFitBounds(h, 0, size);
    forall x | x in h.free ensures Block(h, x) { FreeBlock(h, x); }
    var j := FirstFit(h, 0, size);
    if j < |h.free| {
      FirstNotNull(h, h.free[j]);
      assert h.free[j] in h.free;
    } else {
      forall x | x in h.free ensures Payload(h, x) < size {
        var k :| 0 <= k < |h.free| && h.free[k] == x;
      }
    }
  }

  lemma FirstNotNull(h: Heap, x: int)
    requires Tiled(h.blocks, h.size) && Block(h, x)
    ensures x + HDR != NULL && x % 4 == 0
  {
    var k := IndexOf(h.blocks, x);
    if k > 0 { assert h.blocks[0] + HDR <= h.blocks[k]; }
  }

  // ---------- the steps of rt_memheap_free and rt_memheap_realloc ----------

  /** The used bit cleared, the payload available again, the block at the front of the free ring. */
  function Unuse(h: Heap, i: nat): Heap
    requires i + 1 < |h.blocks|
  {
    h.(used := h.used - {h.blocks[i]}, free := [h.blocks[i]] + h.free,
       avail := h.avail + (h.blocks[i + 1] - h.blocks[i] - HDR))
  }

  /** The unused block at i becomes part of the unused block before it. */
  function Merge(h: Heap, i: nat): Heap
    requires i < |h.blocks|
  {
    h.(blocks := Del(h.blocks, i), free := Without(h.free, h.blocks[i]), avail := h.avail + HDR)
  }

  /** The unused block at i becomes part of the used block before it. */
  function Absorb(h: Heap, i: nat): Heap
    requires i + 1 < |h.blocks|
  {
    h.(blocks := Del(h.blocks, i), free := Without(h.free, h.blocks[i]),
       avail := h.avail - (h.blocks[i + 1] - h.blocks[i] - HDR))
  }

  /** The used block at i keeps n bytes; the rest becomes an unused block. */
  function CutTail(h: Heap, i: nat, n: int): Heap
    requires i + 1 < |h.blocks|
  {
    var z := h.blocks[i] + HDR + n;
    h.(blocks := Ins(h.blocks, i, z), bytes := Stamp(h.bytes, z, HDR), free := [z] + h.free,
       avail := h.avail + (h.blocks[i + 1] - z - HDR))
  }

  /** No two unused neighbours, but possibly at the positions of s. */
  ghost predicate AdjacentOnly(b: seq<int>, used: set<int>, s: set<int>) {
    forall k :: 0 <= k < |b| - 1 && k !in s ==> b[k] in used || b[k + 1] in used
  }

  lemma UnuseCore(h: Heap, i: nat)
    requires CoreInv(h) && i + 1 < |h.blocks| && h.blocks[i] in h.used
    ensures CoreInv(Unuse(h, i))
    ensures NoAdjacentFree(h.blocks, h.used) ==> AdjacentOnly(h.blocks, Unuse(h, i).used, {i - 1, i})
  {
    hide HeadersOk;
    TiledNoDup(h.blocks, h.size);
    UsedSum(h.blocks, i, h.used, h.used - {h.blocks[i]});
    TailLast(h, i);
    hide Tiled, Sum;
    NoDupCons(h.free, h.blocks[i]);
  }

  lemma NoDupCons(l: seq<int>, x: int)
    requires NoDup(l) && x !in l
    ensures NoDup([x] + l)
  {
  }

  lemma MergeCore(h: Heap, i: nat)
    requires CoreInv(h) && 0 < i && i + 1 < |h.blocks| && h.blocks[i] !in h.used && h.blocks[i - 1] !in h.used
    ensures CoreInv(Merge(h, i))
    ensures AdjacentOnly(h.blocks, h.used, {i - 1}) ==> NoAdjacentFree(Merge(h, i).blocks, h.used)
    ensures AdjacentOnly(h.blocks, h.used, {i - 1, i}) ==> AdjacentOnly(Merge(h, i).blocks, h.used, {i - 1})
  {
    hide HeadersOk, FreeOk, UsedOk, Without, Sum, AdjacentOnly, NoAdjacentFree;
    var b := h.blocks;
    TiledNoDup(b, h.size);
    DelTiled(b, h.size, i);
    DelSum(b, i, h.used, h.used);
    hide Tiled, Del;
    RemovedFree(b, h.used, h.free, h.size, i);
    DelHeaders(b, h.bytes, i);
    DelAdjacent(b, h.used, i);
  }

  lemma DelAdjacent(b: seq<int>, used: set<int>, i: nat)
    requires 0 < i && i + 1 < |b| && b[i] !in used && b[i - 1] !in used
    ensures AdjacentOnly(b, used, {i - 1}) ==> NoAdjacentFree(Del(b, i), used)
    ensures AdjacentOnly(b, used, {i - 1, i}) ==> AdjacentOnly(Del(b, i), used, {i - 1})
  {
    DelAt(b, i);
    hide Del;
    assert AdjacentOnly(b, used, {i - 1}) ==> b[i] in used || b[i + 1] in used;
  }

  lemma RemovedFree(b: seq<int>, used: set<int>, free: seq<int>, size: int, i: nat)
    requires UsedOk(b, used, size) && FreeOk(b, used, free) && NoDup(b) && i < |b| && b[i] !in used
    ensures UsedOk(Del(b, i), used, size) && FreeOk(Del(b, i), used, Without(free, b[i]))
  {
    DelAt(b, i);
    hide Del, Without;
  }

  lemma DelHeaders(b: seq<int>, bytes: seq<Cell>, i: nat)
    requires HeadersOk(b, bytes) && i < |b|
    ensures HeadersOk(Del(b, i), bytes)
  {
    assert forall x :: x in Del(b, i) ==> x in b;
    hide Del;
  }

  lemma AbsorbCore(h: Heap, i: nat)
    requires CoreInv(h) && 0 < i && i + 1 < |h.blocks| && h.blocks[i] !in h.used && h.blocks[i - 1] in h.used
    requires NoAdjacentFree(h.blocks, h.used)
    ensures CoreInv(Absorb(h, i)) && NoAdjacentFree(Absorb(h, i).blocks, h.used)
    ensures h.blocks[i + 1] in h.used
  {
    hide HeadersOk, FreeOk, UsedOk, Without, Sum;
    var b := h.blocks;
    TiledNoDup(b, h.size);
    DelTiled(b, h.size, i);
    hide Tiled;
    DelSum(b, i, h.used, h.used);
    RemovedFree(b, h.used, h.free, h.size, i);
    DelHeaders(b, h.bytes, i);
    DelAt(b, i);
    assert b[i] in h.used || b[i + 1] in h.used;
    hide Del;
  }

  lemma CutTailCore(h: Heap, i: nat, n: int)
    requires CoreInv(h) && i + 1 < |h.blocks| && h.blocks[i] in h.used && n >= 0 && n % 4 == 0
    requires h.blocks[i] + HDR + n + HDR <= h.blocks[i + 1] && NoAdjacentFree(h.blocks, h.used)
    ensures CoreInv(CutTail(h, i, n)) && AdjacentOnly(CutTail(h, i, n).blocks, h.used, {i + 1})
    ensures h.blocks[i + 1] in h.used ==> NoAdjacentFree(CutTail(h, i, n).blocks, h.used)
  {
    hide HeadersOk, FreeOk, UsedOk, Without, Sum, Stamp;
    var b, z := h.blocks, h.blocks[i] + HDR + n;
    TiledNoDup(b, h.size);
    TiledMod(b, h.size, i);
    InsTiled(b, h.size, i, z);
    hide Tiled;
    InsSum(b, i, z, h.used, h.used);
    NewFree(b, h.used, h.free, h.size, i, z);
    SplitHeaders(b, h.bytes, i, z);
    hide Ins, NoAdjacentFree, AdjacentOnly;
    InsAdjacent(b, h.used, i, z);
  }

  lemma InsAdjacent(b: seq<int>, used: set<int>, i: nat, z: int)
    requires NoAdjacentFree(b, used) && i + 1 < |b| && b[i] in used
    ensures AdjacentOnly(Ins(b, i, z), used, {i + 1})
    ensures b[i + 1] in used ==> NoAdjacentFree(Ins(b, i, z), used)
  {
    InsAt(b, i, z);
    hide Ins;
  }

  // what the steps do to the other blocks

  lemma DelKept(h: Heap, h1: Heap, i: nat)
    requires Tiled(h.blocks, h.size) && 0 < i && i + 1 < |h.blocks|
    requires Tiled(h1.blocks, h1.size) && h1.size == h.size && h1.blocks == Del(h.blocks, i) && h1.bytes == h.bytes
    ensures forall z :: Block(h, z) && z != h.blocks[i] && z != h.blocks[i - 1] ==> Kept(h, h1, z)
  {
    DelNext(h, h1, i);
    hide Tiled, Del, Block, Next;
  }

  lemma KeptTwice(h: Heap, h1: Heap, h2: Heap, z: int)
    requires Tiled(h.blocks, h.size) && Block(h, z) && Tiled(h1.blocks, h1.size) && Kept(h, h1, z)
    requires Tiled(h2.blocks, h2.size) && Kept(h1, h2, z)
    ensures Kept(h, h2, z)
  {
    hide Tiled, Block, Next;
  }

  lemma BlockIndex(h: Heap, x: int)
    requires CoreInv(h) && x in h.used && x != h.size - HDR
    ensures var i := IndexOf(h.blocks, x); i + 1 < |h.blocks| && h.blocks[i] == x
    ensures Tiled(h.blocks, h.size) && Block(h, x) && Next(h, x) == h.blocks[IndexOf(h.blocks, x) + 1]
  {
    UsedBlock(h, x);
    TailLast(h, IndexOf(h.blocks, x));
  }

  /** The unused block at j takes in the next one if that is unused too. */
  function Right(h: Heap, j: nat): Heap
    requires j + 1 < |h.blocks|
  {
    if h.blocks[j + 1] !in h.used then Merge(h, j + 1) else h
  }

  /** The used blocks of h are as before in h1. */
  ghost predicate Untouched(h: Heap, h1: Heap, x: int)
    requires Tiled(h.blocks, h.size) && Tiled(h1.blocks, h1.size)
  {
    forall z :: z in h.used && Block(h, z) && z != x ==> Kept(h, h1, z)
  }

  lemma RightInv(h: Heap, j: nat)
    requires CoreInv(h) && j + 1 < |h.blocks| && h.blocks[j] !in h.used && AdjacentOnly(h.blocks, h.used, {j})
    ensures var h1 := Right(h, j);
      && CoreInv(h1) && NoAdjacentFree(h1.blocks, h1.used)
      && h1 == h.(blocks := h1.blocks, free := h1.free, avail := h1.avail) && h.avail <= h1.avail
      && Tiled(h.blocks, h.size) && Tiled(h1.blocks, h1.size) && Untouched(h, h1, NULL)
  {
    hide CoreInv, Tiled, Del, Without, Kept;
    InvTiled(h);
    if h.blocks[j + 1] !in h.used {
      UnusedNotTail(h, j + 1);
      MergeCore(h, j + 1);
      InvTiled(Merge(h, j + 1));
      DelKept(h, Merge(h, j + 1), j + 1);
    } else {
      SameKept(h, h);
    }
  }

  lemma UnusedNotTail(h: Heap, i: nat)
    requires CoreInv(h) && i < |h.blocks| && h.blocks[i] !in h.used
    ensures i + 1 < |h.blocks|
  {
  }

  // ---------- rt_memheap_free ----------

  /** The block is given up, and becomes part of the unused block before it, if there is one. */
  function Left(h: Heap, i: nat): Heap
    requires i + 1 < |h.blocks|
  {
    var h1 := Unuse(h, i);
    if i > 0 && h.blocks[i - 1] !in h.used then Merge(h1, i) else h1
  }

  ghost function Free(h: Heap, x: int): Heap
    requires HeapInv(h) && x in h.used && x != h.size - HDR
  {
    BlockIndex(h, x);
    var i := IndexOf(h.blocks, x);
    LeftInv(h, i);
    Right(Left(h, i), if i > 0 && h.blocks[i - 1] !in h.used then i - 1 else i)
  }

  lemma LeftInv(h: Heap, i: nat)
    requires HeapInv(h) && i + 1 < |h.blocks| && h.blocks[i] in h.used && h.blocks[i] != h.size - HDR
    ensures var h1, j := Left(h, i), if i > 0 && h.blocks[i - 1] !in h.used then i - 1 else i;
      && CoreInv(h1) && j + 1 < |h1.blocks| && h1.blocks[j] !in h1.used && AdjacentOnly(h1.blocks, h1.used, {j})
      && h1 == h.(blocks := h1.blocks, free := h1.free, avail := h1.avail, used := h.used - {h.blocks[i]})
      && h.avail <= h1.avail && h1.blocks[j + 1] == h.blocks[i + 1]
      && Tiled(h.blocks, h.size) && Tiled(h1.blocks, h1.size) && Untouched(h, h1, h.blocks[i])
  {
    hide CoreInv, Tiled, Del, Without, Kept, Next;
    InvTiled(h);
    NextAt(h, i);
    UnuseCore(h, i);
    var h0 := Unuse(h, i);
    SameKept(h, h0);
    if i > 0 && h.blocks[i - 1] !in h.used {
      MergeCore(h0, i);
      var h1 := Merge(h0, i);
      InvTiled(h1);
      DelKept(h0, h1, i);
      DelAt(h.blocks, i);
      forall z | z in h.used && Block(h, z) && z != h.blocks[i] ensures Kept(h, h1, z) { KeptTwice(h, h0, h1, z); }
    }
  }

  /** Freeing a block keeps the heap in shape, and takes exactly its region from the live ones. */
  lemma FreeSpec(h: Heap, x: int)
    requires HeapInv(h) && x in h.used && x != h.size - HDR
    ensures HeapInv(Free(h, x)) && Free(h, x).used == h.used - {x} && Free(h, x).avail > h.avail - HDR
    ensures Live(Free(h, x)) == map z | z in Live(h) && z != x :: Live(h)[z]
  {
    hide CoreInv, NoAdjacentFree, Tiled, IndexOf, Left, Right, Live, Kept;
    BlockIndex(h, x);
    var i := IndexOf(h.blocks, x);
    LeftInv(h, i);
    var h1, j := Left(h, i), if i > 0 && h.blocks[i - 1] !in h.used then i - 1 else i;
    RightInv(h1, j);
    var h2 := Right(h1, j);
    forall z | z in h.used && Block(h, z) && z != x ensures Kept(h, h2, z) {
      assert Kept(h, h1, z);
      KeptBlock(h, h1, z);
      NotNull(h1, z);
      KeptTwice(h, h1, h2, z);
    }
    LiveOthers(h, h2, x);
  }

  lemma KeptBlock(h: Heap, h1: Heap, z: int)
    requires Tiled(h.blocks, h.size) && Block(h, z) && Tiled(h1.blocks, h1.size) && Kept(h, h1, z)
    ensures Block(h1, z)
  {
  }

  lemma NotNull(h: Heap, z: int)
    requires Tiled(h.blocks, h.size) && Block(h, z)
    ensures z != NULL
  {
    var k := IndexOf(h.blocks, z);
    if k > 0 { assert h.blocks[0] + HDR <= h.blocks[k]; }
  }

  // ---------- rt_memheap_realloc ----------

  /** How far behind the payload's start ptr + newsize lies, the address computed in 32 bits. */
  function Reach(x: int, n: int): int { (x + HDR + n) % WORD - x - HDR }

  /** The test for growing block x in place to n bytes, in 32-bit arithmetic: is the next block unused and large
      enough? */
  ghost predicate Grows(h: Heap, i: nat, n: int)
    requires CoreInv(h) && i + 1 < |h.blocks|
  {
    h.blocks[i + 1] !in h.used &&
    (UnusedNotTail(h, i + 1); h.blocks[i + 2] - h.blocks[i] - 2 * HDR > (n + MINI) % WORD)
  }

  /** Can the sum in that test not wrap, or does it not matter? */
  ghost predicate GrowthSafe(h: Heap, x: int, n: int)
    requires HeapInv(h) && x in h.used && x != h.size - HDR
  {
    BlockIndex(h, x);
    n + MINI < WORD || h.blocks[IndexOf(h.blocks, x) + 1] in h.used
  }

  /** Grown into the unused block that follows. */
  ghost function Grow(h: Heap, i: nat, n: int): Heap
    requires i + 2 < |h.blocks|
  {
    Mark(CutTail(Absorb(h, i + 1), i, n))
  }

  /** Another block, with the old contents. */
  ghost function Move(h: Heap, x: int, n: int): (Heap, int)
    requires HeapInv(h) && x in h.used && x != h.size - HDR && 0 <= n < WORD && n == Request(n)
    requires Tiled(h.blocks, h.size) && Block(h, x) && n > Payload(h, x)
  {
    MoveReady(h, x, n);
    var (h1, p) := Alloc(h, n);
    if p == NULL then (h, NULL)
    else (Free(h1.(bytes := Copy(h1.bytes, p, x + HDR, Payload(h, x))), x), p)
  }

  ghost function Shrink(h: Heap, i: nat, n: int): Heap
    requires i + 1 < |h.blocks|
  {
    Right(CutTail(h, i, n), i + 1)
  }

  /** rt_memheap_realloc of the block x, to a size other than zero. */
  ghost function Realloc(h: Heap, x: int, newsize: int): (Heap, int)
    requires HeapInv(h) && x in h.used && x != h.size - HDR && 0 < newsize < WORD
  {
    BlockIndex(h, x);
    var i, n, have := IndexOf(h.blocks, x), Request(newsize), Payload(h, x);
    if n > have then
      RequestAligned(newsize);
      if Grows(h, i, n) then (UnusedNotTail(h, i + 1); (Grow(h, i, Reach(x, n)), x + HDR))
      else Move(h, x, n)
    else if n + HDR + MINI >= have then (h, x + HDR)
    else (Shrink(h, i, n), x + HDR)
  }

  lemma RequestAligned(size: int)
    requires 0 <= size < WORD
    ensures Request(size) % 4 == 0 && MINI <= Request(size) < WORD
    ensures Request(Request(size)) == Request(size)
  {
  }

  /** Writing a live block's payload from another one's. */
  lemma CopyInv(h: Heap, h1: Heap, x: int, z: int, n: int)
    requires HeapInv(h) && HeapInv(h1) && Added(h, h1, z, n) && x in h.used && x != h.size - HDR && h1.size == h.size
    requires Tiled(h.blocks, h.size) && Block(h, x) && Payload(h, x) < n == Request(n)
    ensures x in h1.used && 0 <= x && x + HDR + Payload(h, x) <= |h1.bytes|
    ensures var h2 := h1.(bytes := Copy(h1.bytes, z + HDR, x + HDR, Payload(h, x)));
      && HeapInv(h2) && z in Live(h2) && n <= |Live(h2)[z]| < n + HDR + MINI && Live(h2)[z][..Payload(h, x)] == Live(h)[x]
      && Live(h2) == Live(h1)[z := Live(h2)[z]]
  {
    hide CoreInv, Tiled, NoAdjacentFree, Content, Payload, Live;
    var len := Payload(h, x);
    LiveHas(h, x);
    LiveHas(h1, x);
    LiveHas(h1, z);
    assert x in Live(h1) && Live(h1)[x] == Live(h)[x];
    PayloadIs(h, x);
    PayloadIs(h1, x);
    PayloadIs(h1, z);
    CopyCore(h1, z, x + HDR, len);
    var h2 := h1.(bytes := Copy(h1.bytes, z + HDR, x + HDR, len));
    CopyContent(h1, h2, x, z, len);
    LiveHas(h2, z);
  }

  lemma LiveHas(h: Heap, x: int)
    requires CoreInv(h)
    ensures x in Live(h) <==> x in h.used && x != h.size - HDR
    ensures x in Live(h) ==> Live(h)[x] == Content(h, x)
  {
  }

  lemma PayloadIs(h: Heap, x: int)
    requires CoreInv(h) && x in h.used && x != h.size - HDR
    ensures Tiled(h.blocks, h.size) && Block(h, x) && |Content(h, x)| == Payload(h, x) >= 0
    ensures 0 <= x && x + HDR + Payload(h, x) <= |h.bytes| == h.size && Content(h, x) == h.bytes[x + HDR..x + HDR + Payload(h, x)]
  {
    UsedBlock(h, x);
  }

  lemma CopyCore(h: Heap, z: int, from: int, len: int)
    requires CoreInv(h) && z in h.used && z != h.size - HDR && Tiled(h.blocks, h.size) && Block(h, z)
    requires 0 <= len <= Payload(h, z) && 0 <= from && from + len <= |h.bytes|
    ensures CoreInv(h.(bytes := Copy(h.bytes, z + HDR, from, len)))
  {
    hide Tiled, UsedOk, FreeOk, Sum, Block;
    var b1 := Copy(h.bytes, z + HDR, from, len);
    forall w, k | w in h.blocks && w <= k < w + HDR && 0 <= k < |b1| ensures b1[k] == Meta {
      HeaderOutside(h, z, w);
    }
  }

  /** No header lies in a block's payload. */
  lemma HeaderOutside(h: Heap, z: int, w: int)
    requires Tiled(h.blocks, h.size) && Block(h, z) && w in h.blocks
    ensures w + HDR <= z || w == z || Next(h, z) <= w
  {
    if z < w { InOrder(h, z, w); }
    var i, j := IndexOf(h.blocks, z), IndexOf(h.blocks, w);
    assert j < i ==> h.blocks[j] + HDR <= h.blocks[i];
    assert i < j ==> h.blocks[i] + HDR <= h.blocks[j];
  }

  lemma CopyContent(h: Heap, h1: Heap, x: int, z: int, len: int)
    requires CoreInv(h) && CoreInv(h1) && x in h.used && z in h.used && x != z && x != h.size - HDR && z != h.size - HDR
    requires Tiled(h.blocks, h.size) && Block(h, x) && Block(h, z) && 0 <= len <= Payload(h, z) && len == Payload(h, x)
    requires 0 <= x && x + HDR + len <= |h.bytes|
    requires h1 == h.(bytes := Copy(h.bytes, z + HDR, x + HDR, len))
    ensures |Content(h1, z)| == Payload(h, z) && Content(h1, z)[..len] == Content(h, x)
    ensures Live(h1) == Live(h)[z := Content(h1, z)]
  {
    hide CoreInv, Tiled, Copy, Kept, Live, Content, Block, Next;
    PayloadIs(h, x);
    PayloadIs(h, z);
    PayloadIs(h1, z);
    SamePayload(h, h1, z);
    assert h1.bytes[z + HDR..z + HDR + len] == h.bytes[x + HDR..x + HDR + len];
    SameStart(h.bytes, h1.bytes, x + HDR, z + HDR, len, len, Payload(h, z));
    forall w | w in h.used && Block(h, w) && w != z ensures Kept(h, h1, w) { CopyKeeps(h, h1, x, z, len, w); }
    LiveOthers(h, h1, z);
  }

  lemma SamePayload(h: Heap, h1: Heap, z: int)
    requires Tiled(h.blocks, h.size) && Block(h, z) && h1.blocks == h.blocks && h1.size == h.size
    ensures Block(h1, z) && Payload(h1, z) == Payload(h, z)
  {
  }

  lemma CopyKeeps(h: Heap, h1: Heap, x: int, z: int, len: int, w: int)
    requires Tiled(h.blocks, h.size) && Block(h, z) && Block(h, w) && w != z && 0 <= len <= Payload(h, z)
    requires 0 <= x && x + HDR + len <= |h.bytes|
    requires h1 == h.(bytes := Copy(h.bytes, z + HDR, x + HDR, len))
    ensures Kept(h, h1, w)
  {
    SameKept(h, h.(bytes := h.bytes));
    if w < z { InOrder(h, w, z); } else { InOrder(h, z, w); }
    SamePayload(h, h1, w);
    hide Tiled, Block, Next;
  }

  // ---------- what rt_memheap_realloc does ----------

  lemma MoveReady(h: Heap, x: int, n: int)
    requires HeapInv(h) && x in h.used && x != h.size - HDR && 0 <= n < WORD && n == Request(n)
    requires Tiled(h.blocks, h.size) && Block(h, x) && n > Payload(h, x)
    ensures var (h1, p) := Alloc(h, n);
      p != NULL ==> x in h1.used && 0 <= x && x + HDR + Payload(h, x) <= |h1.bytes| && h1.size == h.size &&
                    HeapInv(h1.(bytes := Copy(h1.bytes, p, x + HDR, Payload(h, x))))
  {
    hide CoreInv, NoAdjacentFree, Tiled, Payload, Live, Block, Request;
    AllocSpec(h, n);
    AllocSize(h, n);
    var (h1, p) := Alloc(h, n);
    if p != NULL {
      hide Alloc;
      CopyInv(h, h1, x, p - HDR, n);
    }
  }

  lemma AllocSize(h: Heap, n: int)
    requires HeapInv(h)
    ensures Alloc(h, n).0.size == h.size
  {
  }

  /** The region of x became that of z: n bytes, or up to 36 more if that saves a block that was not larger, the old
      bytes kept as far as they fit; the other live regions are as they were. */
  ghost predicate Resized(h: Heap, h1: Heap, x: int, z: int, n: int)
    requires CoreInv(h) && CoreInv(h1) && x in Live(h)
  {
    var have := |Live(h)[x]|;
    var keep := if have < n then have else n;
    && z % 4 == 0 && (z == x || z !in Live(h))
    && z in Live(h1) && n <= |Live(h1)[z]| <= n + HDR + MINI && (have > n + HDR + MINI ==> |Live(h1)[z]| == n) && 0 <= keep && Live(h1)[z][..keep] == Live(h)[x][..keep]
    && Live(h1) - {z} == Live(h) - {x}
  }

  lemma AlignedBlock(h: Heap, x: int)
    requires CoreInv(h) && x in h.blocks
    ensures x % 4 == 0
  {
  }

  lemma GrowSpec(h: Heap, i: nat, n: int)
    requires HeapInv(h) && i + 2 < |h.blocks| && h.blocks[i] in h.used && h.blocks[i + 1] !in h.used && n % 4 == 0
    requires h.blocks[i + 1] - h.blocks[i] - HDR < n && h.blocks[i] + HDR + n + HDR <= h.blocks[i + 2]
    ensures HeapInv(Grow(h, i, n)) && h.blocks[i] in Live(h) && Resized(h, Grow(h, i, n), h.blocks[i], h.blocks[i], n)
  {
    hide CoreInv, NoAdjacentFree, Tiled, Kept, Live, Without, Del, Ins, AdjacentOnly, Next, Block;
    var x, h1 := h.blocks[i], Absorb(h, i + 1);
    InvTiled(h);
    GapLeast(h, i);
    AbsorbCore(h, i + 1);
    InvTiled(h1);
    DelAt(h.blocks, i + 1);
    CutTailCore(h1, i, n);
    var h2 := CutTail(h1, i, n);
    InvTiled(h2);
    GrowLive(h, i, n, h1, h2);
    AlignedBlock(h, x) by { assert x in h.blocks; }
    MarkLive(h2);
    hide Resized;
    ResizedFrame(h, h2, Mark(h2), x, n);
  }

  lemma GapLeast(h: Heap, i: nat)
    requires CoreInv(h) && i + 1 < |h.blocks|
    ensures h.blocks[i] + HDR <= h.blocks[i + 1] && h.blocks[i] != h.size - HDR
  {
  }

  lemma MarkLive(h: Heap)
    requires CoreInv(h) && NoAdjacentFree(h.blocks, h.used)
    ensures HeapInv(Mark(h)) && Live(Mark(h)) == Live(h)
  {
    hide Tiled, UsedOk, FreeOk, HeadersOk, NoAdjacentFree;
    assert CoreInv(Mark(h));
    forall x | x in h.used && x != h.size - HDR ensures Content(Mark(h), x) == Content(h, x) { BlockIndex(h, x); }
  }

  lemma ResizedFrame(h: Heap, h1: Heap, h2: Heap, x: int, n: int)
    requires CoreInv(h) && CoreInv(h1) && CoreInv(h2) && x in Live(h) && Live(h2) == Live(h1) && Resized(h, h1, x, x, n)
    ensures Resized(h, h2, x, x, n)
  {
    hide CoreInv, Live;
  }

  lemma GrowLive(h: Heap, i: nat, n: int, h1: Heap, h2: Heap)
    requires CoreInv(h) && CoreInv(h1) && CoreInv(h2) && i + 2 < |h.blocks| && n % 4 == 0
    requires h.blocks[i] in h.used && h.blocks[i + 1] !in h.used && h.blocks[i] != h.size - HDR
    requires 0 <= h.blocks[i + 1] - h.blocks[i] - HDR < n && h.blocks[i] + HDR + n + HDR <= h.blocks[i + 2]
    requires h1 == Absorb(h, i + 1) && i + 1 < |h1.blocks| && h1.blocks[i] == h.blocks[i] && h1.blocks[i + 1] == h.blocks[i + 2]
    requires h2 == CutTail(h1, i, n)
    ensures h.blocks[i] in Live(h) && Resized(h, h2, h.blocks[i], h.blocks[i], n)
  {
    hide CoreInv, Tiled, Kept, Live, Without, Del, Ins, Next, Block;
    var x := h.blocks[i];
    InvTiled(h);
    InvTiled(h1);
    InvTiled(h2);
    DelKept(h, h1, i + 1);
    InsKept(h1, h2, i, x + HDR + n);
    InsNext(h1, h2, i, x + HDR + n);
    NextAt(h, i);
    AlignedBlock(h, x);
    forall z | z in h.used && Block(h, z) && z != x ensures Kept(h, h2, z) {
      KeptBlock(h, h1, z);
      KeptTwice(h, h1, h2, z);
    }
    LiveOthers(h, h2, x);
    LiveHas(h, x);
    LiveHas(h2, x);
    InPlace(h, h2, x, h.blocks[i + 1] - x - HDR);
  }

  /** Bytes not written keep a block's content as far as both payloads go. */
  lemma InPlace(h: Heap, h1: Heap, x: int, len: int)
    requires CoreInv(h) && CoreInv(h1) && x in h.used && x in h1.used && h1.size == h.size && x != h.size - HDR
    requires Tiled(h.blocks, h.size) && Tiled(h1.blocks, h1.size) && Block(h, x) && Block(h1, x)
    requires 0 <= len <= Payload(h, x) && len <= Payload(h1, x)
    requires forall k :: x + HDR <= k < x + HDR + len && 0 <= k < |h.bytes| && k < |h1.bytes| ==> h1.bytes[k] == h.bytes[k]
    ensures |Content(h1, x)| == Payload(h1, x) && |Content(h, x)| == Payload(h, x)
    ensures Content(h1, x)[..len] == Content(h, x)[..len]
  {
    hide CoreInv, Tiled, Block, Next, Content;
    PayloadIs(h, x);
    PayloadIs(h1, x);
    assert h1.bytes[x + HDR..x + HDR + len] == h.bytes[x + HDR..x + HDR + len];
    SameStart(h.bytes, h1.bytes, x + HDR, x + HDR, len, Payload(h, x), Payload(h1, x));
  }

  /** Slices at x of b and at x1 of b1 begin with the same len bytes. */
  lemma SameStart(b: seq<Cell>, b1: seq<Cell>, x: int, x1: int, len: int, n: int, n1: int)
    requires 0 <= x && x + n <= |b| && 0 <= x1 && x1 + n1 <= |b1| && 0 <= len <= n && len <= n1
    requires b1[x1..x1 + len] == b[x..x + len]
    ensures b1[x1..x1 + n1][..len] == b[x..x + n][..len]
  {
    assert b1[x1..x1 + n1][..len] == b1[x1..x1 + len] && b[x..x + n][..len] == b[x..x + len];
  }

  lemma ShrinkSpec(h: Heap, i: nat, n: int)
    requires HeapInv(h) && i + 1 < |h.blocks| && h.blocks[i] in h.used && n % 4 == 0 && n >= 0
    requires h.blocks[i] + HDR + n + HDR <= h.blocks[i + 1]
    ensures HeapInv(Shrink(h, i, n)) && h.blocks[i] in Live(h) && Resized(h, Shrink(h, i, n), h.blocks[i], h.blocks[i], n)
  {
    hide CoreInv, NoAdjacentFree, Tiled, Kept, Live, Without, Del, Ins, AdjacentOnly, Next, Block, Right;
    var x, h1 := h.blocks[i], CutTail(h, i, n);
    InvTiled(h);
    GapLeast(h, i);
    CutTailCore(h, i, n);
    InvTiled(h1);
    InsAt(h.blocks, i, x + HDR + n);
    CutIsFree(h, i, n);
    RightInv(h1, i + 1);
    var h2 := Right(h1, i + 1);
    InsKept(h, h1, i, x + HDR + n);
    InsNext(h, h1, i, x + HDR + n);
    NextAt(h, i);
    AlignedBlock(h, x);
    hide CutTail;
    ShrinkLive(h, h1, h2, x, n);
  }

  lemma CutIsFree(h: Heap, i: nat, n: int)
    requires CoreInv(h) && i + 1 < |h.blocks| && h.blocks[i] in h.used && n >= 0 && n % 4 == 0
    requires h.blocks[i] + HDR + n + HDR <= h.blocks[i + 1]
    ensures var h1 := CutTail(h, i, n); i + 2 < |h1.blocks| && h1.blocks[i + 1] == h.blocks[i] + HDR + n && h1.blocks[i + 1] !in h.used
    ensures CutTail(h, i, n).avail > h.avail - HDR
  {
    var z := h.blocks[i] + HDR + n;
    TiledMod(h.blocks, h.size, i);
    InsTiled(h.blocks, h.size, i, z);
    InsAt(h.blocks, i, z);
    hide Ins, Tiled;
  }

  lemma ShrinkLive(h: Heap, h1: Heap, h2: Heap, x: int, n: int)
    requires CoreInv(h) && CoreInv(h1) && CoreInv(h2) && h1.size == h.size && h2.size == h.size && x in h.used && x != h.size - HDR
    requires h1.used == h.used && h2.used == h.used && x % 4 == 0 && h1.bytes == Stamp(h.bytes, x + HDR + n, HDR)
    requires Tiled(h.blocks, h.size) && Tiled(h1.blocks, h.size) && Tiled(h2.blocks, h.size) && Block(h, x) && Block(h1, x)
    requires Next(h1, x) == x + HDR + n && 0 <= n <= Payload(h, x)
    requires forall z :: Block(h, z) && z != x ==> Kept(h, h1, z)
    requires Untouched(h1, h2, NULL)
    ensures x in Live(h) && Resized(h, h2, x, x, n)
  {
    hide CoreInv, Tiled, Kept, Live, Next, Block;
    forall z | z in h.used && Block(h, z) && z != x ensures Kept(h, h2, z) {
      KeptBlock(h, h1, z);
      NotNull(h1, z);
      KeptTwice(h, h1, h2, z);
    }
    LiveOthers(h, h2, x);
    LiveHas(h, x);
    LiveHas(h2, x);
    NotNull(h1, x);
    KeptBytes(h1, h2, x);
    InPlace(h, h2, x, n);
  }

  lemma KeptBytes(h: Heap, h1: Heap, x: int)
    requires Tiled(h.blocks, h.size) && Block(h, x) && Tiled(h1.blocks, h1.size) && Kept(h, h1, x)
    ensures Block(h1, x) && Payload(h1, x) == Payload(h, x)
    ensures forall k :: x + HDR <= k < Next(h, x) && 0 <= k < |h.bytes| && k < |h1.bytes| ==> h1.bytes[k] == h.bytes[k]
  {
  }

  lemma MoveSpec(h: Heap, x: int, n: int)
    requires HeapInv(h) && x in h.used && x != h.size - HDR && 0 <= n < WORD && n == Request(n)
    requires Tiled(h.blocks, h.size) && Block(h, x) && n > Payload(h, x)
    ensures HeapInv(Move(h, x, n).0) && x in Live(h)
    ensures Move(h, x, n).1 == NULL ==> Move(h, x, n).0 == h
    ensures Move(h, x, n).1 != NULL ==> Resized(h, Move(h, x, n).0, x, Move(h, x, n).1 - HDR, n)
  {
    hide CoreInv, NoAdjacentFree, Tiled, Payload, Live, Block, Request, Free, Copy;
    MoveReady(h, x, n);
    AllocSpec(h, n);
    var (h1, p) := Alloc(h, n);
    LiveHas(h, x);
    if p != NULL {
      hide Alloc;
      var z := p - HDR;
      CopyInv(h, h1, x, z, n);
      var h2 := h1.(bytes := Copy(h1.bytes, p, x + HDR, Payload(h, x)));
      FreeSpec(h2, x);
      PayloadIs(h, x);
      MoveLive(h, h1, h2, Free(h2, x), x, z, n);
    }
  }

  lemma MoveLive(h: Heap, h1: Heap, h2: Heap, h3: Heap, x: int, z: int, n: int)
    requires CoreInv(h) && CoreInv(h1) && CoreInv(h2) && CoreInv(h3) && x in Live(h) && |Live(h)[x]| < n
    requires z % 4 == 0 && z !in Live(h) && z in Live(h1) && Live(h1) == Live(h)[z := Live(h1)[z]]
    requires z in Live(h2) && n <= |Live(h2)[z]| < n + HDR + MINI && Live(h2)[z][..|Live(h)[x]|] == Live(h)[x] && Live(h2) == Live(h1)[z := Live(h2)[z]]
    requires Live(h3) == map w | w in Live(h2) && w != x :: Live(h2)[w]
    ensures Resized(h, h3, x, z, n)
  {
    hide CoreInv, Live;
    assert Live(h3) - {z} == Live(h) - {x};
    assert Live(h)[x][..|Live(h)[x]|] == Live(h)[x];
  }

  /** rt_memheap_realloc keeps the heap in shape. If it fails nothing has changed. Otherwise the caller has a region
      at least as large as asked for, unless rounding the size wraps; the old bytes are kept as far as they fit,
      whether the block grew in place, shrank in place, stayed or moved; and no other live region was touched. */
  lemma ReallocSpec(h: Heap, x: int, newsize: int)
    requires HeapInv(h) && x in h.used && x != h.size - HDR && 0 < newsize < WORD && GrowthSafe(h, x, Request(newsize))
    ensures HeapInv(Realloc(h, x, newsize).0) && x in Live(h)
    ensures Realloc(h, x, newsize).1 == NULL ==> Realloc(h, x, newsize).0 == h
    ensures Realloc(h, x, newsize).1 != NULL ==>
              Resized(h, Realloc(h, x, newsize).0, x, Realloc(h, x, newsize).1 - HDR, Request(newsize))
  {
    hide CoreInv, NoAdjacentFree, Live, Request, Grow, Shrink, Move, Resized, IndexOf, Tiled;
    BlockIndex(h, x);
    PayloadIs(h, x);
    LiveHas(h, x);
    RequestAligned(newsize);
    FirstNotNull(h, x);
    var i, n := IndexOf(h.blocks, x), Request(newsize);
    if n > Payload(h, x) {
      if Grows(h, i, n) {
        UnusedNotTail(h, i + 1);
        PlainReach(h, i, n);
        GrowSpec(h, i, n);
      }
      MoveSpec(h, x, n);
    } else if n + HDR + MINI >= Payload(h, x) {
      Stays(h, x, n);
    } else {
      ShrinkSpec(h, i, n);
    }
  }

  /** When the sum does not wrap, a block that grows ends before the next but one. */
  lemma PlainReach(h: Heap, i: nat, n: int)
    requires CoreInv(h) && i + 2 < |h.blocks| && Grows(h, i, n) && 0 <= n && n + MINI < WORD
    ensures h.blocks[i] + HDR + n + HDR <= h.blocks[i + 2] && Reach(h.blocks[i], n) == n
  {
  }

  /** What is promised of rt_memheap_realloc: the heap stays in shape, and either nothing has changed or the block was
      resized and no other touched. */
  ghost predicate ReallocRight(h: Heap, x: int, newsize: int)
    requires HeapInv(h) && x in h.used && x != h.size - HDR && 0 < newsize < WORD
  {
    var (h1, p) := Realloc(h, x, newsize);
    && HeapInv(h1) && x in Live(h)
    && if p == NULL then h1 == h else Resized(h, h1, x, p - HDR, Request(newsize))
  }

  /** No live region is smaller than the least allocation. */
  ghost predicate LeastSizes(h: Heap)
    requires CoreInv(h)
  {
    forall x :: x in Live(h) ==> |Live(h)[x]| >= MINI
  }

  /** The promise is kept iff newsize, rounded, plus 12 does not wrap, or the next block is in use. */
  lemma ReallocRightIff(h: Heap, x: int, newsize: int)
    requires HeapInv(h) && LeastSizes(h) && x in h.used && x != h.size - HDR && 0 < newsize < WORD
    ensures ReallocRight(h, x, newsize) <==> GrowthSafe(h, x, Request(newsize))
  {
    hide NoAdjacentFree, Live, Request, Resized, Tiled, Realloc, UsedOk, FreeOk, HeadersOk, Sum;
    if GrowthSafe(h, x, Request(newsize)) { ReallocSpec(h, x, newsize); } else { GrowsAstray(h, x, newsize); }
  }

  /** Otherwise it grows in place to where there is no room: the new header overlaps the block's own. */
  lemma GrowsAstray(h: Heap, x: int, newsize: int)
    requires HeapInv(h) && LeastSizes(h) && x in h.used && x != h.size - HDR && 0 < newsize < WORD
    requires !GrowthSafe(h, x, Request(newsize))
    ensures var h1 := Realloc(h, x, newsize).0; !HeapInv(h1) && exists z :: z in h1.blocks && x < z < x + HDR
  {
    hide CoreInv, NoAdjacentFree, Request, Tiled, Del, Ins, Live, Grow, Realloc, Reach, IndexOf;
    AstrayIs(h, x, newsize);
    var i, z := IndexOf(h.blocks, x), x + HDR + Reach(x, Request(newsize));
    GrownBlocks(h, i, Reach(x, Request(newsize)));
    var b := Del(h.blocks, i + 1);
    InsAt(b, i, z);
    var r := Ins(b, i, z);
    assert r[i] == x && r[i + 1] == z;
    NotTiled(r, i);
    InvTiledOnly(Realloc(h, x, newsize).0);
    assert z in Realloc(h, x, newsize).0.blocks && x < z < x + HDR;
  }

  lemma InvTiledOnly(h: Heap)
    ensures HeapInv(h) ==> Tiled(h.blocks, h.size)
  {
  }

  lemma GrownBlocks(h: Heap, i: nat, n: int)
    requires i + 2 < |h.blocks| && Del(h.blocks, i + 1)[i] == h.blocks[i]
    ensures Grow(h, i, n).blocks == Ins(Del(h.blocks, i + 1), i, h.blocks[i] + HDR + n)
  {
  }

  lemma AstrayIs(h: Heap, x: int, newsize: int)
    requires HeapInv(h) && LeastSizes(h) && x in h.used && x != h.size - HDR && 0 < newsize < WORD
    requires !GrowthSafe(h, x, Request(newsize))
    ensures var i, n := IndexOf(h.blocks, x), Request(newsize);
      && i + 2 < |h.blocks| && i + 1 < |Del(h.blocks, i + 1)| && Del(h.blocks, i + 1)[i] == x == h.blocks[i]
      && -HDR < Reach(x, n) < 0 && Realloc(h, x, newsize) == (Grow(h, i, Reach(x, n)), x + HDR)
  {
    hide NoAdjacentFree, Request, Tiled, UsedOk, FreeOk, HeadersOk, Sum, Del, Ins, Live, Content, Grow, Move, Shrink, Reach, IndexOf;
    BlockIndex(h, x);
    RequestAligned(newsize);
    var i, n := IndexOf(h.blocks, x), Request(newsize);
    UnusedNotTail(h, i + 1);
    LiveHas(h, x);
    PayloadIs(h, x);
    AstrayPlaces(h, i, n);
  }

  lemma AstrayPlaces(h: Heap, i: nat, n: int)
    requires CoreInv(h) && i + 2 < |h.blocks| && n % 4 == 0 && n < WORD <= n + MINI && h.blocks[i + 1] >= h.blocks[i] + HDR + MINI
    ensures var x := h.blocks[i];
      && h.blocks[i + 1] - x - HDR < n && h.blocks[i + 2] - x - 2 * HDR > (n + MINI) % WORD
      && Reach(x, n) == n - WORD && i + 1 < |Del(h.blocks, i + 1)| && Del(h.blocks, i + 1)[i] == x
  {
    hide UsedOk, FreeOk, HeadersOk, Sum, Del;
    DelAt(h.blocks, i + 1);
    assert h.blocks[i] >= 0 && h.blocks[i + 1] + HDR <= h.blocks[i + 2] <= h.size - HDR;
  }

  lemma NotTiled(b: seq<int>, i: nat)
    requires i + 1 < |b| && b[i + 1] < b[i] + HDR
    ensures forall size :: !Tiled(b, size)
  {
  }

  lemma Stays(h: Heap, x: int, n: int)
    requires CoreInv(h) && x in h.used && x != h.size - HDR && x in Live(h) && 0 <= n <= |Live(h)[x]| <= n + HDR + MINI
    ensures Resized(h, h, x, x, n)
  {
    UsedBlock(h, x);
    AlignedBlock(h, x);
    hide CoreInv, Live;
  }

  // ---------- runs ----------

  datatype HeapStep =
    | AllocStep(size: int)
    | FreeStep(x: int)
    | ReallocStep(x: int, size: int)
    | WriteStep(x: int, at: int, byte: int)   // by the owner of block x, into its payload

  ghost predicate HeapEnabled(h: Heap, step: HeapStep)
    requires HeapInv(h)
  {
    match step
    case AllocStep(size) => 0 <= size < WORD
    case FreeStep(x) => x in Live(h)
    case ReallocStep(x, size) =>
      x in Live(h) && 0 <= size < WORD && (LiveHas(h, x); size != 0 ==> GrowthSafe(h, x, Request(size)))
    case WriteStep(x, at, _) => x in Live(h) && 0 <= at < |Live(h)[x]|
  }

  ghost function Write(h: Heap, x: int, at: int, byte: int): Heap
    requires 0 <= x + HDR + at < |h.bytes|
  {
    h.(bytes := h.bytes[x + HDR + at := Data(byte)])
  }

  ghost function HeapNext(h: Heap, step: HeapStep): Heap
    requires HeapInv(h) && HeapEnabled(h, step)
  {
    match step
    case AllocStep(size) => Alloc(h, size).0
    case FreeStep(x) => LiveHas(h, x); Free(h, x)
    case ReallocStep(x, size) => LiveHas(h, x); if size == 0 then Free(h, x) else Realloc(h, x, size).0
    case WriteStep(x, at, byte) => LiveHas(h, x); PayloadIs(h, x); Write(h, x, at, byte)
  }

  lemma WriteInv(h: Heap, x: int, at: int, byte: int)
    requires HeapInv(h) && x in Live(h) && 0 <= at < |Live(h)[x]|
    ensures x in h.used && 0 <= x + HDR + at < |h.bytes| && HeapInv(Write(h, x, at, byte))
    ensures var h1 := Write(h, x, at, byte); Live(h1) == Live(h)[x := Live(h)[x][at := Data(byte)]]
  {
    hide NoAdjacentFree, Tiled, UsedOk, FreeOk, Sum, Block, Next, Live, Content, Kept;
    LiveHas(h, x);
    PayloadIs(h, x);
    var h1 := Write(h, x, at, byte);
    forall w, k | w in h.blocks && w <= k < w + HDR && 0 <= k < |h1.bytes| ensures h1.bytes[k] == Meta { HeaderOutside(h, x, w); }
    assert CoreInv(h1);
    SamePayload(h, h1, x);
    PayloadIs(h1, x);
    forall w | w in h.used && Block(h, w) && w != x ensures Kept(h, h1, w) { WriteKeeps(h, x, at, byte, w); }
    LiveOthers(h, h1, x);
  }

  lemma WriteKeeps(h: Heap, x: int, at: int, byte: int, w: int)
    requires Tiled(h.blocks, h.size) && Block(h, x) && Block(h, w) && w != x && 0 <= at < Payload(h, x)
    requires 0 <= x + HDR + at < |h.bytes|
    ensures Kept(h, Write(h, x, at, byte), w)
  {
    if w < x { InOrder(h, w, x); } else { InOrder(h, x, w); }
    SamePayload(h, Write(h, x, at, byte), w);
    hide Tiled, Block, Next;
  }

  /** May the step change what the owner of block w sees? */
  predicate Names(step: HeapStep, w: int) { !step.AllocStep? && step.x == w }

  /** Every step leaves the live regions at least as large as the least allocation. */
  lemma StepLeastSizes(h: Heap, step: HeapStep)
    requires HeapInv(h) && HeapEnabled(h, step) && LeastSizes(h)
    ensures HeapInv(HeapNext(h, step)) && LeastSizes(HeapNext(h, step))
  {
    hide CoreInv, NoAdjacentFree, Alloc, Free, Realloc, Live, Request;
    HeapStepInv(h, step);
    match step {
      case AllocStep(size) => AllocSpec(h, size);
      case FreeStep(x) => LiveHas(h, x); FreeSpec(h, x);
      case ReallocStep(x, size) =>
        LiveHas(h, x);
        if size == 0 { FreeSpec(h, x); } else { ReallocSpec(h, x, size); ReallocFrames(h, x, size); ReallocLeast(h, x, size); }
      case WriteStep(x, at, byte) => WriteInv(h, x, at, byte);
    }
  }

  lemma ReallocLeast(h: Heap, x: int, size: int)
    requires HeapInv(h) && LeastSizes(h) && x in h.used && x != h.size - HDR && 0 < size < WORD && GrowthSafe(h, x, Request(size))
    ensures HeapInv(Realloc(h, x, size).0) && LeastSizes(Realloc(h, x, size).0)
  {
    hide CoreInv, NoAdjacentFree, Realloc, Live, Request;
    ReallocSpec(h, x, size);
    var (h1, p) := Realloc(h, x, size);
    if p != NULL {
      forall w | w in Live(h1) ensures |Live(h1)[w]| >= MINI {
        if w != p - HDR { assert w in Live(h1) - {p - HDR} && (Live(h1) - {p - HDR})[w] == Live(h1)[w]; }
      }
    }
  }

  /** Every step keeps the heap in shape, and every live region it does not name. */
  lemma HeapStepInv(h: Heap, step: HeapStep)
    requires HeapInv(h) && HeapEnabled(h, step)
    ensures HeapInv(HeapNext(h, step))
    ensures forall w :: w in Live(h) && !Names(step, w) ==> w in Live(HeapNext(h, step)) && Live(HeapNext(h, step))[w] == Live(h)[w]
  {
    hide CoreInv, NoAdjacentFree, Alloc, Free, Realloc, Live;
    match step {
      case AllocStep(size) => AllocSpec(h, size);
      case FreeStep(x) => LiveHas(h, x); FreeSpec(h, x);
      case ReallocStep(x, size) =>
        LiveHas(h, x);
        if size == 0 { FreeSpec(h, x); } else { ReallocSpec(h, x, size); ReallocFrames(h, x, size); }
      case WriteStep(x, at, byte) => WriteInv(h, x, at, byte);
    }
  }

  lemma ReallocFrames(h: Heap, x: int, size: int)
    requires HeapInv(h) && x in h.used && x != h.size - HDR && 0 < size < WORD && GrowthSafe(h, x, Request(size))
    ensures HeapInv(Realloc(h, x, size).0)
    ensures var h1 := Realloc(h, x, size).0; forall w :: w in Live(h) && w != x ==> w in Live(h1) && Live(h1)[w] == Live(h)[w]
  {
    hide CoreInv, NoAdjacentFree, Realloc, Live, Request;
    ReallocSpec(h, x, size);
    var (h1, p) := Realloc(h, x, size);
    if p != NULL {
      forall w | w in Live(h) && w != x ensures w in Live(h1) && Live(h1)[w] == Live(h)[w] {
        assert w in Live(h) - {x} && (Live(h) - {x})[w] == Live(h)[w];
        assert w in Live(h1) - {p - HDR};
      }
    }
  }

  /** A step from h to h1. The functions that describe steps are defined where the invariant holds; that it holds in
      every state of a run is shown, not assumed. */
  ghost predicate HeapSteps(h: Heap, step: HeapStep, h1: Heap) {
    HeapInv(h) ==> HeapEnabled(h, step) && h1 == HeapNext(h, step)
  }

  ghost predicate HeapRun(hs: seq<Heap>, steps: seq<HeapStep>) {
    && |hs| == |steps| + 1
    && forall i :: 0 <= i < |steps| ==> HeapSteps(hs[i], steps[i], hs[i + 1])
  }

  lemma {:induction false} HeapRunInv(hs: seq<Heap>, steps: seq<HeapStep>, i: nat)
    requires HeapRun(hs, steps) && HeapInv(hs[0]) && i < |hs|
    ensures HeapInv(hs[i]) && (i < |steps| ==> HeapEnabled(hs[i], steps[i]))
  {
    hide HeapInv, HeapEnabled, HeapNext;
    if i > 0 {
      HeapRunInv(hs, steps, i - 1);
      HeapStepInv(hs[i - 1], steps[i - 1]);
      assert HeapSteps(hs[i - 1], steps[i - 1], hs[i]);
    }
    if i < |steps| { assert HeapSteps(hs[i], steps[i], hs[i + 1]); }
  }

  /** The heap as rt_memheap_init leaves a pool of the given size. */
  function Init(size: int, bytes: seq<Cell>): Heap {
    var pool := size / 4 * 4;
    var avail := pool - 2 * HDR;
    Heap(pool, [0, avail + HDR], {avail + HDR}, [0], avail, pool - avail, Stamp(Stamp(bytes, 0, HDR), avail + HDR, HDR))
  }

  lemma InitInv(size: int, bytes: seq<Cell>)
    requires 2 * HDR <= size < WORD && |bytes| == size / 4 * 4
    ensures HeapInv(Init(size, bytes)) && Live(Init(size, bytes)) == map[]
  {
    var h := Init(size, bytes);
    assert Sum(h.blocks[1..], h.used) == 0;
    assert h.blocks[1..] == [h.size - HDR];
  }

  /** In every state of every run from rt_memheap_init, with callers writing into their own blocks: the blocks tile
      the pool in address order and end in the used tail, the free ring holds exactly the unused blocks, no two
      neighbours are unused, available_size is the sum of the unused payloads, and no live region is smaller than
      the least allocation. */
  lemma {:induction false} HeapRuns(hs: seq<Heap>, steps: seq<HeapStep>, size: int, bytes: seq<Cell>, i: nat)
    requires 2 * HDR <= size < WORD && |bytes| == size / 4 * 4
    requires HeapRun(hs, steps) && hs[0] == Init(size, bytes) && i < |hs|
    ensures HeapInv(hs[i]) && LeastSizes(hs[i])
  {
    hide CoreInv, NoAdjacentFree, Init, HeapNext, HeapEnabled, LeastSizes;
    InitInv(size, bytes);
    HeapRunInv(hs, steps, i);
    if i == 0 {
      NothingLive(hs[0]);
    } else {
      HeapRuns(hs, steps, size, bytes, i - 1);
      HeapRunInv(hs, steps, i - 1);
      assert HeapSteps(hs[i - 1], steps[i - 1], hs[i]);
      StepLeastSizes(hs[i - 1], steps[i - 1]);
    }
  }

  lemma NothingLive(h: Heap)
    requires CoreInv(h) && Live(h) == map[]
    ensures LeastSizes(h)
  {
  }

  /** A pool of 96 bytes, 12 of them allocated and the rest unused: resizing the block to 2^32 - 8 bytes, which do
      not exist, is not refused, and leaves a header inside another. */
  lemma HugeReallocBreaks(bytes: seq<Cell>)
    requires |bytes| == 96
    ensures HeapInv(Init(96, bytes))
    ensures var h := Alloc(Init(96, bytes), 12).0;
      && HeapInv(h) && 0 in h.used && 0 != h.size - HDR
      && Realloc(h, 0, WORD - 8).1 != NULL && !HeapInv(Realloc(h, 0, WORD - 8).0)
  {
    InitInv(96, bytes);
    var h0 := Init(96, bytes);
    AllocSpec(h0, 12);
    FirstOfPool(bytes);
    var h := Alloc(h0, 12).0;
    hide CoreInv, Alloc, Init, NoAdjacentFree, Realloc, Live, Request;
    BlockIndex(h, 0);
    OnlyLive(h0, h, 0);
    assert Request(WORD - 8) == WORD - 8 by { WholeRequest(); }
    GrowsAstray(h, 0, WORD - 8);
    AstrayIs(h, 0, WORD - 8);
  }

  lemma WholeRequest()
    ensures Request(WORD - 8) == WORD - 8
  {
  }

  lemma OnlyLive(h0: Heap, h: Heap, x: int)
    requires CoreInv(h0) && CoreInv(h) && Live(h0) == map[] && Added(h0, h, x, 12)
    ensures LeastSizes(h)
  {
    hide CoreInv, Live;
  }

  lemma FirstOfPool(bytes: seq<Cell>)
    requires |bytes| == 96 && HeapInv(Init(96, bytes))
    ensures var (h, p) := Alloc(Init(96, bytes), 12);
      p == HDR && h.blocks == [0, 36, 72] && h.used == {0, 72} && h.size == 96 && IndexOf(h.blocks, 0) == 0
  {
    var h := Init(96, bytes);
    assert h.blocks == [0, 72] && h.avail == 48 && Request(12) == 12;
    assert Block(h, 0) && IndexOf(h.blocks, 0) == 0 && Payload(h, 0) == 48;
    assert FirstFit(h, 0, 12) == 0;
    assert h.blocks[..1] + [36] + h.blocks[1..] == [0, 36, 72];
    hide CoreInv;
  }

  lemma {:induction false} RegionPersists(hs: seq<Heap>, steps: seq<HeapStep>, w: int, i: nat, j: nat)
    requires HeapRun(hs, steps) && HeapInv(hs[0]) && i <= j < |hs| && HeapInv(hs[i]) && w in Live(hs[i])
    requires forall k :: i <= k < j ==> !Names(steps[k], w)
    ensures HeapInv(hs[j]) && w in Live(hs[j]) && Live(hs[j])[w] == Live(hs[i])[w]
    decreases j
  {
    hide CoreInv, NoAdjacentFree, Live, HeapNext, HeapEnabled;
    if i < j {
      RegionPersists(hs, steps, w, i, j - 1);
      HeapRunInv(hs, steps, j - 1);
      assert HeapSteps(hs[j - 1], steps[j - 1], hs[j]);
      HeapStepInv(hs[j - 1], steps[j - 1]);
    }
  }

  // ---------- max_used_size ----------

  function InUse(h: Heap): int { h.size - h.avail }

  function Max(a: int, b: int): int { if a < b then b else a }

  /** The most that is in use at any point of a step: when a block moves, old and new are both in use. */
  ghost function Peak(h: Heap, step: HeapStep): int
    requires HeapInv(h) && HeapEnabled(h, step)
  {
    var after := InUse(HeapNext(h, step));
    if step.ReallocStep? && step.size != 0 && Moves(h, step.x, Request(step.size)) then
      Max(after, InUse(Alloc(h, Request(step.size)).0))
    else after
  }

  /** Does rt_memheap_realloc look for another block? */
  ghost predicate Moves(h: Heap, x: int, n: int)
    requires HeapInv(h)
  {
    x in h.used && x != h.size - HDR &&
    (BlockIndex(h, x);
     var i := IndexOf(h.blocks, x);
     n > h.blocks[i + 1] - x - HDR && !Grows(h, i, n))
  }

  /** max_used_size moves exactly with the most that is in use. */
  lemma StepWater(h: Heap, step: HeapStep)
    requires HeapInv(h) && HeapEnabled(h, step)
    ensures HeapNext(h, step).maxUsed == Max(h.maxUsed, Peak(h, step))
  {
    hide Request, Tiled, UsedOk, FreeOk, HeadersOk, Sum, NoAdjacentFree, Live;
    match step {
      case AllocStep(size) => AllocWater(h, size);
      case FreeStep(x) => LiveHas(h, x); FreeWater(h, x);
      case ReallocStep(x, size) => LiveHas(h, x); if size == 0 { FreeWater(h, x); } else { ReallocWater(h, x, size); }
      case WriteStep(x, at, byte) =>
    }
  }

  lemma AllocWater(h: Heap, size: int)
    requires HeapInv(h)
    ensures Alloc(h, size).0.maxUsed == Max(h.maxUsed, InUse(Alloc(h, size).0))
  {
    FirstFitBounds(h, 0, Request(size));
    hide Request, CoreInv, NoAdjacentFree, FirstFit;
  }

  lemma FreeWater(h: Heap, x: int)
    requires HeapInv(h) && x in h.used && x != h.size - HDR
    ensures Free(h, x).maxUsed == h.maxUsed >= InUse(Free(h, x)) && Free(h, x).size == h.size
  {
    BlockIndex(h, x);
    LeftInv(h, IndexOf(h.blocks, x));
    FreeSpec(h, x);
    hide CoreInv, NoAdjacentFree, IndexOf, Del, Without, Live;
  }

  lemma ReallocWater(h: Heap, x: int, size: int)
    requires HeapInv(h) && x in h.used && x != h.size - HDR && 0 < size < WORD
    requires HeapEnabled(h, ReallocStep(x, size))
    ensures Realloc(h, x, size).0.maxUsed == Max(h.maxUsed, Peak(h, ReallocStep(x, size)))
  {
    hide CoreInv, NoAdjacentFree, Live, Request, IndexOf, Tiled, Free, Alloc, Del, Ins, Without, Stamp;
    BlockIndex(h, x);
    RequestAligned(size);
    var i, n := IndexOf(h.blocks, x), Request(size);
    if Moves(h, x, n) {
      MoveReady(h, x, n);
      AllocWater(h, n);
      AllocSpec(h, n);
      var (h1, p) := Alloc(h, n);
      if p != NULL {
        CopyInv(h, h1, x, p - HDR, n);
        FreeWater(h1.(bytes := Copy(h1.bytes, p, x + HDR, Payload(h, x))), x);
      }
    } else if n > Payload(h, x) {
    } else if n + HDR + MINI < Payload(h, x) {
      ShrinkSpec(h, i, n);
    }
  }

  ghost function HighWater(hs: seq<Heap>, steps: seq<HeapStep>, i: nat): int
    requires HeapRun(hs, steps) && HeapInv(hs[0]) && i < |hs|
  {
    if i == 0 then InUse(hs[0])
    else
      HeapRunInv(hs, steps, i - 1);
      Max(HighWater(hs, steps, i - 1), Peak(hs[i - 1], steps[i - 1]))
  }

  /** After any run, max_used_size is the high-water mark of pool_size - available_size. */
  lemma {:induction false} MaxUsedIsHighWater(hs: seq<Heap>, steps: seq<HeapStep>, size: int, bytes: seq<Cell>, i: nat)
    requires 2 * HDR <= size < WORD && |bytes| == size / 4 * 4
    requires HeapRun(hs, steps) && hs[0] == Init(size, bytes) && i < |hs|
    ensures HeapInv(hs[0]) && hs[i].maxUsed == HighWater(hs, steps, i)
  {
    hide CoreInv, NoAdjacentFree, Live, HeapNext, HeapEnabled, Peak;
    InitInv(size, bytes);
    if i > 0 {
      HeapRunInv(hs, steps, i - 1);
      assert HeapSteps(hs[i - 1], steps[i - 1], hs[i]);
      MaxUsedIsHighWater(hs, steps, size, bytes, i - 1);
      StepWater(hs[i - 1], steps[i - 1]);
    }
  }
}
