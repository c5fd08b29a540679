/** The small-memory heap with a lowest-free cache: rt-thread/src/mem.c. Addresses are offsets from heap_ptr;
    32-bit build, RT_ALIGN_SIZE 4, without memory tracing. */
module SmallMem {
  import opened Seqs
  import opened Tiles

  /** SIZEOF_STRUCT_MEM */
  const SM: int := 12
  /** MIN_SIZE_ALIGNED */
  const MIN: int := 12
  const NULL: int := -2

  /** m is mem_size_aligned; used also holds heap_end, whose used flag is set. blocks are the headers of the chain
      in address order, heap_end last. */
  datatype Sm = Sm(m: int, next: map<int, int>, prev: map<int, int>, used: set<int>, lfree: int,
                   usedMem: int, maxMem: int, bytes: seq<Cell>, blocks: seq<int>)
  {
    function End(): int { m + SM }
  }

  // ---------- invariant ----------

  /** The chain tiles the heap. */
  ghost predicate Tiled(b: seq<int>, end: int) {
    && |b| >= 2 && b[0] == 0 && b[|b| - 1] == end
    && (forall i, j :: 0 <= i < j < |b| ==> b[i] + SM <= b[j])
    && (forall i :: 0 <= i < |b| ==> b[i] % 4 == 0)
  }

  ghost predicate NextOk(b: seq<int>, next: map<int, int>) {
    && (forall i {:trigger b[i]} :: 0 <= i < |b| - 1 ==> b[i] in next && next[b[i]] == b[i + 1])
    && (b != [] ==> b[|b| - 1] in next && next[b[|b| - 1]] == b[|b| - 1])
  }

  /** prev inverts next, but for heap_end, whose prev nobody keeps up. */
  ghost predicate PrevOk(b: seq<int>, prev: map<int, int>) {
    && (b != [] ==> b[0] in prev && prev[b[0]] == b[0])
    && (forall i {:trigger b[i]} :: 0 < i < |b| - 1 ==> b[i] in prev && prev[b[i]] == b[i - 1])
  }

  ghost predicate UsedOk(b: seq<int>, used: set<int>, end: int) {
    (forall x :: x in used ==> x in b) && end in used
  }

  ghost predicate NoAdjacentFree(b: seq<int>, used: set<int>) {
    forall i :: 0 <= i < |b| - 1 ==> b[i] in used || b[i + 1] in used
  }

  ghost predicate HeadersOk(b: seq<int>, bytes: seq<Cell>) {
    forall x, k :: x in b && x <= k < x + SM && 0 <= k < |bytes| ==> bytes[k] == Meta
  }

  /** lfree is a free block of the chain, or heap_end. */
  ghost predicate LfreeOk(b: seq<int>, used: set<int>, lfree: int, end: int) {
    lfree == end || (lfree in b && lfree !in used)
  }

  /** What a block occupies, header included. */
  function Span(x: int, y: int, used: set<int>): int { if x in used then y - x else 0 }

  /** The bytes occupied by the used blocks among all but the last of b. */
  function UsedSum(b: seq<int>, used: set<int>): int {
    if |b| < 2 then 0 else Span(b[0], b[1], used) + UsedSum(b[1..], used)
  }

  /** Everything about the chain. */
  ghost predicate ChainInv(s: Sm) {
    && Tiled(s.blocks, s.End()) && MIN <= s.m < WORD && |s.bytes| == s.End() + SM
    && NextOk(s.blocks, s.next) && PrevOk(s.blocks, s.prev)
    && UsedOk(s.blocks, s.used, s.End())
    && s.usedMem == UsedSum(s.blocks, s.used)
    && HeadersOk(s.blocks, s.bytes)
  }

  ghost predicate CoreInv(s: Sm) {
    ChainInv(s) && LfreeOk(s.blocks, s.used, s.lfree, s.End())
  }

  /** The chain tiles the heap, prev inverts next, no two neighbours are free, and used_mem is what the used
      blocks occupy. */
  ghost predicate HeapInv(s: Sm) {
    CoreInv(s) && NoAdjacentFree(s.blocks, s.used) && s.usedMem <= s.maxMem
  }

  /** lfree is at or below every free block. */
  ghost predicate Lowest(s: Sm) {
    forall x :: x in s.blocks && x !in s.used ==> s.lfree <= x
  }

  // ---------- sums ----------

  lemma {:induction false} SumJoin(p: seq<int>, q: seq<int>, used: set<int>)
    requires p != [] && q != []
    ensures UsedSum(p + q, used) == UsedSum(p, used) + Span(p[|p| - 1], q[0], used) + UsedSum(q, used)
  {
    var b := p + q;
    assert b[1..] == p[1..] + q;
    if |p| > 1 { SumJoin(p[1..], q, used); } else { assert b[1..] == q; }
  }

  lemma {:induction false} SumFrame(b: seq<int>, used: set<int>, used1: set<int>)
    requires forall i :: 0 <= i < |b| - 1 ==> (b[i] in used <==> b[i] in used1)
    ensures UsedSum(b, used) == UsedSum(b, used1)
  {
    if |b| >= 2 {
      forall i | 0 <= i < |b[1..]| - 1 ensures b[1..][i] in used <==> b[1..][i] in used1 { assert b[1..][i] == b[i + 1]; }
      SumFrame(b[1..], used, used1);
    }
  }

  lemma InsSum(b: seq<int>, i: nat, n: int, used: set<int>, used1: set<int>)
    requires NoDup(b) && i + 1 < |b| && forall x :: x in b && x != b[i] ==> (x in used <==> x in used1)
    ensures UsedSum(Ins(b, i, n), used1)
            == UsedSum(b, used) - Span(b[i], b[i + 1], used) + Span(b[i], n, used1) + Span(n, b[i + 1], used1)
  {
    var p, q := b[..i + 1], b[i + 1..];
    SumJoin(p, q, used);
    SumJoin(p + [n], q, used1);
    SumJoin(p, [n], used1);
    assert b == p + q;
    SumFrame(p, used, used1);
    SumFrame(q, used, used1);
  }

  lemma DelSum(b: seq<int>, i: nat, used: set<int>)
    requires 0 < i && i + 1 < |b|
    ensures UsedSum(Del(b, i), used)
            == UsedSum(b, used) - Span(b[i - 1], b[i], used) - Span(b[i], b[i + 1], used) + Span(b[i - 1], b[i + 1], used)
  {
    var p, q := b[..i], b[i + 1..];
    SumJoin(p + [b[i]], q, used);
    SumJoin(p, [b[i]], used);
    SumJoin(p, q, used);
    assert b == p + [b[i]] + q;
  }

  lemma FlipSum(b: seq<int>, i: nat, used: set<int>, used1: set<int>)
    requires NoDup(b) && i + 1 < |b| && forall x :: x in b && x != b[i] ==> (x in used <==> x in used1)
    ensures UsedSum(b, used1) == UsedSum(b, used) - Span(b[i], b[i + 1], used) + Span(b[i], b[i + 1], used1)
  {
    var p, q := b[..i + 1], b[i + 1..];
    SumJoin(p, q, used);
    SumJoin(p, q, used1);
    assert b == p + q;
    SumFrame(p, used, used1);
    SumFrame(q, used, used1);
  }

  // ---------- facts about the chain ----------

  lemma TiledNoDup(b: seq<int>, end: int)
    requires Tiled(b, end)
    ensures NoDup(b)
  {
  }

  lemma Ordered(b: seq<int>, end: int, i: nat, j: nat)
    requires Tiled(b, end) && i < |b| && j < |b|
    ensures b[i] < b[j] <==> i < j
    ensures i < j ==> b[i] + SM <= b[j]
    ensures b[i] == b[j] <==> i == j
    ensures 0 <= b[i] <= end && b[i] % 4 == 0
  {
    assert j < i ==> b[j] + SM <= b[i];
    assert i > 0 ==> b[0] + SM <= b[i];
    assert i < |b| - 1 ==> b[i] + SM <= b[|b| - 1];
  }

  lemma InsTiled(b: seq<int>, end: int, i: nat, n: int)
    requires Tiled(b, end) && i + 1 < |b| && n % 4 == 0 && b[i] + SM <= n && n + SM <= b[i + 1]
    ensures Tiled(Ins(b, i, n), end) && n !in b
  {
    InsAt(b, i, n);
    var r := Ins(b, i, n);
    hide Ins;
    forall j, k | 0 <= j < k < |r| ensures r[j] + SM <= r[k] { InsOrder(b, end, i, n, r, j, k); }
    forall j | 0 <= j < |b| ensures b[j] != n { Ordered(b, end, j, i); Ordered(b, end, i + 1, j); }
  }

  lemma InsOrder(b: seq<int>, end: int, i: nat, n: int, r: seq<int>, j: nat, k: nat)
    requires Tiled(b, end) && i + 1 < |b| && b[i] + SM <= n && n + SM <= b[i + 1] && j < k < |r| == |b| + 1
    requires forall k {:trigger r[k]} :: 0 <= k < |r| ==> r[k] == if k <= i then b[k] else if k == i + 1 then n else b[k - 1]
    ensures r[j] + SM <= r[k]
  {
    if j == i + 1 {
      Ordered(b, end, i + 1, k - 1);
    } else if k == i + 1 {
      Ordered(b, end, j, i);
    } else {
      Ordered(b, end, if j <= i then j else j - 1, if k <= i then k else k - 1);
    }
  }

  lemma DelTiled(b: seq<int>, end: int, i: nat)
    requires Tiled(b, end) && 0 < i && i + 1 < |b|
    ensures Tiled(Del(b, i), end)
  {
    DelAt(b, i);
    hide Del;
  }

  lemma InsNext(b: seq<int>, i: nat, n: int, next: map<int, int>)
    requires NoDup(b) && i + 1 < |b| && n !in b && NextOk(b, next)
    ensures NextOk(Ins(b, i, n), next[n := b[i + 1]][b[i] := n])
  {
    InsAt(b, i, n);
    var r, next1 := Ins(b, i, n), next[n := b[i + 1]][b[i] := n];
    hide Ins;
    forall k {:trigger r[k]} | 0 <= k < |r| - 1 ensures r[k] in next1 && next1[r[k]] == r[k + 1] {
      assert b[if k <= i then k else k - 1] in next;
      assert k != i && k != i + 1 ==> r[k] != b[i] && r[k] != n;
    }
    assert b[|b| - 1] != b[i] && b[|b| - 1] != n;
  }

  lemma InsPrev(b: seq<int>, i: nat, n: int, prev: map<int, int>)
    requires NoDup(b) && i + 1 < |b| && n !in b && PrevOk(b, prev)
    ensures PrevOk(Ins(b, i, n), prev[n := b[i]][b[i + 1] := n])
    ensures i + 2 == |b| ==> PrevOk(Ins(b, i, n), prev[n := b[i]])
  {
    InsAt(b, i, n);
    var r, prev1 := Ins(b, i, n), prev[n := b[i]][b[i + 1] := n];
    hide Ins;
    forall k {:trigger r[k]} | 0 < k < |r| - 1 ensures r[k] in prev1 && prev1[r[k]] == r[k - 1] { InsPrevAt(b, i, n, prev, k, r); }
    assert b[0] != b[i + 1] && b[0] != n;
    if i + 2 == |b| {
      var prev2 := prev[n := b[i]];
      forall k {:trigger r[k]} | 0 < k < |r| - 1 ensures r[k] in prev2 && prev2[r[k]] == r[k - 1] { InsPrevAt(b, i, n, prev, k, r); }
    }
  }

  lemma InsPrevAt(b: seq<int>, i: nat, n: int, prev: map<int, int>, k: nat, r: seq<int>)
    requires NoDup(b) && i + 1 < |b| && n !in b && PrevOk(b, prev) && 0 < k < |r| - 1 == |b|
    requires forall k {:trigger r[k]} :: 0 <= k < |r| ==> r[k] == if k <= i then b[k] else if k == i + 1 then n else b[k - 1]
    ensures var prev1 := prev[n := b[i]][b[i + 1] := n]; r[k] in prev1 && prev1[r[k]] == r[k - 1]
    ensures i + 2 == |b| ==> var prev2 := prev[n := b[i]]; r[k] in prev2 && prev2[r[k]] == r[k - 1]
  {
    if k <= i { assert b[k] in prev; } else if k > i + 2 { assert b[k - 1] in prev; }
  }

  lemma DelNext(b: seq<int>, i: nat, next: map<int, int>)
    requires NoDup(b) && 0 < i && i + 1 < |b| && NextOk(b, next)
    ensures NextOk(Del(b, i), next[b[i - 1] := b[i + 1]])
  {
    DelAt(b, i);
    var r, next1 := Del(b, i), next[b[i - 1] := b[i + 1]];
    hide Del;
    forall k {:trigger r[k]} | 0 <= k < |r| - 1 ensures r[k] in next1 && next1[r[k]] == r[k + 1] {
      assert b[if k < i then k else k + 1] in next;
      assert k != i - 1 ==> r[k] != b[i - 1];
    }
    assert b[|b| - 1] != b[i - 1];
  }

  lemma DelPrev(b: seq<int>, i: nat, prev: map<int, int>)
    requires NoDup(b) && 0 < i && i + 1 < |b| && PrevOk(b, prev)
    ensures PrevOk(Del(b, i), prev[b[i + 1] := b[i - 1]])
  {
    DelAt(b, i);
    var r, prev1 := Del(b, i), prev[b[i + 1] := b[i - 1]];
    hide Del;
    forall k {:trigger r[k]} | 0 < k < |r| - 1 ensures r[k] in prev1 && prev1[r[k]] == r[k - 1] {
      assert b[if k < i then k else k + 1] in prev;
      assert k != i ==> r[k] != b[i + 1];
    }
    assert b[0] != b[i + 1];
  }

  lemma InsHeaders(b: seq<int>, bytes: seq<Cell>, i: nat, n: int)
    requires HeadersOk(b, bytes) && i < |b|
    ensures HeadersOk(Ins(b, i, n), Stamp(bytes, n, SM))
  {
    InsAt(b, i, n);
    hide Ins;
  }

  lemma DelHeaders(b: seq<int>, bytes: seq<Cell>, i: nat)
    requires HeadersOk(b, bytes) && i < |b|
    ensures HeadersOk(Del(b, i), bytes)
  {
    assert forall x :: x in Del(b, i) ==> x in b;
    hide Del;
  }

  // ---------- the steps of the operations ----------

  /** The links of a new header at z inside the block at i; the prev of heap_end is left alone. */
  function Linked(s: Sm, i: nat, z: int): Sm
    requires i + 1 < |s.blocks|
  {
    var x, y := s.blocks[i], s.blocks[i + 1];
    s.(next := s.next[z := y][x := z],
       prev := if y != s.End() then s.prev[z := x][y := z] else s.prev[z := x],
       blocks := Ins(s.blocks, i, z), bytes := Stamp(s.bytes, z, SM))
  }

  /** The block at i becomes part of the one before it: both directions of plug_holes. */
  function Merge(s: Sm, i: nat): Sm
    requires 0 < i && i + 1 < |s.blocks|
  {
    var w, x, y := s.blocks[i - 1], s.blocks[i], s.blocks[i + 1];
    s.(next := s.next[w := y], prev := s.prev[y := w], blocks := Del(s.blocks, i),
       lfree := if s.lfree == x then w else s.lfree)
  }

  /** plug_holes on the free block at i. */
  function Plug(s: Sm, i: nat): Sm
    requires i + 1 < |s.blocks|
  {
    var s1 := if s.blocks[i + 1] !in s.used && i + 2 < |s.blocks| then Merge(s, i + 1) else s;
    if i > 0 && s.blocks[i - 1] !in s.used && i + 1 < |s1.blocks| then Merge(s1, i) else s1
  }

  /** The used flag cleared; lfree lowered to the block if it is below. */
  function Release(s: Sm, i: nat): Sm
    requires i + 1 < |s.blocks|
  {
    var x := s.blocks[i];
    s.(used := s.used - {x}, lfree := if x < s.lfree then x else s.lfree, usedMem := s.usedMem - (s.blocks[i + 1] - x))
  }

  /** The used block at i keeps n bytes; the rest becomes a free block. lfree is not lowered. */
  function CutTail(s: Sm, i: nat, n: int): Sm
    requires i + 1 < |s.blocks|
  {
    var x := s.blocks[i];
    Linked(s, i, x + SM + n).(usedMem := s.usedMem - (s.blocks[i + 1] - x - SM - n))
  }

  /** The search for the next free block, from the block at i on. */
  function Advance(b: seq<int>, used: set<int>, i: nat): int
    requires i < |b|
    decreases |b| - i
  {
    if i + 1 < |b| && b[i] in used then Advance(b, used, i + 1) else b[i]
  }

  /** The free block at i taken into use for n bytes, split when the rest is worth a block. */
  function Take(s: Sm, i: nat, n: int): Sm
    requires i + 1 < |s.blocks|
  {
    var x, y := s.blocks[i], s.blocks[i + 1];
    var s1 := if y - (x + SM) >= n + SM + MIN
              then Linked(s, i, x + SM + n).(used := s.used + {x}, usedMem := s.usedMem + n + SM)
              else s.(used := s.used + {x}, usedMem := s.usedMem + (y - x));
    s1.(maxMem := if s1.maxMem < s1.usedMem then s1.usedMem else s1.maxMem,
        lfree := if s.lfree == x && i < |s1.blocks| then Advance(s1.blocks, s1.used, i) else s.lfree)
  }

  // ---------- the steps keep the structure ----------

  lemma LastIsEnd(b: seq<int>, end: int, i: nat)
    requires Tiled(b, end) && i < |b|
    ensures b[i] == end <==> i + 1 == |b|
  {
    Ordered(b, end, i, |b| - 1);
  }

  /** A new header inside the block at i, whose used flag may change at the same time. */
  lemma LinkedChain(s: Sm, i: nat, z: int, used1: set<int>, sum: int)
    requires ChainInv(s) && i + 1 < |s.blocks| && z % 4 == 0 && s.blocks[i] + SM <= z && z + SM <= s.blocks[i + 1]
    requires used1 == s.used || used1 == s.used + {s.blocks[i]}
    requires sum == s.usedMem - Span(s.blocks[i], s.blocks[i + 1], s.used) + Span(s.blocks[i], z, used1)
    ensures ChainInv(Linked(s, i, z).(used := used1, usedMem := sum)) && z !in s.blocks && z !in used1
    ensures Tiled(Linked(s, i, z).blocks, s.End())
  {
    hide Ins, Stamp, UsedSum, NextOk, PrevOk, HeadersOk, NoAdjacentFree;
    var b := s.blocks;
    TiledNoDup(b, s.End());
    LastIsEnd(b, s.End(), i + 1);
    InsTiled(b, s.End(), i, z);
    hide Tiled;
    InsSum(b, i, z, s.used, used1);
    InsNext(b, i, z, s.next);
    InsPrev(b, i, z, s.prev);
    InsHeaders(b, s.bytes, i, z);
    InsAt(b, i, z);
  }

  lemma MergeChain(s: Sm, i: nat)
    requires ChainInv(s) && 0 < i && i + 1 < |s.blocks| && s.blocks[i] !in s.used && s.blocks[i - 1] !in s.used
    ensures ChainInv(Merge(s, i))
    ensures LfreeOk(s.blocks, s.used, s.lfree, s.End()) ==> LfreeOk(Merge(s, i).blocks, s.used, Merge(s, i).lfree, s.End())
    ensures Lowest(s) ==> Lowest(Merge(s, i))
  {
    hide Del, UsedSum, NextOk, PrevOk, HeadersOk, NoAdjacentFree;
    var b := s.blocks;
    TiledNoDup(b, s.End());
    Ordered(b, s.End(), i - 1, i);
    DelTiled(b, s.End(), i);
    hide Tiled;
    DelSum(b, i, s.used);
    DelNext(b, i, s.next);
    DelPrev(b, i, s.prev);
    DelHeaders(b, s.bytes, i);
    DelAt(b, i);
  }

  lemma ReleaseChain(s: Sm, i: nat)
    requires ChainInv(s) && i + 1 < |s.blocks| && s.blocks[i] in s.used
    ensures ChainInv(Release(s, i))
    ensures LfreeOk(s.blocks, s.used, s.lfree, s.End()) ==> LfreeOk(s.blocks, Release(s, i).used, Release(s, i).lfree, s.End())
    ensures Lowest(s) ==> Lowest(Release(s, i))
  {
    hide UsedSum, NextOk, PrevOk, HeadersOk;
    TiledNoDup(s.blocks, s.End());
    LastIsEnd(s.blocks, s.End(), i);
    Ordered(s.blocks, s.End(), i, |s.blocks| - 1);
    hide Tiled;
    FlipSum(s.blocks, i, s.used, s.used - {s.blocks[i]});
  }

  lemma WholeChain(s: Sm, i: nat)
    requires ChainInv(s) && i + 1 < |s.blocks| && s.blocks[i] !in s.used
    ensures ChainInv(s.(used := s.used + {s.blocks[i]}, usedMem := s.usedMem + (s.blocks[i + 1] - s.blocks[i])))
  {
    hide UsedSum, NextOk, PrevOk, HeadersOk;
    TiledNoDup(s.blocks, s.End());
    hide Tiled;
    FlipSum(s.blocks, i, s.used, s.used + {s.blocks[i]});
  }

  /** Advance stops at the first free block from i on, or at heap_end. */
  lemma {:induction false} AdvanceFinds(b: seq<int>, used: set<int>, i: nat)
    requires i < |b|
    ensures var r := Advance(b, used, i);
      exists j :: i <= j < |b| && b[j] == r && (r !in used || j + 1 == |b|) && forall k :: i <= k < j ==> b[k] in used
    decreases |b| - i
  {
    if i + 1 < |b| && b[i] in used {
      AdvanceFinds(b, used, i + 1);
      var j :| i + 1 <= j < |b| && b[j] == Advance(b, used, i + 1) && (b[j] !in used || j + 1 == |b|)
               && forall k :: i + 1 <= k < j ==> b[k] in used;
      assert b[j] == Advance(b, used, i);
    } else {
      assert b[i] == Advance(b, used, i);
    }
  }

  // ---------- the operations ----------

  /** The size rt_malloc looks for. */
  function Request(size: int): (r: int)
    ensures r >= MIN && r % 4 == 0
  {
    if Align(size) < MIN then MIN else Align(size)
  }

  lemma RequestCovers(size: int)
    requires 0 <= size < WORD
    ensures Request(size) >= size <==> size <= WORD - 4
    ensures 0 <= Align(size) < WORD && Align(size) % 4 == 0 && Align(Align(size)) == Align(size)
  {
  }

  /** The position of the first free block with room for n among those from i on that start below limit; |b| if
      there is none. */
  function Search(b: seq<int>, used: set<int>, limit: int, n: int, i: nat): (j: nat)
    requires i < |b|
    ensures j <= |b|
    ensures j < |b| ==> i <= j && j + 1 < |b| && b[j] < limit && b[j] !in used && b[j + 1] - (b[j] + SM) >= n
    decreases |b| - i
  {
    if b[i] >= limit || i + 1 == |b| then |b|
    else if b[i] !in used && b[i + 1] - (b[i] + SM) >= n then i
    else Search(b, used, limit, n, i + 1)
  }

  ghost function Malloc(s: Sm, size: int): (Sm, int)
    requires CoreInv(s)
  {
    if size == 0 || Align(size) > s.m then (s, NULL)
    else
      LfreeIn(s);
      var n := Request(size);
      var j := Search(s.blocks, s.used, s.m - n, n, IndexOf(s.blocks, s.lfree));
      if j == |s.blocks| then (s, NULL) else (Take(s, j, n), s.blocks[j] + SM)
  }

  lemma LfreeIn(s: Sm)
    requires CoreInv(s)
    ensures s.lfree in s.blocks
  {
    assert s.blocks[|s.blocks| - 1] == s.End();
  }

  /** A block other than heap_end, with its place in the chain. */
  lemma UsedAt(s: Sm, x: int)
    requires ChainInv(s) && x in s.used && x != s.End()
    ensures x in s.blocks && var i := IndexOf(s.blocks, x);
      && i + 1 < |s.blocks| && s.blocks[i] == x && x in s.next && s.next[x] == s.blocks[i + 1]
      && 0 <= x && x + SM <= s.next[x] <= s.End() < |s.bytes| && x % 4 == 0
  {
    var i := IndexOf(s.blocks, x);
    LastIsEnd(s.blocks, s.End(), i);
    Ordered(s.blocks, s.End(), i, i + 1);
    Ordered(s.blocks, s.End(), i + 1, i);
  }

  ghost function Free(s: Sm, x: int): Sm
    requires ChainInv(s) && x in s.used && x != s.End()
  {
    UsedAt(s, x);
    var i := IndexOf(s.blocks, x);
    Plug(Release(s, i), i)
  }

  ghost function Shrink(s: Sm, i: nat, n: int): Sm
    requires i + 1 < |s.blocks|
  {
    Plug(CutTail(s, i, n), i + 1)
  }

  // ---------- rt_malloc ----------

  lemma TakeInv(s: Sm, i: nat, n: int)
    requires HeapInv(s) && i + 1 < |s.blocks| && s.blocks[i] !in s.used && n >= MIN && n % 4 == 0
    requires s.blocks[i + 1] - (s.blocks[i] + SM) >= n
    ensures HeapInv(Take(s, i, n)) && (Lowest(s) ==> Lowest(Take(s, i, n)))
  {
    hide ChainInv, NoAdjacentFree, LfreeOk, Ins, Stamp;
    var x, y := s.blocks[i], s.blocks[i + 1];
    ChainPlace(s, i);
    if y - (x + SM) >= n + SM + MIN {
      var s1 := Linked(s, i, x + SM + n).(used := s.used + {x}, usedMem := s.usedMem + n + SM);
      LinkedChain(s, i, x + SM + n, s.used + {x}, s.usedMem + n + SM);
      SplitNeighbours(s.blocks, i, x + SM + n, s.used);
      SplitLfree(s, i, x + SM + n, s1);
      ChainFrame(s1, Take(s, i, n));
    } else {
      var s1 := s.(used := s.used + {x}, usedMem := s.usedMem + (y - x));
      WholeChain(s, i);
      WholeNeighbours(s.blocks, i, s.used);
      WholeLfree(s, i, s1);
      ChainFrame(s1, Take(s, i, n));
    }
  }

  lemma ChainPlace(s: Sm, i: nat)
    requires ChainInv(s) && i + 1 < |s.blocks|
    ensures 0 <= s.blocks[i] && s.blocks[i] + SM <= s.blocks[i + 1] <= s.End() && s.blocks[i] % 4 == 0
    ensures s.blocks[i] in s.next && s.next[s.blocks[i]] == s.blocks[i + 1] && s.blocks[i] != s.End() && s.End() in s.used
  {
    Ordered(s.blocks, s.End(), i, i + 1);
    Ordered(s.blocks, s.End(), i + 1, i);
    LastIsEnd(s.blocks, s.End(), i);
  }

  /** max_mem and lfree play no part in the chain. */
  lemma ChainFrame(s: Sm, s1: Sm)
    requires ChainInv(s) && s1 == s.(maxMem := s1.maxMem, lfree := s1.lfree)
    ensures ChainInv(s1)
  {
  }

  lemma SplitNeighbours(b: seq<int>, i: nat, n: int, used: set<int>)
    requires NoAdjacentFree(b, used) && i + 1 < |b| && b[i] !in used
    ensures NoAdjacentFree(Ins(b, i, n), used + {b[i]})
  {
    InsAt(b, i, n);
    assert b[i] in used || b[i + 1] in used;
    hide Ins;
  }

  lemma WholeNeighbours(b: seq<int>, i: nat, used: set<int>)
    requires NoAdjacentFree(b, used) && i < |b|
    ensures NoAdjacentFree(b, used + {b[i]})
  {
  }

  /** lfree after a block was taken: if it pointed there, it moves on to the next free block. */
  lemma SplitLfree(s: Sm, i: nat, z: int, s1: Sm)
    requires CoreInv(s) && i + 1 < |s.blocks| && s.blocks[i] !in s.used && s.blocks[i] < z && z !in s1.used
    requires s1.blocks == Ins(s.blocks, i, z) && s1.used == s.used + {s.blocks[i]} && s1.lfree == s.lfree && s1.m == s.m
    requires Tiled(s1.blocks, s.End())
    ensures i < |s1.blocks|
    ensures var l := if s.lfree == s.blocks[i] then Advance(s1.blocks, s1.used, i) else s.lfree;
      LfreeOk(s1.blocks, s1.used, l, s.End()) && (Lowest(s) ==> Lowest(s1.(lfree := l)))
  {
    hide NextOk, PrevOk, HeadersOk, UsedSum, NoAdjacentFree, Ins, Advance, Tiled;
    InsAt(s.blocks, i, z);
    if s.lfree == s.blocks[i] { AdvanceLowest(s1.blocks, s1.used, s.End(), i); } else if Lowest(s) { assert s.lfree <= s.blocks[i]; }
  }

  lemma WholeLfree(s: Sm, i: nat, s1: Sm)
    requires CoreInv(s) && i + 1 < |s.blocks| && s.blocks[i] !in s.used
    requires s1.blocks == s.blocks && s1.used == s.used + {s.blocks[i]} && s1.lfree == s.lfree && s1.m == s.m
    ensures var l := if s.lfree == s.blocks[i] then Advance(s1.blocks, s1.used, i) else s.lfree;
      LfreeOk(s1.blocks, s1.used, l, s.End()) && (Lowest(s) ==> Lowest(s1.(lfree := l)))
  {
    hide NextOk, PrevOk, HeadersOk, UsedSum, NoAdjacentFree;
    if s.lfree == s.blocks[i] { AdvanceLowest(s1.blocks, s1.used, s.End(), i); }
  }

  lemma AdvanceLowest(b: seq<int>, used: set<int>, end: int, i: nat)
    requires Tiled(b, end) && i < |b|
    ensures LfreeOk(b, used, Advance(b, used, i), end)
    ensures (forall x :: x in b && x !in used ==> b[i] <= x) ==> forall x :: x in b && x !in used ==> Advance(b, used, i) <= x
  {
    AdvanceFinds(b, used, i);
    var r := Advance(b, used, i);
    var j :| i <= j < |b| && b[j] == r && (r !in used || j + 1 == |b|) && forall k :: i <= k < j ==> b[k] in used;
    forall x | x in b && x !in used && b[i] <= x ensures r <= x {
      var k := IndexOf(b, x);
      Ordered(b, end, k, j);
      Ordered(b, end, k, i);
    }
  }

  // ---------- live regions ----------

  /** What the callers have: for every allocated block, the bytes of its payload. */
  ghost function Live(s: Sm): map<int, seq<Cell>>
    requires ChainInv(s)
  {
    map x | x in s.used && x != s.End() :: Content(s, x)
  }

  ghost function Content(s: Sm, x: int): seq<Cell>
    requires ChainInv(s) && x in s.used && x != s.End()
  {
    UsedAt(s, x);
    s.bytes[x + SM..s.next[x]]
  }

  /** Block x has the same end and its payload is untouched. */
  ghost predicate Kept(s: Sm, s1: Sm, x: int) {
    && x in s.next && x in s1.next && s1.next[x] == s.next[x] && |s1.bytes| == |s.bytes|
    && forall k :: x + SM <= k < s.next[x] && 0 <= k < |s.bytes| ==> s1.bytes[k] == s.bytes[k]
  }

  /** Every allocated block but x. */
  ghost predicate Untouched(s: Sm, s1: Sm, x: int) {
    forall z :: z in s.used && z != x && z != s.End() ==> Kept(s, s1, z)
  }

  lemma UntouchedTwice(s: Sm, s1: Sm, s2: Sm, x: int)
    requires Untouched(s, s1, x) && Untouched(s1, s2, x) && s1.m == s.m && (forall z :: z in s.used && z != x ==> z in s1.used)
    ensures Untouched(s, s2, x)
  {
    forall z | z in s.used && z != x && z != s.End() ensures Kept(s, s2, z) { assert Kept(s, s1, z) && Kept(s1, s2, z); }
  }

  lemma LiveHas(s: Sm, x: int)
    requires ChainInv(s)
    ensures x in Live(s) <==> x in s.used && x != s.End()
    ensures x in Live(s) ==> Live(s)[x] == Content(s, x) && 0 <= x && x in s.next && x + SM <= s.next[x] <= s.End() < |s.bytes|
    ensures x in Live(s) ==> |Live(s)[x]| == s.next[x] - x - SM && Live(s)[x] == s.bytes[x + SM..s.next[x]] && x % 4 == 0
  {
    if x in s.used && x != s.End() { UsedAt(s, x); }
  }

  /** The live regions after blocks other than x were kept. */
  lemma LiveOthers(s: Sm, s1: Sm, x: int)
    requires ChainInv(s) && ChainInv(s1) && s1.m == s.m && x != s.End() && Untouched(s, s1, x)
    requires forall z :: z != x ==> (z in s1.used <==> z in s.used)
    ensures x in s1.used ==> Live(s1) == Live(s)[x := Content(s1, x)]
    ensures x !in s1.used ==> Live(s1) == map z | z in Live(s) && z != x :: Live(s)[z]
  {
    hide ChainInv, Content, Kept;
    forall z | z in s.used && z != s.End() && z != x ensures Content(s1, z) == Content(s, z) { KeptContent(s, s1, z); }
  }

  lemma KeptContent(s: Sm, s1: Sm, z: int)
    requires ChainInv(s) && ChainInv(s1) && s1.m == s.m && z in s.used && z in s1.used && z != s.End() && Kept(s, s1, z)
    ensures Content(s1, z) == Content(s, z)
  {
    hide ChainInv;
    UsedAt(s, z);
    UsedAt(s1, z);
  }

  /** Live payloads do not overlap, and lie between headers. */
  lemma LiveDisjoint(s: Sm, x: int, z: int)
    requires ChainInv(s) && x in Live(s) && z in Live(s) && x < z
    ensures x + SM + |Live(s)[x]| <= z
  {
    hide ChainInv;
    LiveHas(s, x);
    LiveHas(s, z);
    UsedAt(s, z);
    Outside(s, IndexOf(s.blocks, z), x);
  }

  /** An allocated block lies before or after any other block. */
  lemma Outside(s: Sm, i: nat, w: int)
    requires ChainInv(s) && i < |s.blocks| && w in s.used && w != s.End() && w != s.blocks[i]
    ensures w in s.next && (s.next[w] <= s.blocks[i] || (s.blocks[i] < w && (i + 1 < |s.blocks| ==> s.blocks[i + 1] <= w)))
  {
    UsedAt(s, w);
    var j := IndexOf(s.blocks, w);
    hide NextOk, PrevOk, HeadersOk, UsedOk, IndexOf;
    Ordered(s.blocks, s.End(), j, i);
    Ordered(s.blocks, s.End(), j + 1, i);
    if i + 1 < |s.blocks| { Ordered(s.blocks, s.End(), i + 1, j); }
  }

  lemma LinkedKeeps(s: Sm, i: nat, z: int, s1: Sm)
    requires ChainInv(s) && i + 1 < |s.blocks| && z !in s.blocks && s.blocks[i] + SM <= z && z + SM <= s.blocks[i + 1]
    requires s1.next == Linked(s, i, z).next && s1.bytes == Linked(s, i, z).bytes
    ensures Untouched(s, s1, s.blocks[i])
    ensures s.blocks[i] in s1.next && s1.next[s.blocks[i]] == z
    ensures forall k :: 0 <= k < |s.bytes| && !(z <= k < z + SM) ==> s1.bytes[k] == s.bytes[k]
  {
    hide ChainInv;
    forall w | w in s.used && w != s.blocks[i] && w != s.End() ensures Kept(s, s1, w) {
      UsedAt(s, w);
      Outside(s, i, w);
    }
  }

  lemma MergeKeeps(s: Sm, i: nat)
    requires ChainInv(s) && 0 < i && i + 1 < |s.blocks| && s.blocks[i - 1] !in s.used
    ensures Untouched(s, Merge(s, i), NULL)
  {
    forall w | w in s.used && w != s.End() ensures Kept(s, Merge(s, i), w) { UsedAt(s, w); }
  }

  // ---------- plug_holes ----------

  ghost predicate AdjacentOnly(b: seq<int>, used: set<int>, p: set<int>) {
    forall k :: 0 <= k < |b| - 1 && k !in p ==> b[k] in used || b[k + 1] in used
  }

  lemma DelAdjacent(b: seq<int>, used: set<int>, i: nat)
    requires 0 < i && i + 1 < |b| && b[i] !in used && b[i - 1] !in used
    ensures AdjacentOnly(b, used, {i - 1}) ==> NoAdjacentFree(Del(b, i), used)
    ensures AdjacentOnly(b, used, {i - 2, i - 1}) ==> AdjacentOnly(Del(b, i), used, {i - 2})
  {
    DelAt(b, i);
    hide Del;
    assert AdjacentOnly(b, used, {i - 1}) ==> b[i] in used || b[i + 1] in used;
    assert AdjacentOnly(b, used, {i - 2, i - 1}) ==> b[i] in used || b[i + 1] in used;
  }

  /** plug_holes joins a free block with its free neighbours, and touches no allocated block. */
  lemma PlugInv(s: Sm, i: nat)
    requires CoreInv(s) && i + 1 < |s.blocks| && s.blocks[i] !in s.used
    requires AdjacentOnly(s.blocks, s.used, {i - 1, i})
    ensures var s1 := Plug(s, i);
      && CoreInv(s1) && NoAdjacentFree(s1.blocks, s1.used) && Untouched(s, s1, NULL)
      && s1.m == s.m && s1.used == s.used && s1.usedMem == s.usedMem && s1.maxMem == s.maxMem && s1.bytes == s.bytes
      && (Lowest(s) ==> Lowest(s1))
  {
    hide ChainInv, Del, NoAdjacentFree, AdjacentOnly, LfreeOk, Lowest, Kept;
    PlugForward(s, i);
    var s1 := Forward(s, i);
    if i > 0 && s.blocks[i - 1] !in s.used {
      MergeChain(s1, i);
      DelAdjacent(s1.blocks, s1.used, i);
      MergeKeeps(s1, i);
      UntouchedTwice(s, s1, Merge(s1, i), NULL);
    } else {
      Narrow(s1.blocks, s1.used, i);
    }
  }

  function Forward(s: Sm, i: nat): Sm
    requires i + 1 < |s.blocks|
  {
    if s.blocks[i + 1] !in s.used && i + 2 < |s.blocks| then Merge(s, i + 1) else s
  }

  lemma PlugForward(s: Sm, i: nat)
    requires CoreInv(s) && i + 1 < |s.blocks| && s.blocks[i] !in s.used
    requires AdjacentOnly(s.blocks, s.used, {i - 1, i})
    ensures var s1 := Forward(s, i);
      && CoreInv(s1) && i + 1 < |s1.blocks| && s1.blocks[i] == s.blocks[i] && (i > 0 ==> s1.blocks[i - 1] == s.blocks[i - 1])
      && AdjacentOnly(s1.blocks, s1.used, {i - 1}) && Untouched(s, s1, NULL)
      && s1 == s.(next := s1.next, prev := s1.prev, blocks := s1.blocks, lfree := s1.lfree)
      && (Lowest(s) ==> Lowest(s1))
  {
    hide ChainInv, NoAdjacentFree, LfreeOk, Lowest, Kept;
    EndUsed(s, i + 1);
    if s.blocks[i + 1] !in s.used {
      MergeChain(s, i + 1);
      DelAdjacent(s.blocks, s.used, i + 1);
      MergeKeeps(s, i + 1);
      DelAt(s.blocks, i + 1);
      hide Del, AdjacentOnly;
    } else {
      Same(s);
    }
  }

  lemma Same(s: Sm)
    requires ChainInv(s)
    ensures Untouched(s, s, NULL)
  {
    forall z | z in s.used && z != s.End() ensures Kept(s, s, z) { UsedAt(s, z); }
  }

  lemma EndUsed(s: Sm, i: nat)
    requires ChainInv(s) && i < |s.blocks|
    ensures s.blocks[i] !in s.used ==> i + 1 < |s.blocks|
  {
  }

  lemma Narrow(b: seq<int>, used: set<int>, i: nat)
    requires AdjacentOnly(b, used, {i - 1}) && i < |b| && (i > 0 ==> b[i - 1] in used)
    ensures NoAdjacentFree(b, used)
  {
  }

  // ---------- what rt_malloc does ----------

  /** x is a new live region of s1; the others are as in s. */
  ghost predicate Added(s: Sm, s1: Sm, x: int, size: int)
    requires ChainInv(s) && ChainInv(s1)
  {
    && x % 4 == 0 && x !in Live(s) && x in Live(s1) && Live(s1) == Live(s)[x := Live(s1)[x]]
    && Request(size) <= |Live(s1)[x]| < Request(size) + SM + MIN && (size <= WORD - 4 ==> |Live(s1)[x]| >= size)
  }

  /** rt_malloc keeps the heap in shape and lfree lowest; on success a new region appears among the live ones, as
      large as asked for unless rounding the size wraps; on failure nothing changes. */
  lemma MallocSpec(s: Sm, size: int)
    requires HeapInv(s) && 0 <= size < WORD
    ensures HeapInv(Malloc(s, size).0) && Malloc(s, size).0.m == s.m
    ensures Lowest(s) ==> Lowest(Malloc(s, size).0)
    ensures Malloc(s, size).1 == NULL ==> Malloc(s, size).0 == s
    ensures Malloc(s, size).1 != NULL ==> Added(s, Malloc(s, size).0, Malloc(s, size).1 - SM, size)
  {
    hide ChainInv, NoAdjacentFree, LfreeOk, Lowest, Request, Live, Search, Take;
    LfreeIn(s);
    var n := Request(size);
    var j := Search(s.blocks, s.used, s.m - n, n, IndexOf(s.blocks, s.lfree));
    if size != 0 && Align(size) <= s.m && j < |s.blocks| {
      RequestCovers(size);
      ChainPlace(s, j);
      TakeInv(s, j, n);
      TakeLive(s, j, n);
    }
  }

  lemma TakeLive(s: Sm, i: nat, n: int)
    requires HeapInv(s) && i + 1 < |s.blocks| && s.blocks[i] !in s.used && n >= MIN && n % 4 == 0
    requires s.blocks[i + 1] - (s.blocks[i] + SM) >= n && HeapInv(Take(s, i, n))
    ensures var s1, x := Take(s, i, n), s.blocks[i];
      s1.m == s.m && x !in Live(s) && x in Live(s1) && n <= |Live(s1)[x]| < n + SM + MIN && Live(s1) == Live(s)[x := Live(s1)[x]]
  {
    hide ChainInv, NoAdjacentFree, LfreeOk, Live, Ins, Stamp, Kept, Advance;
    var x, s1 := s.blocks[i], Take(s, i, n);
    ChainPlace(s, i);
    if s.blocks[i + 1] - (x + SM) >= n + SM + MIN {
      InsTiledHere(s, i, x + SM + n);
      LinkedKeeps(s, i, x + SM + n, s1);
    } else {
      SameNext(s, s1, x);
    }
    LiveOthers(s, s1, x);
    LiveHas(s1, x);
    LiveHas(s, x);
  }

  lemma InsTiledHere(s: Sm, i: nat, z: int)
    requires ChainInv(s) && i + 1 < |s.blocks| && z % 4 == 0 && s.blocks[i] + SM <= z && z + SM <= s.blocks[i + 1]
    ensures z !in s.blocks && z != NULL
  {
    InsTiled(s.blocks, s.End(), i, z);
    Ordered(s.blocks, s.End(), i, i + 1);
  }

  lemma SameNext(s: Sm, s1: Sm, x: int)
    requires ChainInv(s) && s1.next == s.next && s1.bytes == s.bytes
    ensures Untouched(s, s1, x)
  {
    forall z | z in s.used && z != s.End() ensures Kept(s, s1, z) { UsedAt(s, z); }
  }

  /** The search that starts at lfree finds what a search from the start of the heap would, as long as lfree is
      lowest. */
  lemma {:induction false} SearchSkips(b: seq<int>, used: set<int>, limit: int, n: int, i: nat, j: nat)
    requires i <= j < |b| && (forall k :: i <= k < j ==> b[k] in used) && Increasing(b)
    ensures Search(b, used, limit, n, i) == Search(b, used, limit, n, j)
    decreases j - i
  {
    if i < j {
      SearchSkips(b, used, limit, n, i + 1, j);
      if b[i] >= limit { assert b[j] >= limit; }
    }
  }

  lemma LfreeShortcut(s: Sm, limit: int, n: int)
    requires CoreInv(s) && Lowest(s)
    ensures s.lfree in s.blocks
    ensures Search(s.blocks, s.used, limit, n, IndexOf(s.blocks, s.lfree)) == Search(s.blocks, s.used, limit, n, 0)
  {
    hide NextOk, PrevOk, HeadersOk;
    LfreeIn(s);
    var b, j := s.blocks, IndexOf(s.blocks, s.lfree);
    forall k | 0 <= k < j ensures b[k] in s.used { assert b[k] in b; Ordered(b, s.End(), k, j); }
    ChainIncreasing(s);
    SearchSkips(b, s.used, limit, n, 0, j);
  }

  ghost predicate Increasing(b: seq<int>) { forall k, l :: 0 <= k < l < |b| ==> b[k] < b[l] }

  lemma ChainIncreasing(s: Sm)
    requires ChainInv(s)
    ensures Increasing(s.blocks)
  {
  }

  /** No free block from position i on that starts below limit has room for n. */
  ghost predicate NoRoom(b: seq<int>, used: set<int>, limit: int, n: int, i: nat) {
    forall k {:trigger b[k]} :: i <= k < |b| - 1 && b[k] < limit && b[k] !in used ==> b[k + 1] - (b[k] + SM) < n
  }

  lemma {:induction false} SearchFails(b: seq<int>, used: set<int>, limit: int, n: int, i: nat)
    requires i < |b| && Increasing(b)
    ensures Search(b, used, limit, n, i) == |b| <==> NoRoom(b, used, limit, n, i)
    decreases |b| - i
  {
    if b[i] < limit && i + 1 < |b| && !(b[i] !in used && b[i + 1] - (b[i] + SM) >= n) {
      SearchFails(b, used, limit, n, i + 1);
    }
  }

  /** With lfree lowest, rt_malloc fails iff nothing is asked for, or more than the heap has, or no free block that
      starts below mem_size_aligned - size has room. A last block that fits exactly starts right there: it is lost. */
  lemma MallocFailsIff(s: Sm, size: int)
    requires HeapInv(s) && Lowest(s)
    ensures Malloc(s, size).1 == NULL <==>
      size == 0 || Align(size) > s.m || NoRoom(s.blocks, s.used, s.m - Request(size), Request(size), 0)
  {
    hide ChainInv, NoAdjacentFree, Search, Request, Take, NoRoom, Increasing, Lowest, IndexOf, LfreeOk;
    var n := Request(size);
    LfreeIn(s);
    LfreeShortcut(s, s.m - n, n);
    ChainIncreasing(s);
    SearchFails(s.blocks, s.used, s.m - n, n, 0);
    var i := IndexOf(s.blocks, s.lfree);
    var j := Search(s.blocks, s.used, s.m - n, n, i);
    if j < |s.blocks| { ChainPlace(s, j); }
  }

  /** Such a block: the whole of a fresh heap, asked for exactly. */
  lemma ExactFitIsLost(s: Sm, size: int)
    requires HeapInv(s) && s.blocks == [0, s.End()] && s.used == {s.End()} && size == s.m && size >= MIN && size % 4 == 0 && s.m < WORD - 4
    ensures s.blocks[1] - (s.blocks[0] + SM) == size && Malloc(s, size) == (s, NULL)
  {
    LfreeIn(s);
  }

  // ---------- what rt_free does ----------

  lemma UnuseKeeps(s: Sm, i: nat)
    requires ChainInv(s) && i + 1 < |s.blocks|
    ensures Untouched(s, Release(s, i), s.blocks[i])
  {
    forall z | z in s.used && z != s.End() ensures Kept(s, Release(s, i), z) { UsedAt(s, z); }
  }

  lemma ReleaseAdjacent(b: seq<int>, used: set<int>, i: nat)
    requires NoAdjacentFree(b, used) && NoDup(b) && i < |b|
    ensures AdjacentOnly(b, used - {b[i]}, {i - 1, i})
  {
  }

  /** rt_free keeps the heap in shape and lfree lowest, and takes exactly the freed region from the live ones. */
  lemma FreeSpec(s: Sm, x: int)
    requires HeapInv(s) && x in s.used && x != s.End()
    ensures HeapInv(Free(s, x)) && Free(s, x).m == s.m
    ensures Lowest(s) ==> Lowest(Free(s, x))
    ensures Live(Free(s, x)) == map z | z in Live(s) && z != x :: Live(s)[z]
  {
    hide ChainInv, NoAdjacentFree, LfreeOk, Lowest, Live, Kept, AdjacentOnly, Plug, Untouched, IndexOf;
    UsedAt(s, x);
    var i := IndexOf(s.blocks, x);
    ReleaseChain(s, i);
    ChainDistinct(s);
    ReleaseAdjacent(s.blocks, s.used, i);
    UnuseKeeps(s, i);
    var s1 := Release(s, i);
    PlugInv(s1, i);
    UntouchedMore(s, s1, Plug(s1, i), x);
    LiveOthers(s, Plug(s1, i), x);
    SpanPositive(s, i);
  }

  lemma ChainDistinct(s: Sm)
    requires ChainInv(s)
    ensures NoDup(s.blocks)
  {
    TiledNoDup(s.blocks, s.End());
  }

  lemma SpanPositive(s: Sm, i: nat)
    requires ChainInv(s) && i + 1 < |s.blocks|
    ensures s.blocks[i] + SM <= s.blocks[i + 1]
  {
  }

  lemma UntouchedMore(s: Sm, s1: Sm, s2: Sm, x: int)
    requires ChainInv(s) && ChainInv(s2) && Untouched(s, s1, x) && Untouched(s1, s2, NULL) && s1.m == s.m && s1.used == s.used - {x}
    ensures Untouched(s, s2, x)
  {
    hide ChainInv, Kept;
    forall z | z in s.used && z != x && z != s.End() ensures Kept(s, s2, z) {
      UsedAt(s, z);
      assert Kept(s, s1, z) && Kept(s1, s2, z);
      KeptTwice(s, s1, s2, z);
    }
  }

  lemma KeptTwice(s: Sm, s1: Sm, s2: Sm, z: int)
    requires Kept(s, s1, z) && Kept(s1, s2, z)
    ensures Kept(s, s2, z)
  {
  }

  // ---------- rt_realloc ----------

  /** The region of x became that of z: n bytes, or as many as a new block for n has, if it was not much larger; the old
      bytes kept as far as they fit; the other live regions are as they were. */
  ghost predicate Resized(s: Sm, s1: Sm, x: int, z: int, n: int)
    requires ChainInv(s) && ChainInv(s1) && x in Live(s)
  {
    var have := |Live(s)[x]|;
    var keep := if have < n then have else n;
    && z % 4 == 0 && (z == x || z !in Live(s))
    && z in Live(s1) && n <= |Live(s1)[z]| < Request(n) + SM + MIN && (have == n || have > n + SM + MIN ==> |Live(s1)[z]| == n)
    && 0 <= keep && Live(s1)[z][..keep] == Live(s)[x][..keep]
    && Live(s1) - {z} == Live(s) - {x}
  }

  /** The in-place shrink: the tail of the block at i becomes free. */
  lemma ShrinkInv(s: Sm, i: nat, n: int)
    requires HeapInv(s) && i + 1 < |s.blocks| && s.blocks[i] in s.used && n % 4 == 0 && n >= 0
    requires s.blocks[i] + SM + n + SM <= s.blocks[i + 1]
    ensures HeapInv(Shrink(s, i, n)) && Shrink(s, i, n).m == s.m && Shrink(s, i, n).used == s.used
    ensures CoreInv(CutTail(s, i, n)) && Untouched(CutTail(s, i, n), Shrink(s, i, n), NULL)
    ensures s.blocks[i] + SM + n !in s.blocks && s.blocks[i] + SM + n !in s.used && Shrink(s, i, n).bytes == CutTail(s, i, n).bytes
  {
    hide ChainInv, NoAdjacentFree, Lowest, Kept, Plug, Stamp, Untouched, AdjacentOnly;
    var x, z := s.blocks[i], s.blocks[i] + SM + n;
    ChainPlace(s, i);
    var s1 := CutTail(s, i, n);
    LinkedChain(s, i, z, s.used, s.usedMem - (s.blocks[i + 1] - x - SM - n));
    assert s1 == Linked(s, i, z).(used := s.used, usedMem := s.usedMem - (s.blocks[i + 1] - x - SM - n));
    InsAt(s.blocks, i, z);
    CutAdjacent(s.blocks, s.used, i, z);
    hide Ins;
    PlugInv(s1, i + 1);
  }

  lemma CutAdjacent(b: seq<int>, used: set<int>, i: nat, z: int)
    requires NoAdjacentFree(b, used) && i + 1 < |b| && b[i] in used
    ensures AdjacentOnly(Ins(b, i, z), used, {i, i + 1})
  {
    InsAt(b, i, z);
    hide Ins;
  }

  lemma ShrinkSpec(s: Sm, i: nat, n: int)
    requires HeapInv(s) && i + 1 < |s.blocks| && s.blocks[i] in s.used && n % 4 == 0 && n >= 0
    requires s.blocks[i] + SM + n + SM <= s.blocks[i + 1]
    ensures HeapInv(Shrink(s, i, n)) && s.blocks[i] in Live(s) && Resized(s, Shrink(s, i, n), s.blocks[i], s.blocks[i], n)
  {
    hide ChainInv, NoAdjacentFree, LfreeOk, Lowest, Kept, Plug, Untouched, Ins, Live, Shrink;
    var x, z := s.blocks[i], s.blocks[i] + SM + n;
    ChainPlace(s, i);
    ShrinkInv(s, i, n);
    var s1, s2 := CutTail(s, i, n), Shrink(s, i, n);
    LinkedKeeps(s, i, z, s1);
    UntouchedThrough(s, s1, s2, x);
    LiveOthers(s, s2, x);
    LiveHas(s, x);
    LiveHas(s2, x);
    UntouchedAt(s1, s2, x);
    hide CutTail;
    InsideHeap(s, i, n);
    RequestAtLeast(n);
    hide Request;
    assert Live(s2)[x][..n] == Live(s)[x][..n];
  }

  lemma InsideHeap(s: Sm, i: nat, n: int)
    requires ChainInv(s) && i + 1 < |s.blocks| && s.blocks[i] + SM + n + SM <= s.blocks[i + 1]
    ensures n < WORD
  {
    Ordered(s.blocks, s.End(), i, i + 1);
    Ordered(s.blocks, s.End(), i + 1, i);
  }

  lemma UntouchedAt(s: Sm, s1: Sm, x: int)
    requires Untouched(s, s1, NULL) && x in s.used && x != s.End() && x != NULL
    ensures Kept(s, s1, x) && x in s.next && x in s1.next && s1.next[x] == s.next[x]
  {
  }

  lemma UntouchedThrough(s: Sm, s1: Sm, s2: Sm, x: int)
    requires ChainInv(s) && Untouched(s, s1, x) && Untouched(s1, s2, NULL) && s1.m == s.m && s1.used == s.used
    ensures Untouched(s, s2, x)
  {
    hide ChainInv, Kept;
    forall z | z in s.used && z != x && z != s.End() ensures Kept(s, s2, z) {
      UsedAt(s, z);
      assert Kept(s, s1, z) && Kept(s1, s2, z);
      KeptTwice(s, s1, s2, z);
    }
  }

  /** The in-place shrink does not lower lfree. It leaves lfree lowest iff the block after was free, or lfree was
      already below the new free block. */
  lemma ShrinkLowestIff(s: Sm, i: nat, n: int)
    requires HeapInv(s) && Lowest(s) && i + 1 < |s.blocks| && s.blocks[i] in s.used && n % 4 == 0 && n >= 0
    requires s.blocks[i] + SM + n + SM <= s.blocks[i + 1]
    ensures Lowest(Shrink(s, i, n)) <==> s.blocks[i + 1] !in s.used || s.lfree < s.blocks[i] + SM + n
  {
    hide ChainInv, NoAdjacentFree, Kept, Plug, Stamp, Untouched, AdjacentOnly;
    var b, x, z := s.blocks, s.blocks[i], s.blocks[i] + SM + n;
    ChainPlace(s, i);
    ShrinkInv(s, i, n);
    var s1 := CutTail(s, i, n);
    InsAt(b, i, z);
    PlacesAfterIns(b, i, z);
    hide Ins;
    PlugOnlyForward(s1, i + 1);
    EndUsed(s, i + 1);
    if b[i + 1] in s.used {
      assert Shrink(s, i, n) == s1 && z in s1.blocks && z !in s.used;
    } else {
      MergedLowest(s, s1, i, z);
    }
  }

  lemma PlacesAfterIns(b: seq<int>, i: nat, z: int)
    requires i + 1 < |b|
    ensures var r := Ins(b, i, z); |r| == |b| + 1 && r[i] == b[i] && r[i + 1] == z && r[i + 2] == b[i + 1]
  {
  }

  lemma PlugOnlyForward(s: Sm, i: nat)
    requires 0 < i && i + 1 < |s.blocks| && s.blocks[i - 1] in s.used
    ensures Plug(s, i) == Forward(s, i)
  {
  }

  lemma MergedLowest(s: Sm, s1: Sm, i: nat, z: int)
    requires CoreInv(s) && Lowest(s) && i + 2 < |s.blocks| && s.blocks[i] in s.used && s.blocks[i + 1] !in s.used
    requires s1.blocks == Ins(s.blocks, i, z) && s1.used == s.used && s1.lfree == s.lfree && s1.m == s.m
    requires s.blocks[i] < z < s.blocks[i + 1]
    ensures i + 3 < |s1.blocks| && Lowest(Merge(s1, i + 2))
  {
    hide ChainInv, LfreeOk, Ins, Del, IndexOf;
    var b := s.blocks;
    PlacesAfterIns(b, i, z);
    InsAt(b, i, z);
    var s2 := Merge(s1, i + 2);
    LowBound(s, i, i + 1);
    forall y | y in s2.blocks && y !in s.used ensures s2.lfree <= y {
      DelWithin(s1.blocks, i + 2, y);
      if y in b { LowBound(s, i, IndexOf(b, y)); }
    }
  }

  lemma DelWithin(b: seq<int>, i: nat, y: int)
    requires i < |b| && y in Del(b, i)
    ensures y in b
  {
  }

  /** With lfree lowest, no free block lies before it; and it is not the used block at i. */
  lemma LowBound(s: Sm, i: nat, k: nat)
    requires CoreInv(s) && Lowest(s) && i + 1 < |s.blocks| && s.blocks[i] in s.used && s.blocks[i + 1] !in s.used && k < |s.blocks|
    ensures s.blocks[k] !in s.used ==> s.lfree <= s.blocks[k]
    ensures s.lfree == s.blocks[i + 1] || s.lfree < s.blocks[i]
    ensures s.lfree == s.blocks[i + 1] && s.blocks[k] !in s.used ==> s.blocks[i + 1] <= s.blocks[k]
  {
    hide NextOk, PrevOk, HeadersOk, UsedOk, UsedSum, IndexOf;
    LfreeIn(s);
    var j := IndexOf(s.blocks, s.lfree);
    assert s.lfree <= s.blocks[i + 1];
    EndUsed(s, i + 1);
    Ordered(s.blocks, s.End(), j, i);
    Ordered(s.blocks, s.End(), j, i + 1);
    Ordered(s.blocks, s.End(), i, i + 1);
    LastIsEnd(s.blocks, s.End(), i + 1);
    LastIsEnd(s.blocks, s.End(), i);
    hide Tiled;
  }

  /** Another block, with the old contents as far as they fit. */
  ghost function Move(s: Sm, x: int, n: int): (Sm, int)
    requires HeapInv(s) && x in Live(s) && 0 < n < WORD && Align(n) == n
  {
    MoveReady(s, x, n);
    var (s1, p) := Malloc(s, n);
    if p == NULL then (s, NULL)
    else (Free(s1.(bytes := Copy(s1.bytes, p, x + SM, Keep(s, x, n))), x), p)
  }

  function Min(a: int, b: int): int { if a < b then a else b }

  ghost function Keep(s: Sm, x: int, n: int): int
    requires ChainInv(s) && x in Live(s)
  {
    Min(|Live(s)[x]|, n)
  }

  /** rt_realloc of an allocated block. */
  ghost function Realloc(s: Sm, x: int, newsize: int): (Sm, int)
    requires HeapInv(s) && x in Live(s) && 0 <= newsize < WORD
  {
    LiveHas(s, x);
    RequestCovers(newsize);
    UsedAt(s, x);
    var n, i, size := Align(newsize), IndexOf(s.blocks, x), s.next[x] - x - SM;
    if n > s.m then (s, NULL)
    else if n == 0 then (Free(s, x), NULL)
    else if size == n then (s, x + SM)
    else if n + SM + MIN < size then (Shrink(s, i, n), x + SM)
    else Move(s, x, n)
  }

  lemma MoveReady(s: Sm, x: int, n: int)
    requires HeapInv(s) && x in Live(s) && 0 < n < WORD && Align(n) == n
    ensures var (s1, p) := Malloc(s, n);
      p != NULL ==> 0 <= x && x + SM + Keep(s, x, n) <= |s1.bytes| && s1.m == s.m && x in s1.used && x != s1.End() &&
                    HeapInv(s1.(bytes := Copy(s1.bytes, p, x + SM, Keep(s, x, n))))
  {
    hide ChainInv, NoAdjacentFree, LfreeOk, Live, Request, Malloc;
    MallocSpec(s, n);
    var (s1, p) := Malloc(s, n);
    if p != NULL { CopyInv(s, s1, x, p - SM, n, Keep(s, x, n)); }
  }

  /** The new block's payload written from the old one's. */
  ghost predicate Copied(s: Sm, s1: Sm, s2: Sm, x: int, z: int, len: int)
    requires ChainInv(s) && ChainInv(s1)
  {
    && HeapInv(s2) && x in Live(s) && z in Live(s1) && z in Live(s2) && 0 <= len <= |Live(s)[x]| && len <= |Live(s2)[z]|
    && |Live(s2)[z]| == |Live(s1)[z]| && Live(s2)[z][..len] == Live(s)[x][..len] && Live(s2) == Live(s1)[z := Live(s2)[z]]
  }

  lemma CopyInv(s: Sm, s1: Sm, x: int, z: int, n: int, len: int)
    requires HeapInv(s) && HeapInv(s1) && Added(s, s1, z, n) && x in Live(s) && s1.m == s.m && 0 <= n <= WORD - 4
    requires len == Min(|Live(s)[x]|, n)
    ensures 0 <= x && x + SM + len <= |s1.bytes| && x in s1.used && x != s1.End()
    ensures Copied(s, s1, s1.(bytes := Copy(s1.bytes, z + SM, x + SM, len)), x, z, len)
  {
    hide ChainInv, NoAdjacentFree, LfreeOk, Live, Request, Copy, Untouched, Content;
    LiveHas(s, x);
    LiveHas(s1, x);
    LiveHas(s1, z);
    assert x in Live(s1) && Live(s1)[x] == Live(s)[x];
    var s2 := s1.(bytes := Copy(s1.bytes, z + SM, x + SM, len));
    CopyChain(s1, z, x + SM, len);
    CopyContent(s1, s2, x, z, len);
    CopyKeeps(s1, z, x + SM, len);
    LiveOthers(s1, s2, z);
  }

  lemma CopyContent(s: Sm, s1: Sm, x: int, z: int, len: int)
    requires ChainInv(s) && ChainInv(s1) && x in Live(s) && z in Live(s) && 0 <= len <= |Live(s)[x]| && len <= |Live(s)[z]|
    requires 0 <= x && x + SM + len <= |s.bytes| && s1 == s.(bytes := Copy(s.bytes, z + SM, x + SM, len))
    ensures z in Live(s1) && |Live(s1)[z]| == |Live(s)[z]| && Live(s1)[z][..len] == Live(s)[x][..len]
    ensures Live(s1)[z] == Content(s1, z)
  {
    hide ChainInv, Live, Copy, Content;
    LiveHas(s, x);
    LiveHas(s, z);
    LiveHas(s1, z);
    CopySlice(s.bytes, z + SM, x + SM, len);
    SliceStart(s1.bytes, z + SM, s1.next[z], len);
    SliceStart(s.bytes, x + SM, s.next[x], len);
  }

  lemma SliceStart(b: seq<Cell>, lo: int, hi: int, len: int)
    requires 0 <= lo <= hi <= |b| && 0 <= len <= hi - lo
    ensures b[lo..hi][..len] == b[lo..lo + len]
  {
  }

  lemma CopySlice(b: seq<Cell>, to: int, from: int, len: int)
    requires 0 <= from && 0 <= to && 0 <= len && from + len <= |b| && to + len <= |b|
    ensures Copy(b, to, from, len)[to..to + len] == b[from..from + len]
  {
    hide Copy;
  }

  lemma CopyChain(s: Sm, z: int, from: int, len: int)
    requires ChainInv(s) && z in Live(s) && 0 <= len <= |Live(s)[z]| && 0 <= from && from + len <= |s.bytes|
    ensures ChainInv(s.(bytes := Copy(s.bytes, z + SM, from, len)))
  {
    hide NextOk, PrevOk, UsedSum, Live, UsedOk, Tiled;
    LiveHas(s, z);
    var b1 := Copy(s.bytes, z + SM, from, len);
    forall w, k | w in s.blocks && w <= k < w + SM && 0 <= k < |b1| ensures b1[k] == Meta { HeaderOutside(s, z, w); }
  }

  /** No header lies in a block's payload. */
  lemma HeaderOutside(s: Sm, z: int, w: int)
    requires ChainInv(s) && z in s.used && z != s.End() && w in s.blocks
    ensures z in s.next && (w + SM <= z || w == z || s.next[z] <= w)
  {
    UsedAt(s, z);
    var i, j := IndexOf(s.blocks, z), IndexOf(s.blocks, w);
    hide NextOk, PrevOk, HeadersOk, UsedOk, IndexOf;
    Ordered(s.blocks, s.End(), i, j);
    Ordered(s.blocks, s.End(), j, i);
    Ordered(s.blocks, s.End(), i + 1, j);
  }

  lemma CopyKeeps(s: Sm, z: int, from: int, len: int)
    requires ChainInv(s) && z in Live(s) && 0 <= len <= |Live(s)[z]| && 0 <= from && from + len <= |s.bytes|
    ensures Untouched(s, s.(bytes := Copy(s.bytes, z + SM, from, len)), z)
  {
    hide ChainInv, Live;
    LiveHas(s, z);
    UsedAt(s, z);
    var s1 := s.(bytes := Copy(s.bytes, z + SM, from, len));
    forall w | w in s.used && w != z && w != s.End() ensures Kept(s, s1, w) {
      UsedAt(s, w);
      Outside(s, IndexOf(s.blocks, z), w);
    }
  }

  lemma MoveSpec(s: Sm, x: int, n: int)
    requires HeapInv(s) && x in Live(s) && 0 < n < WORD && Align(n) == n && |Live(s)[x]| != n && |Live(s)[x]| <= n + SM + MIN
    ensures HeapInv(Move(s, x, n).0) && (Lowest(s) ==> Lowest(Move(s, x, n).0))
    ensures Move(s, x, n).1 == NULL ==> Move(s, x, n).0 == s
    ensures Move(s, x, n).1 != NULL ==> Resized(s, Move(s, x, n).0, x, Move(s, x, n).1 - SM, n)
  {
    hide ChainInv, NoAdjacentFree, LfreeOk, Live, Request, Malloc, Free, Copy, Keep;
    MoveReady(s, x, n);
    MallocSpec(s, n);
    var (s1, p) := Malloc(s, n);
    if p != NULL {
      KeepIs(s, x, n);
      CopyInv(s, s1, x, p - SM, n, Keep(s, x, n));
      var s2 := s1.(bytes := Copy(s1.bytes, p, x + SM, Keep(s, x, n)));
      FreeSpec(s2, x);
      MoveLive(s, s1, s2, Free(s2, x), x, p - SM, n, Keep(s, x, n));
    }
  }

  lemma KeepIs(s: Sm, x: int, n: int)
    requires ChainInv(s) && x in Live(s)
    ensures Keep(s, x, n) == Min(|Live(s)[x]|, n)
  {
  }

  lemma MoveLive(s: Sm, s1: Sm, s2: Sm, s3: Sm, x: int, z: int, n: int, len: int)
    requires ChainInv(s) && ChainInv(s1) && ChainInv(s2) && ChainInv(s3) && x in Live(s) && len == Min(|Live(s)[x]|, n) && len >= 0
    requires z % 4 == 0 && z !in Live(s) && z in Live(s1) && Live(s1) == Live(s)[z := Live(s1)[z]] && n <= |Live(s1)[z]| < Request(n) + SM + MIN
    requires |Live(s)[x]| != n && |Live(s)[x]| <= n + SM + MIN
    requires z in Live(s2) && |Live(s2)[z]| == |Live(s1)[z]| && Live(s2)[z][..len] == Live(s)[x][..len] && Live(s2) == Live(s1)[z := Live(s2)[z]]
    requires Live(s3) == map w | w in Live(s2) && w != x :: Live(s2)[w]
    ensures Resized(s, s3, x, z, n)
  {
    hide ChainInv, Live;
    assert Live(s3) - {z} == Live(s) - {x};
  }

  /** Has the block become free, because the size asked for rounds to nothing? */
  predicate RoundsToZero(newsize: int) { Align(newsize) == 0 }

  /** rt_realloc keeps the heap in shape. Asked for nothing (or for so much that rounding wraps), it frees the block;
      if it fails nothing has changed; otherwise the caller has a region at least as large as the rounded size, the
      old bytes kept as far as they fit, whether the block stayed, shrank in place or moved; and no other live region
      was touched. */
  lemma ReallocSpec(s: Sm, x: int, newsize: int)
    requires HeapInv(s) && x in Live(s) && 0 <= newsize < WORD
    ensures HeapInv(Realloc(s, x, newsize).0)
    ensures RoundsToZero(newsize) ==> Realloc(s, x, newsize).1 == NULL
    ensures RoundsToZero(newsize) ==> Live(Realloc(s, x, newsize).0) == map z | z in Live(s) && z != x :: Live(s)[z]
    ensures !RoundsToZero(newsize) && Realloc(s, x, newsize).1 == NULL ==> Realloc(s, x, newsize).0 == s
    ensures !RoundsToZero(newsize) && Realloc(s, x, newsize).1 != NULL ==>
              Align(newsize) >= newsize && Resized(s, Realloc(s, x, newsize).0, x, Realloc(s, x, newsize).1 - SM, Align(newsize))
  {
    hide ChainInv, NoAdjacentFree, LfreeOk, Live, Lowest, Free, Shrink, Move, IndexOf;
    LiveHas(s, x);
    RequestCovers(newsize);
    UsedAt(s, x);
    var n, i, size := Align(newsize), IndexOf(s.blocks, x), s.next[x] - x - SM;
    if n != 0 { RoundsUp(newsize); }
    if n > s.m {
      LiveBounds(s);
    } else if n == 0 {
      FreeSpec(s, x);
    } else if size == n {
      Stays(s, x, n);
    } else if n + SM + MIN < size {
      ShrinkSpec(s, i, n);
    } else {
      MoveSpec(s, x, n);
    }
  }

  lemma RoundsUp(newsize: int)
    requires 0 <= newsize < WORD && Align(newsize) != 0
    ensures Align(newsize) >= newsize
  {
  }

  lemma LiveBounds(s: Sm)
    requires ChainInv(s)
    ensures s.m >= MIN
  {
  }

  lemma Stays(s: Sm, x: int, n: int)
    requires ChainInv(s) && x in Live(s) && 0 <= n == |Live(s)[x]| && n % 4 == 0 && n < WORD
    ensures Resized(s, s, x, x, n)
  {
    hide ChainInv, Live, Request;
    LiveHas(s, x);
    RequestAtLeast(n);
  }

  lemma RequestAtLeast(n: int)
    requires 0 <= n < WORD && n % 4 == 0
    ensures Request(n) >= n
  {
  }

  // ---------- runs ----------

  datatype SmStep =
    | MallocStep(size: int)
    | FreeStep(x: int)
    | ReallocStep(x: int, size: int)
    | WriteStep(x: int, at: int, byte: int)   // by the owner of block x, into its payload

  ghost predicate SmEnabled(s: Sm, step: SmStep)
    requires HeapInv(s)
  {
    match step
    case MallocStep(size) => 0 <= size < WORD
    case FreeStep(x) => x in Live(s)
    case ReallocStep(x, size) => x in Live(s) && 0 <= size < WORD
    case WriteStep(x, at, _) => x in Live(s) && 0 <= at < |Live(s)[x]|
  }

  ghost function Write(s: Sm, x: int, at: int, byte: int): Sm
    requires 0 <= x + SM + at < |s.bytes|
  {
    s.(bytes := s.bytes[x + SM + at := Data(byte)])
  }

  ghost function SmNext(s: Sm, step: SmStep): Sm
    requires HeapInv(s) && SmEnabled(s, step)
  {
    match step
    case MallocStep(size) => Malloc(s, size).0
    case FreeStep(x) => LiveHas(s, x); Free(s, x)
    case ReallocStep(x, size) => Realloc(s, x, size).0
    case WriteStep(x, at, byte) => LiveHas(s, x); Write(s, x, at, byte)
  }

  lemma WriteInv(s: Sm, x: int, at: int, byte: int)
    requires HeapInv(s) && x in Live(s) && 0 <= at < |Live(s)[x]|
    ensures 0 <= x + SM + at < |s.bytes| && HeapInv(Write(s, x, at, byte)) && (Lowest(s) ==> Lowest(Write(s, x, at, byte)))
    ensures Live(Write(s, x, at, byte)) == Live(s)[x := Live(s)[x][at := Data(byte)]]
  {
    hide NoAdjacentFree, Live, ChainInv, Content, LfreeOk;
    LiveHas(s, x);
    var s1 := Write(s, x, at, byte);
    WriteChain(s, x, at, byte);
    WriteKeeps(s, x, at, byte);
    LiveOthers(s, s1, x);
    LiveHas(s1, x);
    assert Live(s1)[x] == Live(s)[x][at := Data(byte)];
  }

  lemma WriteChain(s: Sm, x: int, at: int, byte: int)
    requires ChainInv(s) && x in Live(s) && 0 <= at < |Live(s)[x]| && 0 <= x + SM + at < |s.bytes|
    ensures ChainInv(Write(s, x, at, byte))
  {
    hide NextOk, PrevOk, UsedSum, Live, UsedOk, Tiled;
    LiveHas(s, x);
    var b1 := Write(s, x, at, byte).bytes;
    forall w, k | w in s.blocks && w <= k < w + SM && 0 <= k < |b1| ensures b1[k] == Meta { HeaderOutside(s, x, w); }
  }

  lemma WriteKeeps(s: Sm, x: int, at: int, byte: int)
    requires ChainInv(s) && x in Live(s) && 0 <= at < |Live(s)[x]| && 0 <= x + SM + at < |s.bytes|
    ensures Untouched(s, Write(s, x, at, byte), x)
  {
    hide ChainInv, Live;
    LiveHas(s, x);
    UsedAt(s, x);
    forall w | w in s.used && w != x && w != s.End() ensures Kept(s, Write(s, x, at, byte), w) {
      UsedAt(s, w);
      Outside(s, IndexOf(s.blocks, x), w);
    }
  }

  /** Does the step shrink a block in place? */
  ghost predicate Shrinks(s: Sm, step: SmStep)
    requires HeapInv(s) && SmEnabled(s, step)
  {
    step.ReallocStep? && 0 < Align(step.size) <= s.m && Align(step.size) + SM + MIN < |Live(s)[step.x]|
  }

  lemma ReallocLowest(s: Sm, x: int, size: int)
    requires HeapInv(s) && x in Live(s) && 0 <= size < WORD && Lowest(s) && !Shrinks(s, ReallocStep(x, size))
    ensures Lowest(Realloc(s, x, size).0)
  {
    hide ChainInv, NoAdjacentFree, LfreeOk, Live, Lowest, Free, Shrink, Move, IndexOf;
    LiveHas(s, x);
    RequestCovers(size);
    UsedAt(s, x);
    var n := Align(size);
    if n == 0 { FreeSpec(s, x); } else if n <= s.m && s.next[x] - x - SM != n { MoveSpec(s, x, n); }
  }

  /** May the step change what the owner of block w sees? */
  predicate Names(step: SmStep, w: int) { !step.MallocStep? && step.x == w }

  /** Every step keeps the heap in shape, and every live region it does not name. */
  lemma SmStepInv(s: Sm, step: SmStep)
    requires HeapInv(s) && SmEnabled(s, step)
    ensures HeapInv(SmNext(s, step))
    ensures Lowest(s) && !Shrinks(s, step) ==> Lowest(SmNext(s, step))
    ensures forall w :: w in Live(s) && !Names(step, w) ==> w in Live(SmNext(s, step)) && Live(SmNext(s, step))[w] == Live(s)[w]
  {
    hide ChainInv, NoAdjacentFree, LfreeOk, Live, Lowest, Malloc, Free, Realloc;
    match step {
      case MallocStep(size) => MallocSpec(s, size);
      case FreeStep(x) => LiveHas(s, x); FreeSpec(s, x);
      case ReallocStep(x, size) =>
        ReallocSpec(s, x, size);
        ReallocFrames(s, x, size);
        if Lowest(s) && !Shrinks(s, step) { ReallocLowest(s, x, size); }
      case WriteStep(x, at, byte) => WriteInv(s, x, at, byte);
    }
  }

  lemma ReallocFrames(s: Sm, x: int, size: int)
    requires HeapInv(s) && x in Live(s) && 0 <= size < WORD
    ensures HeapInv(Realloc(s, x, size).0)
    ensures var s1 := Realloc(s, x, size).0; forall w :: w in Live(s) && w != x ==> w in Live(s1) && Live(s1)[w] == Live(s)[w]
  {
    hide ChainInv, NoAdjacentFree, LfreeOk, Live, Realloc;
    ReallocSpec(s, x, size);
    var (s1, p) := Realloc(s, x, size);
    if !RoundsToZero(size) && p != NULL {
      hide RoundsToZero;
      forall w | w in Live(s) && w != x ensures w in Live(s1) && Live(s1)[w] == Live(s)[w] {
        assert w in Live(s) - {x} && (Live(s) - {x})[w] == Live(s)[w];
        assert w in Live(s1) - {p - SM};
      }
    }
  }

  /** A step from s to s1. The functions that describe steps are defined where the invariant holds; that it holds in
      every state of a run is shown, not assumed. */
  ghost predicate SmSteps(s: Sm, step: SmStep, s1: Sm) {
    HeapInv(s) ==> SmEnabled(s, step) && s1 == SmNext(s, step)
  }

  ghost predicate SmRun(ss: seq<Sm>, steps: seq<SmStep>) {
    && |ss| == |steps| + 1
    && forall i :: 0 <= i < |steps| ==> SmSteps(ss[i], steps[i], ss[i + 1])
  }

  lemma {:induction false} SmRunInv(ss: seq<Sm>, steps: seq<SmStep>, i: nat)
    requires SmRun(ss, steps) && HeapInv(ss[0]) && i < |ss|
    ensures HeapInv(ss[i]) && (i < |steps| ==> SmEnabled(ss[i], steps[i]))
  {
    hide HeapInv, SmEnabled, SmNext;
    if i > 0 {
      SmRunInv(ss, steps, i - 1);
      SmStepInv(ss[i - 1], steps[i - 1]);
      assert SmSteps(ss[i - 1], steps[i - 1], ss[i]);
    }
    if i < |steps| { assert SmSteps(ss[i], steps[i], ss[i + 1]); }
  }

  /** The heap as rt_system_heap_init leaves m bytes between the two headers. */
  function Init(m: int, bytes: seq<Cell>): Sm {
    Sm(m, map[0 := m + SM, m + SM := m + SM], map[0 := 0, m + SM := m + SM], {m + SM}, 0, 0, 0,
       Stamp(Stamp(bytes, 0, SM), m + SM, SM), [0, m + SM])
  }

  lemma InitInv(m: int, bytes: seq<Cell>)
    requires MIN <= m < WORD && m % 4 == 0 && |bytes| == m + 2 * SM
    ensures HeapInv(Init(m, bytes)) && Lowest(Init(m, bytes))
  {
    var s := Init(m, bytes);
    assert s.blocks[1..] == [m + SM];
  }

  /** The step does not shrink a block in place. */
  ghost predicate NoShrink(s: Sm, step: SmStep) {
    HeapInv(s) && SmEnabled(s, step) ==> !Shrinks(s, step)
  }

  /** In every state of every run from rt_system_heap_init the heap is in shape: the chain tiles it, prev inverts
      next, no two neighbours are free, used_mem is exact. As long as no block has been shrunk in place, lfree is
      the lowest free block. */
  lemma {:induction false} SmallMemRuns(ss: seq<Sm>, steps: seq<SmStep>, m: int, bytes: seq<Cell>, i: nat)
    requires MIN <= m < WORD && m % 4 == 0 && |bytes| == m + 2 * SM
    requires SmRun(ss, steps) && ss[0] == Init(m, bytes) && i < |ss|
    ensures HeapInv(ss[i])
    ensures (forall j :: 0 <= j < i ==> NoShrink(ss[j], steps[j])) ==> Lowest(ss[i])
  {
    hide ChainInv, NoAdjacentFree, LfreeOk, Live, Lowest, SmNext, SmEnabled, Shrinks, Init;
    InitInv(m, bytes);
    if i > 0 {
      SmallMemRuns(ss, steps, m, bytes, i - 1);
      assert SmSteps(ss[i - 1], steps[i - 1], ss[i]);
      SmStepInv(ss[i - 1], steps[i - 1]);
    }
  }

  /** A live region keeps its bytes over any run in which its owner is not named. */
  lemma {:induction false} RegionPersists(ss: seq<Sm>, steps: seq<SmStep>, w: int, i: nat, j: nat)
    requires SmRun(ss, steps) && HeapInv(ss[0]) && i <= j < |ss| && HeapInv(ss[i]) && w in Live(ss[i])
    requires forall k :: i <= k < j ==> !Names(steps[k], w)
    ensures HeapInv(ss[j]) && w in Live(ss[j]) && Live(ss[j])[w] == Live(ss[i])[w]
    decreases j
  {
    hide HeapInv, Live, SmNext, SmEnabled;
    if i < j {
      RegionPersists(ss, steps, w, i, j - 1);
      SmRunInv(ss, steps, j - 1);
      assert SmSteps(ss[j - 1], steps[j - 1], ss[j]);
      SmStepInv(ss[j - 1], steps[j - 1]);
    }
  }

  // ---------- max_mem ----------

  function Max(a: int, b: int): int { if a < b then b else a }

  /** Does rt_realloc look for another block? */
  ghost predicate Moves(s: Sm, x: int, size: int)
    requires HeapInv(s) && x in Live(s)
  {
    var n := Align(size);
    0 < n <= s.m && n != |Live(s)[x]| && n + SM + MIN >= |Live(s)[x]|
  }

  /** The most that is in use at any point of a step: when a block moves, old and new are both in use. */
  ghost function Peak(s: Sm, step: SmStep): int
    requires HeapInv(s) && SmEnabled(s, step)
  {
    var after := SmNext(s, step).usedMem;
    if step.ReallocStep? && Moves(s, step.x, step.size) then Max(after, Malloc(s, Align(step.size)).0.usedMem) else after
  }

  lemma MallocWater(s: Sm, size: int)
    requires HeapInv(s) && 0 <= size < WORD
    ensures Malloc(s, size).0.maxMem == Max(s.maxMem, Malloc(s, size).0.usedMem)
  {
    hide ChainInv, LfreeOk, NoAdjacentFree, Advance, Search, Ins, Stamp, Request;
  }

  lemma FreeWater(s: Sm, x: int)
    requires ChainInv(s) && x in s.used && x != s.End()
    ensures Free(s, x).maxMem == s.maxMem
  {
    hide ChainInv, IndexOf, Del;
  }

  lemma ShrinkWater(s: Sm, i: nat, n: int)
    requires i + 1 < |s.blocks|
    ensures Shrink(s, i, n).maxMem == s.maxMem
  {
    hide Del, Ins;
  }

  lemma MoveWater(s: Sm, x: int, n: int)
    requires HeapInv(s) && x in Live(s) && 0 < n < WORD && Align(n) == n
    ensures Move(s, x, n).0.maxMem == Malloc(s, n).0.maxMem
  {
    hide ChainInv, NoAdjacentFree, LfreeOk, Live, Request, Malloc, Free, Copy, Keep;
    MoveReady(s, x, n);
    MallocSpec(s, n);
    var (s1, p) := Malloc(s, n);
    if p != NULL { FreeWater(s1.(bytes := Copy(s1.bytes, p, x + SM, Keep(s, x, n))), x); }
  }

  /** max_mem moves exactly with the most that is in use. */
  lemma StepWater(s: Sm, step: SmStep)
    requires HeapInv(s) && SmEnabled(s, step)
    ensures SmNext(s, step).maxMem == Max(s.maxMem, Peak(s, step))
  {
    hide ChainInv, LfreeOk, NoAdjacentFree, Live, Malloc, Free, Realloc;
    SmStepInv(s, step);
    match step {
      case MallocStep(size) => MallocWater(s, size);
      case FreeStep(x) => LiveHas(s, x); FreeWater(s, x);
      case ReallocStep(x, size) => ReallocWater(s, x, size);
      case WriteStep(x, at, byte) => WriteInv(s, x, at, byte);
    }
  }

  lemma ReallocWater(s: Sm, x: int, size: int)
    requires HeapInv(s) && x in Live(s) && 0 <= size < WORD
    ensures Realloc(s, x, size).0.maxMem == Max(s.maxMem, Peak(s, ReallocStep(x, size)))
  {
    hide ChainInv, NoAdjacentFree, LfreeOk, Live, Malloc, Free, Shrink, Move, IndexOf, Align;
    ReallocSpec(s, x, size);
    LiveHas(s, x);
    RequestCovers(size);
    UsedAt(s, x);
    var n, i, have := Align(size), IndexOf(s.blocks, x), s.next[x] - x - SM;
    if n == 0 { FreeWater(s, x); }
    else if n <= s.m && n != have && n + SM + MIN < have { ShrinkWater(s, i, n); }
    else if n <= s.m && n != have { MoveWater(s, x, n); MallocWater(s, n); }
  }

  ghost function HighWater(ss: seq<Sm>, steps: seq<SmStep>, i: nat): int
    requires SmRun(ss, steps) && HeapInv(ss[0]) && i < |ss|
  {
    if i == 0 then ss[0].usedMem
    else
      SmRunInv(ss, steps, i - 1);
      Max(HighWater(ss, steps, i - 1), Peak(ss[i - 1], steps[i - 1]))
  }

  /** After any run, max_mem is the high-water mark of used_mem. */
  lemma {:induction false} MaxMemIsHighWater(ss: seq<Sm>, steps: seq<SmStep>, m: int, bytes: seq<Cell>, i: nat)
    requires MIN <= m < WORD && m % 4 == 0 && |bytes| == m + 2 * SM
    requires SmRun(ss, steps) && ss[0] == Init(m, bytes) && i < |ss|
    ensures HeapInv(ss[0]) && ss[i].maxMem == HighWater(ss, steps, i)
  {
    hide CoreInv, NoAdjacentFree, Live, SmNext, SmEnabled, Peak;
    InitInv(m, bytes);
    if i > 0 {
      SmRunInv(ss, steps, i - 1);
      assert SmSteps(ss[i - 1], steps[i - 1], ss[i]);
      MaxMemIsHighWater(ss, steps, m, bytes, i - 1);
      StepWater(ss[i - 1], steps[i - 1]);
    }
  }

  // ---------- where the cache goes wrong ----------

  /** A heap of 48 bytes, all of it allocated, the block then shrunk to 4 bytes: the 32 bytes that are free again
      lie below lfree, and rt_malloc does not find them. */
  lemma ShrinkHidesSpace(bytes: seq<Cell>)
    requires |bytes| == 72
    ensures var s := Init(48, bytes); HeapInv(s) && HeapInv(Malloc(s, 44).0) && Malloc(s, 44).1 == 12
    ensures var s := Malloc(Init(48, bytes), 44).0; 0 in Live(s)
    ensures var s := Realloc(Malloc(Init(48, bytes), 44).0, 0, 4).0;
      && HeapInv(s) && s.blocks == [0, 16, 60] && s.used == {0, 60} && s.lfree == 60
      && s.blocks[2] - (s.blocks[1] + SM) == 32 && Malloc(s, 12).1 == NULL
  {
    var s := Init(48, bytes);
    InitInv(48, bytes);
    MallocSpec(s, 44);
    WholeHeapTaken(s);
    var s1 := Malloc(s, 44).0;
    LiveHas(s1, 0);
    ReallocSpec(s1, 0, 4);
    TakenHeapShrunk(s1);
    hide HeapInv;
  }

  lemma WholeHeapTaken(s: Sm)
    requires CoreInv(s) && s.m == 48 && s.blocks == [0, 60] && s.used == {60} && s.lfree == 0
    ensures Malloc(s, 44).1 == 12
    ensures var s1 := Malloc(s, 44).0; s1.blocks == [0, 60] && s1.used == {0, 60} && s1.lfree == 60 && s1.m == 48
  {
    assert IndexOf(s.blocks, s.lfree) == 0;
    assert Search(s.blocks, s.used, 4, 44, 0) == 0;
    assert Advance(s.blocks, {60} + {0}, 1) == 60;
    assert Advance(s.blocks, {60} + {0}, 0) == 60;
    hide ChainInv;
  }

  lemma TakenHeapShrunk(s: Sm)
    requires HeapInv(s) && s.m == 48 && s.blocks == [0, 60] && s.used == {0, 60} && s.lfree == 60 && 0 in Live(s)
    ensures var s1 := Realloc(s, 0, 4).0;
      s1.blocks == [0, 16, 60] && s1.used == {0, 60} && s1.lfree == 60 && s1.m == 48 && (CoreInv(s1) ==> Malloc(s1, 12).1 == NULL)
  {
    UsedAt(s, 0);
    assert s.blocks[..1] + [16] + s.blocks[1..] == [0, 16, 60];
    var s1 := CutTail(s, 0, 4);
    assert s1.blocks == [0, 16, 60];
    hide ChainInv, NoAdjacentFree;
    assert Plug(s1, 1) == s1;
  }
}
