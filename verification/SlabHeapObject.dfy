/** rt_malloc, rt_realloc and rt_free of rt-thread/src/slab.c, changing zones, lists and the page table in place. */
module SlabHeapObject {
  import opened Seqs
  import opened SlabPages
  import opened SlabZones
  import opened SlabMemory
  import S = SlabZones

  /** The bytes of the blocks. */
  class Ram {
    var m: Memory

    constructor ()
    {
      m := _ => 0;
    }

    /** rt_memcpy */
    method MemCopy(to: int, from: int, len: nat)
      requires to + len <= from || from + len <= to
      modifies this
      ensures CopiedOver(old(m), m, to, from, len)
    {
      hide CopiedOver;
      ghost var orig := m;
      NothingCopied(m, to, from);
      var i := 0;
      while i < len
        invariant i <= len && CopiedOver(orig, m, to, from, i)
      {
        var before := m;
        m := x => if x == to + i then before(from + i) else before(x);
        OneMore(orig, before, m, to, from, i);
        i := i + 1;
      }
    }
  }

  lemma NothingCopied(m: Memory, to: int, from: int)
    ensures CopiedOver(m, m, to, from, 0)
  {
  }

  lemma OneMore(orig: Memory, m: Memory, m1: Memory, to: int, from: int, i: nat)
    requires CopiedOver(orig, m, to, from, i) && (to + i < from || from + i < to)
    requires forall x :: m1(x) == if x == to + i then m(from + i) else m(x)
    ensures CopiedOver(orig, m1, to, from, i + 1)
  {
    assert Byte(m, from, i) == Byte(orig, from, i);
    forall a, j | !(to <= a + j < to + i + 1) ensures Byte(m1, a, j) == Byte(orig, a, j) { assert Byte(m, a, j) == Byte(orig, a, j); }
    forall j | 0 <= j < i + 1 ensures Byte(m1, to, j) == Byte(orig, from, j) {
      if j < i { assert Byte(m, to, j) == Byte(orig, from, j); }
    }
  }

  /** The loop of rt_system_heap_init over 32, 64 and 128 KB: it stops at the first size whose double is no less than a
      1024th of the heap. */
  method ChooseZoneSize(limsize: int) returns (zoneSize: int)
    ensures zoneSize in {0x8000, 0x10000, 0x20000}
    ensures zoneSize == 0x20000 || 2 * zoneSize >= limsize / 1024
    ensures zoneSize == 0x8000 || zoneSize < limsize / 1024
    ensures zoneSize == ZonePagesFor(limsize) * PAGE
  {
    zoneSize := 0x8000;
    while zoneSize < 0x20000 && zoneSize * 2 < limsize / 1024
      invariant zoneSize in {0x8000, 0x10000, 0x20000} && (zoneSize == 0x8000 || zoneSize < limsize / 1024)
      decreases 0x20000 - zoneSize
    {
      zoneSize := zoneSize * 2;
    }
  }

  class SlabHeap {
    const zonePages: nat
    const heap: PageHeap
    const ram: Ram
    var zones: map<nat, Zone>         // the slab_zone headers of the zones in service
    var zoneArray: seq<seq<nat>>
    var freeZones: seq<nat>
    var freeCnt: int
    var usage: map<nat, Usage>        // memusage
    ghost var held: map<nat, nat>
    ghost var large: map<nat, nat>

    ghost function Abs(): Slab
      reads this, heap
    {
      Slab(zonePages, heap.runs, zones, zoneArray, freeZones, freeCnt, usage, held, large)
    }

    ghost predicate Valid()
      reads this, heap
    {
      heap.Linked() && SlabInv(Abs())
    }

    /** rt_system_heap_init */
    constructor (npages: nat)
      requires npages > 0
      ensures Valid() && fresh(heap) && fresh(ram) && Abs() == Init(npages)
    {
      hide SlabInv, Alloc, SlabPages.Free, Range, Canonical, ZonePagesFor, NoZones;
      var table := RoundUp(npages * 4, PAGE) / PAGE;
      hide RoundUp;
      var zoneSize := ChooseZoneSize(npages * PAGE);
      zonePages := zoneSize / PAGE;
      var pages := new PageHeap(0, npages);
      var memusage := pages.PageAlloc(table);
      heap := pages;
      ram := new Ram();
      zones, zoneArray, freeZones, freeCnt, usage := map[], NoZones(), [], 0, map[];
      held := if memusage == NULL then map[] else map[memusage as nat := table];
      large := map[];
      new;
      InitInv(npages);
    }

    /** The address of a block, or RT_NULL. */
    static ghost predicate Points(s: Slab, r: Result, p: int) {
      match r
      case Null => p == NULL
      case Ptr(h) => IsLive(s, h) && p == Address(s, h)
    }

    method Malloc(size: int) returns (p: int, ghost r: Result)
      requires Valid() && 0 <= size < WORD
      modifies this, heap
      ensures Valid() && (Abs(), r) == S.Malloc(old(Abs()), size) && Points(Abs(), r, p) && (p == NULL <==> r.Null?)
    {
      hide SlabInv, MallocLarge, MallocSmall, IsLive, Address, Allocated;
      MallocSpec(Abs(), size);
      if size == 0 { return NULL, Null; }
      var zoneSize := zonePages * PAGE;
      var zoneLimit := zoneSize / 4;
      if zoneLimit > LIMIT { zoneLimit := LIMIT; }
      if size >= zoneLimit {
        p, r := MallocPages(size);
      } else {
        p, r := MallocChunk(size);
      }
      if r.Ptr? { LiveInHeld(Abs(), r.h); }
    }

    /** Pages straight from the page allocator. */
    method MallocPages(size: int) returns (p: int, ghost r: Result)
      requires Valid() && 0 < size < WORD
      modifies this, heap
      ensures heap.Linked() && (Abs(), r) == MallocLarge(old(Abs()), size) && Points(Abs(), r, p)
    {
      hide SlabInv;
      var bytes := (size + PAGE - 1) % WORD / PAGE * PAGE;
      var n: nat := bytes / PAGE;
      assert n == LargePages(size);
      hide LargePages;
      var b := heap.PageAlloc(n);
      if b == NULL { return NULL, Null; }
      GotPage(old(heap.runs), n);
      usage := usage[b := Large(n)];
      held, large := held[b := n], large[b := n];
      p := b * PAGE;
      r := Ptr(Big(b));
    }

    static lemma GotPage(runs: seq<Run>, n: nat)
      ensures Alloc(runs, n).Got? ==> Alloc(runs, n).page >= 0
    {
    }

    method MallocChunk(size: int) returns (p: int, ghost r: Result)
      requires Valid() && 0 < size < Abs().ZoneLimit()
      modifies this, heap
      ensures heap.Linked() && (Abs(), r) == MallocSmall(old(Abs()), size) && Points(Abs(), r, p)
    {
      hide SlabInv, TakeChunk, NewZone, GetZone, ZoneIndex, SizeOf;
      ghost var s := Abs();
      InvZonePages(s);
      ClassFits(s, size);
      ZoneIndexIsTightest(size);
      var (zi, bytes) := ZoneIndex(size);
      if zoneArray[zi] != [] {
        ListedZone(s, zi);
        TakeUindex(s, zi);
        ghost var h;
        p, h := TakeFromZone(zi);
        r := Ptr(h);
        return;
      }
      GetZoneInv(s);
      SameArray(s);
      FreeCounts(s);
      var page := GetPages();
      if page == NULL { return NULL, Null; }
      ghost var h;
      p, h := SetUpZone(page, zi, bytes);
      r := Ptr(h);
    }

    static lemma FreeCounts(s: Slab)
      requires SlabInv(s)
      ensures s.freeCnt == |s.freeZones| && s.zonePages > 0
    {
    }

    /** A chunk of the first zone in list zi. */
    method TakeFromZone(zi: nat) returns (p: int, ghost h: Handle)
      requires heap.Linked() && zi < |zoneArray| && zoneArray[zi] != [] && zoneArray[zi][0] in zones
      requires var a := zoneArray[zi][0]; ZoneOk(zones[a], a, zonePages * PAGE) && zones[a].nfree > 0
      requires var z := zones[zoneArray[zi][0]]; z.uindex + 1 == z.nmax ==> z.free != []
      modifies this
      ensures heap.Linked() && (Abs(), h) == TakeChunk(old(Abs()), zi) && IsLive(Abs(), h) && p == Address(Abs(), h)
    {
      ghost var s := Abs();
      hide ZoneOk, IsLive, TakeChunk, Address;
      var a := zoneArray[zi][0];
      zones := zones[a := zones[a].(nfree := zones[a].nfree - 1)];
      if zones[a].nfree == 0 { zoneArray := zoneArray[zi := zoneArray[zi][1..]]; }
      TakeIs(s, zi);
      var k := NextChunk(a);
      p := zones[a].base + k * zones[a].size;
      h := Part(a, k);
      assert zones == s.zones[a := zones[a]];
    }

    /** What the two steps below amount to. */
    static lemma TakeIs(s: Slab, zi: nat)
      requires zi < |s.zoneArray| && s.zoneArray[zi] != [] && s.zoneArray[zi][0] in s.zones
      requires var z := s.zones[s.zoneArray[zi][0]];
        ZoneOk(z, s.zoneArray[zi][0], s.ZoneSize()) && z.nfree > 0 && (z.uindex + 1 == z.nmax ==> z.free != [])
      ensures var a := s.zoneArray[zi][0]; var z := s.zones[a].(nfree := s.zones[a].nfree - 1);
        var k: nat := if z.uindex + 1 != z.nmax then z.uindex + 1 else z.free[0];
        var z1 := if z.uindex + 1 != z.nmax then z.(uindex := k) else z.(free := z.free[1..]);
        var lists := if z.nfree == 0 then s.zoneArray[zi := s.zoneArray[zi][1..]] else s.zoneArray;
        && z.uindex >= 0
        && TakeChunk(s, zi) == (s.(zones := s.zones[a := z1], zoneArray := lists), Part(a, k))
        && IsLive(TakeChunk(s, zi).0, Part(a, k)) && Address(TakeChunk(s, zi).0, Part(a, k)) == z1.base + k * z1.size
    {
      TakeChunkLive(s, zi, Part(s.zoneArray[zi][0], 0));
      hide ZoneOk;
    }

    /** Never used space first, then the free list. */
    method NextChunk(a: nat) returns (k: nat)
      requires a in zones && zones[a].uindex >= 0 && (zones[a].uindex + 1 == zones[a].nmax ==> zones[a].free != [])
      modifies `zones
      ensures var z := old(zones)[a];
        if z.uindex + 1 != z.nmax then k == z.uindex + 1 && zones == old(zones)[a := z.(uindex := k)]
        else k == z.free[0] && zones == old(zones)[a := z.(free := z.free[1..])]
    {
      if zones[a].uindex + 1 != zones[a].nmax {
        zones := zones[a := zones[a].(uindex := zones[a].uindex + 1)];
        k := zones[a].uindex;
      } else {
        k := zones[a].free[0];
        zones := zones[a := zones[a].(free := zones[a].free[1..])];
      }
    }

    /** A free zone, or pages for a new one. */
    method GetPages() returns (page: int)
      requires heap.Linked() && freeCnt == |freeZones| && zonePages > 0
      modifies this, heap
      ensures heap.Linked()
      ensures match GetZone(old(Abs()))
              case NoPages => page == NULL && Abs() == old(Abs())
              case At(s, a) => page == a && Abs() == s
    {
      hide Range, Canonical, Chain, Alloc, MarkZone;
      if freeZones != [] {
        page := freeZones[0];
        freeZones := freeZones[1..];
        freeCnt := freeCnt - 1;
        return;
      }
      page := heap.PageAlloc(zonePages);
      if page == NULL { return; }
      GotPage(old(heap.runs), zonePages);
      MarkPages(page);
      held := held[page := zonePages];
    }

    /** Page off of a zone says off. */
    method MarkPages(page: nat)
      modifies `usage
      ensures usage == MarkZone(old(usage), page, zonePages)
    {
      var off: nat := 0;
      while off < zonePages
        invariant off <= zonePages && usage == MarkZone(old(usage), page, off)
      {
        usage := usage[page + off := Small(off)];
        off := off + 1;
      }
    }

    /** The pages of a zone that is given up. */
    method UnmarkPages(page: nat)
      modifies `usage
      ensures usage == UnmarkZone(old(usage), page, zonePages)
    {
      var i: nat := 0;
      while i < zonePages
        invariant i <= zonePages && usage == UnmarkZone(old(usage), page, i)
      {
        usage := usage[page + i := Unused];
        i := i + 1;
      }
    }

    method SetUpZone(page: nat, zi: nat, bytes: int) returns (p: int, ghost h: Handle)
      requires heap.Linked() && zi < |zoneArray| && zi < NZONES && bytes == SizeOf(zi) && page !in zones
      modifies this
      ensures heap.Linked() && (Abs(), h) == NewZone(old(Abs()), page, zi) && IsLive(Abs(), h) && p == Address(Abs(), h)
    {
      NewZoneLive(Abs(), page, zi, Part(page, 0));
      SizeRange(zi);
      hide SizeOf;
      var off := if PowerOfTwo(bytes) then RoundUp(HEADER, bytes) else RoundUp(HEADER, 8);
      hide PowerOfTwo, RoundUp;
      var nmax := (zonePages * PAGE - off) / bytes;
      zones := zones[page := Zone(zi, bytes, nmax, nmax - 1, 0, page * PAGE + off, [])];
      p := zones[page].base + zones[page].uindex * bytes;
      zoneArray := zoneArray[zi := [page] + zoneArray[zi]];
      h := Part(page, 0);
    }

    /** rt_free of the block at p, which is h. */
    method Free(p: int, ghost h: Handle)
      requires Valid() && IsLive(Abs(), h) && p == Address(Abs(), h)
      modifies this, heap
      ensures Freeable(old(Abs()), p) && Abs() == S.Free(old(Abs()), p) && Valid()
    {
      hide SlabInv, FreeSmall, FreeLarge;
      ghost var s := Abs();
      FreeBlockSpec(s, h);
      LookupFinds(s, h);
      LiveZone(s, h);
      FreeFollows(s, p, h);
      hide S.Free, Freeable;
      var page: nat := p / PAGE;
      match usage[page] {
        case Large(n) =>
          ReleasePages(page, n);
        case Small(off) =>
          var z := zones[page - off];
          ReleaseChunk(page - off, (p - z.base) / z.size);
      }
    }

    /** Whichever block the address is taken for, the page table leads to the same action. */
    static lemma FreeFollows(s: Slab, p: int, h: Handle)
      requires SlabInv(s) && IsLive(s, h) && p == Address(s, h)
      ensures Freeable(s, p) && p >= 0 && Found(s, h, p)
      ensures var page: nat := p / PAGE;
        match s.usage[page]
        case Unused => false
        case Large(n) => h == Big(page) && S.Free(s, p) == FreeLarge(s, page)
        case Small(off) =>
          h.Part? && h.a == page - off && 0 <= s.zones[page - off].index < |s.zoneArray|
          && S.Free(s, p) == FreeSmall(s, page - off, h.k)
    {
      hide SlabInv, FreeSmall, FreeLarge, IsLive;
      LookupFinds(s, h);
      LiveZone(s, h);
      var g :| IsLive(s, g) && Address(s, g) == p;
      LookupFinds(s, g);
    }

    method ReleasePages(a: nat, n: nat)
      requires Valid() && a in large && large[a] == n
      modifies this, heap
      ensures heap.Linked() && Abs() == FreeLarge(old(Abs()), a)
    {
      hide ArrayOk, ZonesOk, FreeZonesOk, Canonical, Range;
      HeldLess(heap.runs, held, a);
      LargePositive(Abs(), a);
      usage := usage[a := Large(0)];
      held, large := held - {a}, large - {a};
      heap.PageFree(a, n);
    }

    /** Chunk k of zone a goes back to its zone. */
    method ReleaseChunk(a: nat, k: nat)
      requires Valid() && IsLive(Abs(), Part(a, k)) && 0 <= zones[a].index < |zoneArray|
      modifies this, heap
      ensures heap.Linked() && Abs() == FreeSmall(old(Abs()), a, k)
    {
      hide SlabInv, Retire, Settle;
      ghost var s := Abs();
      FreeChunkInv(s, a, k);
      InList(FreeChunk(s, a, k), a);
      zones := zones[a := zones[a].(free := [k] + zones[a].free)];
      var before := zones[a].nfree;
      zones := zones[a := zones[a].(nfree := before + 1)];
      var i := zones[a].index;
      if before == 0 { zoneArray := zoneArray[i := [a] + zoneArray[i]]; }
      assert Abs() == FreeChunk(s, a, k);
      hide FreeChunk;
      if zones[a].nfree == zones[a].nmax && (|zoneArray[i]| > 1 || zoneArray[i][0] != a) {
        UnlinkZone(a);
        SettleNot(Abs());
        if freeCnt > THRESH { ReleaseZone(); }
      }
    }

    static lemma SettleNot(s: Slab)
      ensures s.freeCnt <= THRESH ==> Settle(s) == s
    {
    }

    static lemma InList(s: Slab, a: nat)
      requires SlabInv(s) && a in s.zones && s.zones[a].nfree > 0
      ensures 0 <= s.zones[a].index < |s.zoneArray| && a in s.zoneArray[s.zones[a].index]
    {
      hide HeldOk, UsageOk, FreeZonesOk;
      assert ZoneOk(s.zones[a], a, s.ZoneSize());
    }

    /** From its list to the free zones. */
    method UnlinkZone(a: nat)
      requires Valid() && a in zones && zones[a].nfree == zones[a].nmax
      modifies this
      ensures heap.Linked() && a in old(zones) && 0 <= old(zones)[a].index < |old(zoneArray)|
      ensures Abs() == Retire(old(Abs()), a) && Reclaimable(Abs())
    {
      hide SlabInv, Reclaimable;
      ghost var s := Abs();
      EntirelyFree(s, a);
      InList(s, a);
      RetireReclaimable(s, a);
      var i := zones[a].index;
      var n := 0;
      while zoneArray[i][n] != a
        invariant 0 <= n < |zoneArray[i]| && forall j :: 0 <= j < n ==> zoneArray[i][j] != a
        decreases |zoneArray[i]| - n
      {
        n := n + 1;
      }
      NoDupZones(s, i);
      WithoutAt(zoneArray[i], n);
      hide Without;
      zoneArray := zoneArray[i := zoneArray[i][..n] + zoneArray[i][n + 1..]];
      zones := zones - {a};
      freeZones := [a] + freeZones;
      freeCnt := freeCnt + 1;
    }

    static lemma EntirelyFree(s: Slab, a: nat)
      requires SlabInv(s) && a in s.zones && s.zones[a].nfree == s.zones[a].nmax
      ensures s.zones[a].nfree > 0
    {
      hide HeldOk, UsageOk, FreeZonesOk, ArrayOk;
      assert ZoneOk(s.zones[a], a, s.ZoneSize());
    }

    static lemma NoDupZones(s: Slab, i: nat)
      requires SlabInv(s) && i < |s.zoneArray|
      ensures NoDup(s.zoneArray[i])
    {
      hide HeldOk, UsageOk, FreeZonesOk, ZonesOk;
    }

    /** The first free zone, if there is one, has pages that may go back to the page allocator. */
    static ghost predicate Reclaimable(s: Slab) {
      && s.freeCnt == |s.freeZones| && s.zonePages > 0
      && (s.freeZones != [] ==> Range(s.freeZones[0], s.zonePages) !! Pages(s.pages))
    }

    static lemma RetireReclaimable(s: Slab, a: nat)
      requires SlabInv(s) && a in s.zones && 0 <= s.zones[a].index < |s.zoneArray|
      ensures Reclaimable(Retire(s, a))
    {
      hide ArrayOk, ZonesOk, Canonical, Range, Without;
      assert IsZone(s, a);
    }

    /** The first free zone goes back to the page allocator. */
    method ReleaseZone()
      requires heap.Linked() && Reclaimable(Abs()) && freeCnt > THRESH
      modifies this, heap
      ensures heap.Linked() && Abs() == Settle(old(Abs()))
    {
      hide Range, Pages, SlabPages.Free, Canonical, Chain, MarkZone, UnmarkZone;
      var z := freeZones[0];
      freeZones := freeZones[1..];
      freeCnt := freeCnt - 1;
      UnmarkPages(z);
      heap.PageFree(z, zonePages);
      held := held - {z};
    }

    /** rt_realloc of the block at p, which is h. */
    method Realloc(p: int, size: int, ghost h: Handle) returns (np: int, ghost r: Result)
      requires Valid() && IsLive(Abs(), h) && p == Address(Abs(), h) && 0 < size < WORD
      modifies this, heap, ram
      ensures (Abs(), r) == S.Realloc(old(Abs()), h, size) && Valid() && Points(Abs(), r, np)
      ensures if r in {Null, Ptr(h)} then ram.m == old(ram.m) else CopiedOver(old(ram.m), ram.m, np, p, CopyLength(old(Abs()), h, size))
    {
      hide SlabInv, S.Malloc, S.Free, IsLive, CopiedOver;
      ghost var s := Abs();
      ReallocSpec(s, h, size);
      FreeFollows(s, p, h);
      WantedRange(s, h, size);
      MovedRoom(s, h, size);
      var page: nat := p / PAGE;
      var want, have := size, 0;
      if usage[page].Small? {
        var z := zones[page - usage[page].off];
        want := ZoneIndex(size).1;
        have := z.size;
        if z.size == want { return p, Ptr(h); }
      } else {
        have := usage[page].n * PAGE;
      }
      MallocSpec(s, want);
      np, r := Malloc(want);
      if np == NULL { return; }
      ghost var s1 := Abs();
      BesideNew(s, s1, h, r.h, want);
      LiveDisjoint(s1, h, r.h);
      ram.MemCopy(np, p, if want > have then have else want);
      FreeBlockSpec(s1, h);
      Free(p, h);
      BesideOld(s1, Abs(), h, r.h);
    }

    static lemma BesideNew(s: Slab, s1: Slab, h: Handle, r: Handle, size: int)
      requires Allocated(s, s1, r, size) && IsLive(s, h)
      ensures r != h && IsLive(s1, r) && IsLive(s1, h) && Address(s1, h) == Address(s, h) && Length(s1, h) == Length(s, h)
    {
    }

    static lemma BesideOld(s: Slab, s1: Slab, h: Handle, r: Handle)
      requires Released(s, s1, h) && IsLive(s, r) && r != h
      ensures IsLive(s1, r) && Address(s1, r) == Address(s, r)
    {
    }
  }
}
