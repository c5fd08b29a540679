/** When rt_malloc and rt_realloc of rt-thread/src/slab.c refuse, where the memory comes from and where it goes, and
    that none is lost. */
module SlabAnswers {
  import opened Seqs
  import opened SlabZones
  import P = SlabPages

  // ---------- who is refused ----------

  /** Are the n pages from q on free? */
  ghost predicate FreeRun(s: Slab, q: nat, n: nat) { P.Range(q, n) <= P.Pages(s.pages) }

  /** Are there n consecutive free pages? */
  ghost predicate FreePages(s: Slab, n: nat) { exists q: nat :: FreeRun(s, q, n) }

  /** Do requests of size bytes go to chunks like those of zone z: large enough, the next smaller class too small? */
  predicate Serves(z: Zone, size: int) { size <= z.size && (z.index > 0 ==> SizeOf(z.index - 1) < size) }

  /** Has a zone in service a free chunk of the right class? */
  ghost predicate HasRoom(s: Slab, size: int) { exists a :: a in s.zones && Serves(s.zones[a], size) && s.zones[a].nfree > 0 }

  /** What it takes to be refused: nothing asked for, no run of pages for a large block, or neither a chunk nor a free
      zone nor pages for a new zone. */
  ghost predicate Refused(s: Slab, size: int) {
    if size == 0 then true
    else if size >= s.ZoneLimit() then size > WORD - PAGE || !FreePages(s, (size + PAGE - 1) / PAGE)
    else !HasRoom(s, size) && s.freeZones == [] && !FreePages(s, s.zonePages)
  }

  lemma PagesAsked(size: int)
    requires 0 < size < WORD
    ensures LargePages(size) == if size > WORD - PAGE then 0 else (size + PAGE - 1) / PAGE
    ensures size <= WORD - PAGE ==> LargePages(size) > 0
  {
  }

  lemma AllocAnswer(s: Slab, n: nat)
    requires P.Canonical(s.pages)
    ensures P.Alloc(s.pages, n).Got? <==> n > 0 && FreePages(s, n)
  {
    if n > 0 {
      P.AllocSpec(s.pages, n);
      if P.Alloc(s.pages, n).Got? {
        assert FreeRun(s, P.Alloc(s.pages, n).page, n);
      } else {
        forall q: nat ensures !FreeRun(s, q, n) { assert !(P.Range(q, n) <= P.Pages(s.pages)); }
      }
    }
  }

  /** The list of a class holds the zones that serve it and have room. */
  lemma ListIsClass(s: Slab, size: int)
    requires SlabInv(s) && 0 < size < LIMIT
    ensures 0 <= ZoneIndex(size).0 < |s.zoneArray|
    ensures s.zoneArray[ZoneIndex(size).0] != [] <==> HasRoom(s, size)
    ensures forall a :: a in s.zoneArray[ZoneIndex(size).0] <==> a in s.zones && Serves(s.zones[a], size) && s.zones[a].nfree > 0
  {
    ZoneIndexIsTightest(size);
    var zi := ZoneIndex(size).0;
    hide HeldOk, UsageOk, FreeZonesOk, Off;
    forall a | a in s.zones ensures Serves(s.zones[a], size) <==> s.zones[a].index == zi {
      assert ZoneOk(s.zones[a], a, s.ZoneSize());
      hide ZoneIndex;
      OneClass(s.zones[a], size);
    }
    hide ZoneIndex, ZoneOk, Serves;
    if s.zoneArray[zi] != [] {
      var a := s.zoneArray[zi][0];
      assert a in s.zoneArray[zi];
      assert a in s.zones && Serves(s.zones[a], size) && s.zones[a].nfree > 0;
    }
  }

  lemma OneClass(z: Zone, size: int)
    requires 0 <= z.index < NZONES && z.size == SizeOf(z.index) && Tightest(size)
    ensures Serves(z, size) <==> z.index == ZoneIndex(size).0
  {
    hide ZoneIndex;
    var zi := ZoneIndex(size).0;
    if z.index < zi - 1 { SizesIncrease(z.index, zi - 1); }
    if zi < z.index - 1 { SizesIncrease(zi, z.index - 1); }
  }

  lemma LimitSmall(s: Slab)
    requires SlabInv(s)
    ensures 0 < s.ZoneLimit() <= LIMIT && P.Canonical(s.pages) && s.zonePages > 0
  {
  }

  /** rt_malloc answers RT_NULL iff it has to. */
  lemma MallocNullIff(s: Slab, size: int)
    requires SlabInv(s) && 0 <= size < WORD
    ensures Malloc(s, size).1.Null? <==> Refused(s, size)
  {
    hide SlabInv, TakeChunk, NewZone, ZoneIndex, P.Range, P.Pages, P.Canonical, LargePages, HasRoom, MarkZone;
    hide FreePages;
    if size != 0 {
      LimitSmall(s);
      if size >= s.ZoneLimit() {
        PagesAsked(size);
        AllocAnswer(s, LargePages(size));
      } else {
        ListIsClass(s, size);
        AllocAnswer(s, s.zonePages);
      }
    }
  }

  /** rt_realloc answers RT_NULL iff the block is not a chunk of the right size already, and rt_malloc refuses the new
      size, or for a chunk the chunk size of its class. */
  lemma ReallocNullIff(s: Slab, h: Handle, size: int)
    requires SlabInv(s) && IsLive(s, h) && 0 < size < WORD
    ensures Realloc(s, h, size).1.Null? <==>
      !(h.Part? && Serves(s.zones[h.a], size)) && Refused(s, if h.Part? then ZoneIndex(size).1 else size)
  {
    hide SlabInv, Malloc, Free, ZoneIndex, Refused, Serves;
    WantedRange(s, h, size);
    MallocNullIff(s, Wanted(s, h, size));
    if h.Part? { LiveZone(s, h); StaysIffServes(s, h, size); }
  }

  lemma StaysIffServes(s: Slab, h: Handle, size: int)
    requires IsLive(s, h) && h.Part? && 0 < size < WORD && ZoneOk(s.zones[h.a], h.a, s.ZoneSize())
    ensures s.zones[h.a].size == Wanted(s, h, size) <==> Serves(s.zones[h.a], size)
  {
    var z := s.zones[h.a];
    hide Off;
    if size < LIMIT {
      ZoneIndexIsTightest(size);
      hide ZoneIndex;
      OneClass(z, size);
      var i, j := ZoneIndex(size).0, z.index;
      if i < j { SizesIncrease(i, j); } else if j < i { SizesIncrease(j, i); }
    } else {
      SizeRange(z.index);
      if z.index < NZONES - 1 { SizesIncrease(z.index, NZONES - 1); }
    }
  }

  // ---------- where the memory comes from ----------

  /** The n pages at a, free before and not after: the lowest that will do. */
  ghost predicate PagesTaken(s: Slab, s1: Slab, a: nat, n: nat) {
    && n > 0 && FreeRun(s, a, n) && P.Pages(s1.pages) == P.Pages(s.pages) - P.Range(a, n)
    && forall q: nat :: FreeRun(s, q, n) ==> a <= q
  }

  /** The chunk handed out: never used space first, then the chunk freed last. */
  ghost predicate NextFrom(s: Slab, h: Handle) {
    && h.Part? && h.a in s.zones
    && var z := s.zones[h.a];
       h.k == (if z.uindex + 1 < z.nmax then z.uindex + 1 else if z.free != [] then z.free[0] else -1)
  }

  /** What the caller gets: a chunk that serves the request, of a zone that was in service or is now. */
  ghost predicate ChunkGot(s: Slab, s1: Slab, r: Result, size: int) {
    r.Ptr? && r.h.Part? && r.h.a in s1.zones && Serves(s1.zones[r.h.a], size) && s1.zones.Keys == s.zones.Keys + {r.h.a}
  }

  /** The zones of the class of size that have room, in the order in which they are used. */
  function InLine(s: Slab, size: int): seq<nat>
    requires 0 < size < LIMIT && |s.zoneArray| == NZONES
  {
    ZoneIndexIsTightest(size);
    s.zoneArray[ZoneIndex(size).0]
  }

  /** The lists of zones of the other classes are as they were. */
  ghost predicate OtherLines(s: Slab, s1: Slab, zi: int) {
    |s1.zoneArray| == |s.zoneArray| && forall i :: 0 <= i < |s.zoneArray| && i != zi ==> s1.zoneArray[i] == s.zoneArray[i]
  }

  /** The zone of a chunk just handed out was the first in line, or is now; it leaves the line with its last chunk. */
  ghost predicate LineAfter(s: Slab, s1: Slab, a: nat, size: int) {
    && 0 < size < LIMIT && |s.zoneArray| == |s1.zoneArray| == NZONES && OtherLines(s, s1, ZoneIndex(size).0)
    && var l, l1 := InLine(s, size), InLine(s1, size);
       if l == [] then l1 == [a] else l[0] == a && a in s1.zones && l1 == if s1.zones[a].nfree == 0 then l[1..] else l
  }

  /** It happens so. */
  lemma MallocInLine(s: Slab, size: int)
    requires SlabInv(s) && 0 < size < s.ZoneLimit() && Malloc(s, size).1.Ptr?
    ensures LineAfter(s, Malloc(s, size).0, Malloc(s, size).1.h.a, size)
  {
    hide SlabInv, ZoneIndex, TakeChunk, NewZone, GetZone, LineAfter;
    LimitSmall(s);
    InvZonePages(s);
    ZoneIndexIsTightest(size);
    var zi := ZoneIndex(size).0;
    if s.zoneArray[zi] != [] {
      ListedZone(s, zi);
      TakeUindex(s, zi);
      TakeInLine(s, zi, size);
    } else {
      SameArray(s);
      NewInLine(s, GetZone(s).s, GetZone(s).a, zi, size);
    }
  }

  lemma TakeInLine(s: Slab, zi: nat, size: int)
    requires 0 < size < LIMIT && |s.zoneArray| == NZONES && ZoneIndex(size).0 == zi < NZONES
    requires s.zoneArray[zi] != [] && s.zoneArray[zi][0] in s.zones && s.zones[s.zoneArray[zi][0]].uindex >= 0
    requires var z := s.zones[s.zoneArray[zi][0]]; z.uindex + 1 == z.nmax ==> z.free != []
    ensures LineAfter(s, TakeChunk(s, zi).0, TakeChunk(s, zi).1.a, size)
  {
    hide ZoneIndex;
  }

  lemma NewInLine(s: Slab, s0: Slab, a: nat, zi: nat, size: int)
    requires 0 < size < LIMIT && |s.zoneArray| == NZONES && ZoneIndex(size).0 == zi < NZONES
    requires s.zoneArray[zi] == [] && s0.zoneArray == s.zoneArray
    ensures LineAfter(s, NewZone(s0, a, zi).0, NewZone(s0, a, zi).1.a, size)
  {
    hide ZoneIndex, SizeOf, Off;
  }

  /** A large block takes as many pages as it needs, the lowest. A chunk comes from the first zone of its class with room,
      else from a free zone, and new pages are taken only if there is neither. */
  lemma MallocTakes(s: Slab, size: int)
    requires SlabInv(s) && 0 <= size < WORD && Malloc(s, size).1.Ptr?
    ensures var (s1, r) := Malloc(s, size);
      if size >= s.ZoneLimit() then
        && r.h.Big? && r.h.a in s1.large && s1.large[r.h.a] == (size + PAGE - 1) / PAGE
        && PagesTaken(s, s1, r.h.a, s1.large[r.h.a]) && s1.zones == s.zones && s1.freeZones == s.freeZones
      else
        && ChunkGot(s, s1, r, size)
        && if HasRoom(s, size) then NextFrom(s, r.h) && s1.pages == s.pages && s1.freeZones == s.freeZones
           else if s.freeZones != [] then [r.h.a] + s1.freeZones == s.freeZones && s1.pages == s.pages
           else PagesTaken(s, s1, r.h.a, s.zonePages) && s1.freeZones == s.freeZones
  {
    hide SlabInv, ZoneIndex, P.Range, P.Pages, P.Canonical, LargePages, HasRoom, MarkZone, SizeOf, Off;
    LimitSmall(s);
    if size >= s.ZoneLimit() {
      PagesAsked(size);
      AllocAnswer(s, LargePages(size));
      P.AllocSpec(s.pages, LargePages(size));
    } else {
      MallocSmallTakes(s, size);
    }
  }

  lemma MallocSmallTakes(s: Slab, size: int)
    requires SlabInv(s) && 0 < size < s.ZoneLimit() && MallocSmall(s, size).1.Ptr?
    ensures var (s1, r) := MallocSmall(s, size);
      && ChunkGot(s, s1, r, size)
      && if HasRoom(s, size) then NextFrom(s, r.h) && s1.pages == s.pages && s1.freeZones == s.freeZones
         else if s.freeZones != [] then [r.h.a] + s1.freeZones == s.freeZones && s1.pages == s.pages
         else PagesTaken(s, s1, r.h.a, s.zonePages) && s1.freeZones == s.freeZones
  {
    hide SlabInv, ZoneIndex, TakeChunk, NewZone, GetZone, HasRoom, PagesTaken, ChunkGot, NextFrom;
    LimitSmall(s);
    ListIsClass(s, size);
    ZoneIndexIsTightest(size);
    var zi := ZoneIndex(size).0;
    if s.zoneArray[zi] != [] {
      ListedZone(s, zi);
      ListedClass(s, size);
      TakeChunkFrom(s, zi, size);
    } else {
      SameArray(s);
      GetZoneFrom(s);
      NewZoneFor(GetZone(s).s, GetZone(s).a, zi, size);
      assert GetZone(s).s.zones == s.zones;
      SameKeys(s, GetZone(s).s, MallocSmall(s, size).0, MallocSmall(s, size).1, size);
    }
  }

  lemma SameKeys(s: Slab, s0: Slab, s1: Slab, r: Result, size: int)
    requires ChunkGot(s0, s1, r, size) && s0.zones == s.zones && s1.pages == s0.pages
    ensures ChunkGot(s, s1, r, size)
    ensures PagesTaken(s, s0, r.h.a, s.zonePages) ==> PagesTaken(s, s1, r.h.a, s.zonePages)
  {
    hide P.Range, P.Pages;
  }

  lemma TakeChunkFrom(s: Slab, zi: nat, size: int)
    requires zi < |s.zoneArray| && s.zoneArray[zi] != [] && s.zoneArray[zi][0] in s.zones
    requires var a := s.zoneArray[zi][0]; var z := s.zones[a];
      ZoneOk(z, a, s.ZoneSize()) && z.nfree > 0 && Serves(z, size) && (z.uindex + 1 == z.nmax ==> z.free != [])
    ensures s.zones[s.zoneArray[zi][0]].uindex >= 0
    ensures var (s1, h) := TakeChunk(s, zi);
      ChunkGot(s, s1, Ptr(h), size) && NextFrom(s, h) && s1.pages == s.pages && s1.freeZones == s.freeZones
  {
    hide Off, SizeOf;
  }

  lemma GetZoneFrom(s: Slab)
    requires SlabInv(s) && GetZone(s).At?
    ensures var g := GetZone(s); g.s.zones == s.zones && g.s.freeCnt <= s.freeCnt
    ensures var g := GetZone(s);
      if s.freeZones != [] then [g.a] + g.s.freeZones == s.freeZones && g.s.pages == s.pages
      else PagesTaken(s, g.s, g.a, s.zonePages) && g.s.freeZones == s.freeZones
  {
    hide ArrayOk, ZonesOk, UsageOk, P.Range, P.Canonical, MarkZone;
    if s.freeZones == [] { P.AllocSpec(s.pages, s.zonePages); }
  }

  lemma NewZoneFor(s: Slab, a: nat, zi: nat, size: int)
    requires zi < |s.zoneArray| && zi < NZONES && Tightest(size) && ZoneIndex(size).0 == zi
    ensures var (s1, h) := NewZone(s, a, zi); ChunkGot(s, s1, Ptr(h), size) && h.a == a && s1.pages == s.pages && s1.freeZones == s.freeZones
  {
    hide ZoneIndex, Off, SizeOf;
  }

  lemma ListedClass(s: Slab, size: int)
    requires SlabInv(s) && 0 < size < s.ZoneLimit() && 0 <= ZoneIndex(size).0 < |s.zoneArray| && s.zoneArray[ZoneIndex(size).0] != []
    requires forall a :: a in s.zoneArray[ZoneIndex(size).0] <==> a in s.zones && Serves(s.zones[a], size) && s.zones[a].nfree > 0
    ensures var zi := ZoneIndex(size).0; var a := s.zoneArray[zi][0];
      && a in s.zones && ZoneOk(s.zones[a], a, s.ZoneSize()) && s.zones[a].nfree > 0 && Serves(s.zones[a], size)
  {
    hide ZoneIndex, Serves, HasRoom;
    assert s.zoneArray[ZoneIndex(size).0][0] in s.zoneArray[ZoneIndex(size).0];
  }

  /** The block rt_realloc returns is no larger than it has to be: a chunk of the class of the new size, or the pages
      that size needs, for a chunk its chunk size. */
  lemma ReallocFits(s: Slab, h: Handle, size: int)
    requires SlabInv(s) && IsLive(s, h) && 0 < size < WORD && Realloc(s, h, size).1.Ptr?
    ensures var (s1, r) := Realloc(s, h, size);
      && IsLive(s1, r.h)
      && Length(s1, r.h) == if r.h.Part? then ZoneIndex(size).1 else (Wanted(s, h, size) + PAGE - 1) / PAGE * PAGE
  {
    hide SlabInv, Malloc, Free, ZoneIndex, Wanted, Serves, PagesTaken, Length;
    assert h.Part? ==> h.a in s.zones;
    hide IsLive;
    ReallocSpec(s, h, size);
    WantedRange(s, h, size);
    var n := Wanted(s, h, size);
    if !(h.Part? && s.zones[h.a].size == n) {
      MallocSpec(s, n);
      var (s1, r) := Malloc(s, n);
      FreeBlockSpec(s1, h);
      MallocLength(s, n);
      if r.h.Part? { ChunkAsked(s, h, size); }
      assert IsLive(Free(s1, Address(s1, h)), r.h);
    } else {
      ChunkKept(s, h, size);
    }
  }

  lemma MallocLength(s: Slab, size: int)
    requires SlabInv(s) && 0 < size < WORD && Malloc(s, size).1.Ptr?
    ensures var (s1, r) := Malloc(s, size);
      && IsLive(s1, r.h) && (r.h.Part? ==> size < s.ZoneLimit() <= LIMIT)
      && Length(s1, r.h) == if r.h.Part? then ZoneIndex(size).1 else (size + PAGE - 1) / PAGE * PAGE
  {
    hide SlabInv, Malloc, ZoneIndex, PagesTaken;
    MallocSpec(s, size);
    MallocTakes(s, size);
    LimitSmall(s);
    var (s1, r) := Malloc(s, size);
    if r.h.Part? {
      ZoneIndexIsTightest(size);
      LiveZone(s1, r.h);
      OneClass(s1.zones[r.h.a], size);
    }
  }

  lemma ChunkAsked(s: Slab, h: Handle, size: int)
    requires IsLive(s, h) && 0 < size < WORD && Wanted(s, h, size) < LIMIT
    ensures ZoneIndex(Wanted(s, h, size)).1 == ZoneIndex(size).1
  {
    if h.Part? {
      if size < LIMIT { ZoneIndexIsTightest(size); ZoneIndexOfChunk(size); }
    }
  }

  lemma ChunkKept(s: Slab, h: Handle, size: int)
    requires IsLive(s, h) && h.Part? && s.zones[h.a].size == Wanted(s, h, size)
    ensures Length(s, h) == ZoneIndex(size).1
  {
  }

  // ---------- where it goes ----------

  /** Is zone b of the same class, with a free chunk? */
  ghost predicate Sibling(s: Slab, a: nat, b: nat)
    requires a in s.zones
  {
    b != a && b in s.zones && s.zones[b].index == s.zones[a].index && s.zones[b].nfree > 0
  }

  /** Is chunk k the last one in use of zone a, and has another zone of the class room? */
  ghost predicate LastChunk(s: Slab, a: nat)
    requires a in s.zones
  {
    s.zones[a].nfree + 1 == s.zones[a].nmax && exists b :: Sibling(s, a, b)
  }

  /** The lists of zones after chunk k of zone a was given back: the zone comes to the front of the line if it had no free
      chunk, and leaves it when it is set aside. */
  ghost predicate LineGiven(s: Slab, s1: Slab, a: nat)
    requires a in s.zones
  {
    var zi := s.zones[a].index;
    && 0 <= zi < |s.zoneArray| == |s1.zoneArray| && OtherLines(s, s1, zi)
    && var l := if s.zones[a].nfree == 0 then [a] + s.zoneArray[zi] else s.zoneArray[zi];
       s1.zoneArray[zi] == if LastChunk(s, a) then Without(l, a) else l
  }

  lemma FreeInLine(s: Slab, a: nat, k: nat)
    requires SlabInv(s) && IsLive(s, Part(a, k))
    ensures Freeable(s, Address(s, Part(a, k))) && LineGiven(s, Free(s, Address(s, Part(a, k))), a)
  {
    hide SlabInv, LastChunk, P.Free, Without, UnmarkZone;
    FreeIs(s, Part(a, k));
    FreeChunkInv(s, a, k);
    LastIff(s, a, k);
  }

  /** rt_free of a large block gives back its pages. A chunk goes back to its zone; when it was the last in use and
      another zone has chunks of that size, the zone is set aside, or its pages given back if two are set aside
      already. */
  lemma FreeGives(s: Slab, h: Handle)
    requires SlabInv(s) && IsLive(s, h)
    ensures Freeable(s, Address(s, h))
    ensures var s1 := Free(s, Address(s, h));
      match h
      case Big(a) =>
        P.Pages(s1.pages) == P.Pages(s.pages) + P.Range(a, s.large[a]) && s1.zones == s.zones && s1.freeZones == s.freeZones
      case Part(a, k) =>
        if !LastChunk(s, a) then
          && s1.zones == s.zones[a := s.zones[a].(free := [k] + s.zones[a].free, nfree := s.zones[a].nfree + 1)]
          && s1.pages == s.pages && s1.freeZones == s.freeZones
        else
          && s1.zones == s.zones - {a}
          && if |s.freeZones| < THRESH then s1.freeZones == [a] + s.freeZones && s1.pages == s.pages
             else s1.freeZones == s.freeZones && P.Pages(s1.pages) == P.Pages(s.pages) + P.Range(a, s.zonePages)
  {
    hide SlabInv, FreeSmall, FreeLarge, IsLive, P.Pages, P.Range, LastChunk;
    FreeIs(s, h);
    if h.Big? {
      BigIsLarge(s, h);
      LargeGives(s, h.a);
    } else {
      FreeSmallGives(s, h.a, h.k);
    }
  }

  /** rt_free of a live block. */
  lemma FreeIs(s: Slab, h: Handle)
    requires SlabInv(s) && IsLive(s, h)
    ensures Freeable(s, Address(s, h)) && (h.Big? ==> h.a in s.large)
    ensures h.Part? ==> h.a in s.zones && 0 <= s.zones[h.a].index < |s.zoneArray|
    ensures Free(s, Address(s, h)) == if h.Big? then FreeLarge(s, h.a) else FreeSmall(s, h.a, h.k)
  {
    hide SlabInv, FreeSmall, FreeLarge;
    LookupFinds(s, h);
    LiveZone(s, h);
    hide ZoneOk, IsLive;
    var addr := Address(s, h);
    var g :| IsLive(s, g) && Address(s, g) == addr;
    LookupFinds(s, g);
  }

  lemma LargeGives(s: Slab, a: nat)
    requires SlabInv(s) && a in s.large
    ensures P.Pages(FreeLarge(s, a).pages) == P.Pages(s.pages) + P.Range(a, s.large[a])
    ensures FreeLarge(s, a).zones == s.zones && FreeLarge(s, a).freeZones == s.freeZones && FreeLarge(s, a).held == s.held - {a}
    ensures a in s.held && s.held[a] == s.large[a]
  {
    hide ArrayOk, ZonesOk, FreeZonesOk, P.Range, P.Canonical;
    LargePositive(s, a);
    assert a in s.held;
    P.FreeSpec(s.pages, a, s.large[a]);
  }

  lemma FreeSmallGives(s: Slab, a: nat, k: nat)
    requires SlabInv(s) && IsLive(s, Part(a, k))
    ensures a in s.zones && 0 <= s.zones[a].index < |s.zoneArray|
    ensures var s1 := FreeSmall(s, a, k);
      if !LastChunk(s, a) then
        && s1.zones == s.zones[a := s.zones[a].(free := [k] + s.zones[a].free, nfree := s.zones[a].nfree + 1)]
        && s1.pages == s.pages && s1.freeZones == s.freeZones && s1.held == s.held && s1.freeCnt == s.freeCnt
      else
        && s1.zones == s.zones - {a}
        && if |s.freeZones| < THRESH then s1.freeZones == [a] + s.freeZones && s1.pages == s.pages && s1.held == s.held
           else s1.freeZones == s.freeZones && s1.held == s.held - {a}
                && P.Pages(s1.pages) == P.Pages(s.pages) + P.Range(a, s.zonePages)
  {
    hide SlabInv, Settle, Retire, LastChunk, P.Pages, P.Range;
    FreeChunkInv(s, a, k);
    var s1 := FreeChunk(s, a, k);
    LastIff(s, a, k);
    if LastChunk(s, a) { RetireGives(s1, a); }
  }

  /** The test in rt_free: more than one zone of the class has free chunks. */
  lemma LastIff(s: Slab, a: nat, k: nat)
    requires SlabInv(s) && a in s.zones && 0 <= s.zones[a].index < |s.zoneArray|
    requires SlabInv(FreeChunk(s, a, k)) && FreeChunk(s, a, k).zones[a].nfree > 0
    ensures var s1 := FreeChunk(s, a, k);
      LastChunk(s, a) <==> s1.zones[a].nfree == s1.zones[a].nmax && |s1.zoneArray[s1.zones[a].index]| > 1
  {
    hide HeldOk, UsageOk, FreeZonesOk, ZonesOk, LastChunk;
    var s1 := FreeChunk(s, a, k);
    var l := s1.zoneArray[s1.zones[a].index];
    assert a in l;
    forall b ensures b != a && b in l <==> Sibling(s, a, b) {}
    if |l| > 1 {
      var b := if l[0] == a then l[1] else l[0];
      assert b in l && b != a;
      assert Sibling(s, a, b);
    } else {
      assert l == [a];
    }
    LastMeans(s, a);
  }

  lemma LastMeans(s: Slab, a: nat)
    requires a in s.zones
    ensures LastChunk(s, a) <==> s.zones[a].nfree + 1 == s.zones[a].nmax && exists b :: Sibling(s, a, b)
  {
  }

  lemma RetireGives(s: Slab, a: nat)
    requires SlabInv(s) && a in s.zones && 0 <= s.zones[a].index < |s.zoneArray|
    ensures var s1 := Settle(Retire(s, a));
      && s1.zones == s.zones - {a}
      && if |s.freeZones| < THRESH then s1.freeZones == [a] + s.freeZones && s1.pages == s.pages && s1.held == s.held
         else s1.freeZones == s.freeZones && s1.held == s.held - {a}
              && P.Pages(s1.pages) == P.Pages(s.pages) + P.Range(a, s.zonePages)
  {
    hide ArrayOk, ZonesOk, P.Range, P.Canonical, UnmarkZone;
    assert IsZone(s, a) && a in s.held;
    P.FreeSpec(s.pages, a, s.zonePages);
    assert ([a] + s.freeZones)[1..] == s.freeZones;
  }

  // ---------- none is lost ----------

  /** Page p belongs to a run that was handed out. */
  ghost predicate HeldPage(held: map<nat, nat>, p: nat) { exists a :: a in held && a <= p < a + held[a] }

  ghost predicate PagesAccounted(pages: seq<P.Run>, held: map<nat, nat>, npages: nat) {
    forall p: nat :: p < npages <==> p in P.Pages(pages) || HeldPage(held, p)
  }

  /** Every run handed out is a zone, a large block or, at page 0, the page table. */
  ghost predicate RunsKnown(s: Slab) { forall a :: a in s.held ==> a == 0 || IsZone(s, a) || a in s.large }

  predicate Idle(z: Zone) { z.nfree == z.nmax }

  /** Of the zones in service of one class one at most is without a chunk in use. */
  ghost predicate OneIdle(zones: map<nat, Zone>) {
    forall a, b :: a in zones && b in zones && a != b && Idle(zones[a]) && Idle(zones[b]) ==> zones[a].index != zones[b].index
  }

  ghost predicate Accounted(s: Slab, npages: nat) {
    PagesAccounted(s.pages, s.held, npages) && RunsKnown(s) && OneIdle(s.zones)
  }

  lemma RunTaken(pages: seq<P.Run>, held: map<nat, nat>, npages: nat, n: nat)
    requires PagesAccounted(pages, held, npages) && P.Canonical(pages) && P.Alloc(pages, n).Got? && P.Alloc(pages, n).page !in held
    ensures var g := P.Alloc(pages, n); PagesAccounted(g.rest, held[g.page := n], npages)
  {
    hide P.Canonical, HeldPage;
    var g := P.Alloc(pages, n);
    GotSome(pages, n);
    P.AllocSpec(pages, n);
    hide P.Range, P.Alloc;
    forall p: nat ensures p < npages <==> p in P.Pages(g.rest) || HeldPage(held[g.page := n], p) {
      HeldOneMore(held, g.page, n, p);
      assert p in P.Range(g.page, n) <==> g.page <= p < g.page + n;
    }
  }

  lemma HeldOneMore(held: map<nat, nat>, a: nat, n: nat, p: nat)
    requires a !in held
    ensures HeldPage(held[a := n], p) <==> HeldPage(held, p) || a <= p < a + n
  {
    var held1 := held[a := n];
    if HeldPage(held, p) {
      var b :| b in held && b <= p < b + held[b];
      assert b in held1 && held1[b] == held[b];
    }
    if a <= p < a + n { assert a in held1 && held1[a] == n; }
  }

  lemma RunGiven(pages: seq<P.Run>, held: map<nat, nat>, npages: nat, a: nat)
    requires PagesAccounted(pages, held, npages) && HeldOk(pages, held) && a in held
    ensures PagesAccounted(P.Free(pages, a, held[a]), held - {a}, npages)
  {
    hide P.Range, P.Canonical, HeldPage;
    P.FreeSpec(pages, a, held[a]);
    var rest := held - {a};
    assert held == rest[a := held[a]];
    forall p: nat ensures HeldPage(held, p) <==> HeldPage(rest, p) || a <= p < a + held[a] { HeldOneMore(rest, a, held[a], p); }
  }

  lemma MallocAccounted(s: Slab, size: int, npages: nat)
    requires SlabInv(s) && Accounted(s, npages) && 0 <= size < WORD
    ensures Accounted(Malloc(s, size).0, npages)
  {
    hide SlabInv, ZoneIndex, TakeChunk, NewZone, GetZone, PagesAccounted, P.Range, P.Canonical, P.Alloc, LargePages;
    LimitSmall(s);
    if 0 < size < s.ZoneLimit() {
      MallocSmallAccounted(s, size, npages);
    } else if size > 0 && P.Alloc(s.pages, LargePages(size)).Got? {
      TakenRun(s, LargePages(size), npages);
    }
  }

  lemma TakenRun(s: Slab, n: nat, npages: nat)
    requires SlabInv(s) && PagesAccounted(s.pages, s.held, npages) && P.Alloc(s.pages, n).Got?
    ensures var g := P.Alloc(s.pages, n); g.page !in s.held && PagesAccounted(g.rest, s.held[g.page := n], npages)
  {
    hide ArrayOk, ZonesOk, UsageOk, FreeZonesOk, P.Range, P.Canonical, PagesAccounted;
    HeldCanonical(s.pages, s.held);
    GotSome(s.pages, n);
    HeldMore(s.pages, s.held, n);
    RunTaken(s.pages, s.held, npages, n);
  }

  lemma GotSome(pages: seq<P.Run>, n: nat)
    ensures P.Alloc(pages, n).Got? ==> n > 0
  {
  }

  lemma MallocSmallAccounted(s: Slab, size: int, npages: nat)
    requires SlabInv(s) && Accounted(s, npages) && 0 < size < s.ZoneLimit()
    ensures Accounted(MallocSmall(s, size).0, npages)
  {
    hide SlabInv, ZoneIndex, TakeChunk, NewZone, GetZone, Accounted;
    LimitSmall(s);
    ZoneIndexIsTightest(size);
    InvZonePages(s);
    var zi := ZoneIndex(size).0;
    if s.zoneArray[zi] != [] {
      ListedZone(s, zi);
      TakeUindex(s, zi);
      TakenAccounted(s, zi, npages);
    } else if GetZone(s).At? {
      SameArray(s);
      GetZoneInv(s);
      NewAccounted(s, zi, npages);
    }
  }

  lemma TakenAccounted(s: Slab, zi: nat, npages: nat)
    requires Accounted(s, npages) && zi < |s.zoneArray| && s.zoneArray[zi] != [] && s.zoneArray[zi][0] in s.zones
    requires var z := s.zones[s.zoneArray[zi][0]]; z.uindex + 1 == z.nmax ==> z.free != []
    requires var a := s.zoneArray[zi][0]; ZoneOk(s.zones[a], a, s.ZoneSize()) && s.zones[a].uindex >= 0
    ensures Accounted(TakeChunk(s, zi).0, npages)
  {
    hide PagesAccounted, Off;
    var s1 := TakeChunk(s, zi).0;
    var a := s.zoneArray[zi][0];
    assert s1.zones.Keys == s.zones.Keys && s1.held == s.held && s1.pages == s.pages;
    NotIdle(s.zones[a], s1.zones[a], a, s.ZoneSize());
    hide ZoneOk, TakeChunk;
    forall b | b in s.held ensures b == 0 || IsZone(s1, b) || b in s1.large { assert b == 0 || IsZone(s, b) || b in s.large; }
  }

  lemma NotIdle(z: Zone, z1: Zone, a: nat, zoneSize: int)
    requires ZoneOk(z, a, zoneSize) && z1.nmax == z.nmax && z1.nfree == z.nfree - 1
    ensures !Idle(z1)
  {
    Counted(z);
  }

  /** A zone has no more free chunks than chunks. */
  lemma Counted(z: Zone)
    requires NoDup(z.free) && (forall k :: k in z.free ==> k <= z.uindex) && z.uindex >= 0 && z.nfree == z.nmax - 1 - z.uindex + |z.free|
    ensures z.nfree <= z.nmax
  {
    assert SetOf(z.free) <= P.Range(0, z.uindex + 1);
    SubsetSize(SetOf(z.free), P.Range(0, z.uindex + 1));
    RangeCard(0, z.uindex + 1);
  }

  lemma NewAccounted(s: Slab, zi: nat, npages: nat)
    requires SlabInv(s) && Accounted(s, npages) && zi < |s.zoneArray| && zi < NZONES && GetZone(s).At?
    requires var g := GetZone(s); g.a !in g.s.zones && g.s.zoneArray == s.zoneArray && g.s.zones == s.zones
    ensures Accounted(NewZone(GetZone(s).s, GetZone(s).a, zi).0, npages)
  {
    hide PagesAccounted, SlabInv, MarkZone, Off, SizeOf, P.Alloc;
    var g := GetZone(s);
    if s.freeZones == [] { TakenRun(s, s.zonePages, npages); }
    var s1 := NewZone(g.s, g.a, zi).0;
    assert PagesAccounted(s1.pages, s1.held, npages);
    forall b | b in s1.held ensures b == 0 || IsZone(s1, b) || b in s1.large {
      if b != g.a { assert b == 0 || IsZone(s, b) || b in s.large; }
    }
    assert !Idle(s1.zones[g.a]);
  }

  lemma FreeAccounted(s: Slab, h: Handle, npages: nat)
    requires SlabInv(s) && Accounted(s, npages) && IsLive(s, h)
    ensures Freeable(s, Address(s, h)) && Accounted(Free(s, Address(s, h)), npages)
  {
    hide SlabInv, FreeSmall, FreeLarge, IsLive, Accounted;
    FreeIs(s, h);
    if h.Big? { LargeAccounted(s, h.a, npages); } else { SmallAccounted(s, h.a, h.k, npages); }
  }

  lemma LargeAccounted(s: Slab, a: nat, npages: nat)
    requires SlabInv(s) && Accounted(s, npages) && a in s.large
    ensures Accounted(FreeLarge(s, a), npages)
  {
    hide ArrayOk, ZonesOk, FreeZonesOk, PagesAccounted;
    assert a in s.held && s.held[a] == s.large[a];
    RunGiven(s.pages, s.held, npages, a);
    hide UsageOk, HeldOk;
    var s1 := FreeLarge(s, a);
    forall b | b in s1.held ensures b == 0 || IsZone(s1, b) || b in s1.large { assert b == 0 || IsZone(s, b) || b in s.large; }
  }

  lemma SmallAccounted(s: Slab, a: nat, k: nat, npages: nat)
    requires SlabInv(s) && Accounted(s, npages) && IsLive(s, Part(a, k))
    ensures a in s.zones && 0 <= s.zones[a].index < |s.zoneArray|
    ensures Accounted(FreeSmall(s, a, k), npages)
  {
    hide SlabInv, Settle, Retire, LastChunk, PagesAccounted;
    FreeChunkInv(s, a, k);
    LastIff(s, a, k);
    var s1 := FreeChunk(s, a, k);
    ChunkAccounted(s, a, k, npages);
    if LastChunk(s, a) { RetireAccounted(s1, a, npages); }
  }

  lemma ChunkAccounted(s: Slab, a: nat, k: nat, npages: nat)
    requires SlabInv(s) && Accounted(s, npages) && a in s.zones && 0 <= s.zones[a].index < |s.zoneArray|
    ensures var s1 := FreeChunk(s, a, k);
      && PagesAccounted(s1.pages, s1.held, npages) && RunsKnown(s1) && OneIdle(s1.zones - {a})
      && (!LastChunk(s, a) ==> OneIdle(s1.zones))
  {
    hide SlabInv, PagesAccounted, LastChunk;
    var s1 := FreeChunk(s, a, k);
    forall b | b in s1.held ensures b == 0 || IsZone(s1, b) || b in s1.large { assert b == 0 || IsZone(s, b) || b in s.large; }
    if !LastChunk(s, a) && Idle(s1.zones[a]) {
      LastMeans(s, a);
      forall b | b in s.zones && b != a && Idle(s.zones[b]) ensures s.zones[b].index != s.zones[a].index {
        AtLeastTwo(s, b);
        assert !Sibling(s, a, b);
      }
    }
  }

  lemma AtLeastTwo(s: Slab, a: nat)
    requires SlabInv(s) && a in s.zones
    ensures s.zones[a].nmax >= 2
  {
    assert ZoneOk(s.zones[a], a, s.ZoneSize());
  }

  lemma RetireAccounted(s: Slab, a: nat, npages: nat)
    requires SlabInv(s) && PagesAccounted(s.pages, s.held, npages) && RunsKnown(s) && OneIdle(s.zones - {a})
    requires a in s.zones && 0 <= s.zones[a].index < |s.zoneArray|
    ensures Accounted(Settle(Retire(s, a)), npages)
  {
    hide ArrayOk, ZonesOk, PagesAccounted, UnmarkZone, P.Free;
    assert IsZone(s, a) && a in s.held && s.held[a] == s.zonePages;
    RunGiven(s.pages, s.held, npages, a);
    hide UsageOk, HeldOk;
    var s0, s1 := Retire(s, a), Settle(Retire(s, a));
    assert s0.freeZones[1..] == s.freeZones;
    forall b | b in s1.held ensures b == 0 || IsZone(s1, b) || b in s1.large { assert b == 0 || IsZone(s, b) || b in s.large; }
  }

  lemma StepAccounted(s: Slab, step: SlabStep, npages: nat)
    requires SlabInv(s) && Accounted(s, npages) && SlabEnabled(s, step)
    ensures Accounted(SlabNext(s, step), npages)
  {
    hide SlabInv, Malloc, Free, Accounted, Wanted;
    match step {
      case MallocStep(size) => MallocAccounted(s, size, npages);
      case FreeStep(h) => FreeAccounted(s, h, npages);
      case ReallocStep(h, size) =>
        WantedRange(s, h, size);
        MallocSpec(s, Wanted(s, h, size));
        MallocAccounted(s, Wanted(s, h, size), npages);
        var (s1, r) := Malloc(s, Wanted(s, h, size));
        if r.Ptr? { FreeAccounted(s1, h, npages); }
    }
  }

  /** rt_system_heap_init sets aside as many pages as the page table needs, four bytes for each page. */
  lemma TableHolds(npages: nat)
    ensures npages * 4 <= TablePages(npages) * PAGE < npages * 4 + PAGE
  {
    Rounded(npages * 4, PAGE, (npages * 4 + PAGE - 1) / PAGE);
  }

  lemma InitAccounted(npages: nat)
    requires npages > 0
    ensures Accounted(Init(npages), npages)
  {
    hide P.Range, NoZones, RoundUp, HeldPage;
    P.FreeSpec([], 0, npages);
    var all := P.Free([], 0, npages);
    forall p: nat ensures !HeldPage(map[], p) { NoneHeld(p); }
    assert PagesAccounted(all, map[], npages);
    if P.Alloc(all, TablePages(npages)).Got? { RunTaken(all, map[], npages, TablePages(npages)); }
  }

  lemma NoneHeld(p: nat)
    ensures !HeldPage(map[], p)
  {
  }

  /** What every page of a heap is used for. */
  datatype Use = FreePage | TablePage | InService(a: nat) | SetAside(a: nat) | LargeBlock(a: nat)

  ghost predicate UsedFor(s: Slab, p: nat, u: Use) {
    match u
    case FreePage => p in P.Pages(s.pages)
    case TablePage => 0 in s.held && p < s.held[0]
    case InService(a) => a in s.zones && a <= p < a + s.zonePages
    case SetAside(a) => a in s.freeZones && a <= p < a + s.zonePages
    case LargeBlock(a) => a in s.large && a <= p < a + s.large[a]
  }

  ghost predicate HasUse(s: Slab, p: nat) { exists u :: UsedFor(s, p, u) }

  ghost predicate UsedOtherwise(s: Slab, p: nat) { exists u :: UsedFor(s, p, u) && !u.LargeBlock? }

  /** In every state of every run from rt_system_heap_init, every page is free, of the page table, of a zone in service
      or set aside, or of a large block; of the zones set aside there are two at most, and in service one at most of
      each class without a chunk in use. */
  lemma {:induction false} SlabConserves(ss: seq<Slab>, steps: seq<SlabStep>, npages: nat, i: nat)
    requires SlabRun(ss, steps) && npages > 0 && ss[0] == Init(npages) && i < |ss|
    ensures Accounted(ss[i], npages) && |ss[i].freeZones| <= THRESH
    ensures forall p: nat :: p < npages <==> HasUse(ss[i], p)
  {
    hide SlabInv, SlabNext, SlabEnabled, Init, Accounted;
    InitInv(npages);
    SlabRunInv(ss, steps, i);
    if i == 0 {
      InitAccounted(npages);
    } else {
      SlabConserves(ss, steps, npages, i - 1);
      SlabRunInv(ss, steps, i - 1);
      assert SlabSteps(ss[i - 1], steps[i - 1], ss[i]);
      StepAccounted(ss[i - 1], steps[i - 1], npages);
    }
    hide SlabRun;
    forall p: nat ensures p < npages <==> HasUse(ss[i], p) { PageUsed(ss[i], npages, p); }
    FewAside(ss[i]);
  }

  lemma FewAside(s: Slab)
    requires SlabInv(s)
    ensures |s.freeZones| <= THRESH
  {
  }

  lemma PageUsed(s: Slab, npages: nat, p: nat)
    requires SlabInv(s) && Accounted(s, npages)
    ensures p < npages <==> HasUse(s, p)
  {
    hide ArrayOk, ZonesOk, FreeZonesOk, HeldOk;
    if p < npages {
      if p in P.Pages(s.pages) {
        assert UsedFor(s, p, FreePage);
      } else {
        var a :| a in s.held && a <= p < a + s.held[a];
        if a in s.zones { assert IsZone(s, a) && UsedFor(s, p, InService(a)); }
        else if a in s.freeZones { assert IsZone(s, a) && UsedFor(s, p, SetAside(a)); }
        else if a in s.large { assert UsedFor(s, p, LargeBlock(a)); }
        else { assert UsedFor(s, p, TablePage); }
      }
    }
    forall u | UsedFor(s, p, u) ensures p < npages { UseInside(s, npages, p, u); }
  }

  lemma UseInside(s: Slab, npages: nat, p: nat, u: Use)
    requires SlabInv(s) && PagesAccounted(s.pages, s.held, npages) && UsedFor(s, p, u)
    ensures p < npages
  {
    hide ArrayOk, ZonesOk, FreeZonesOk, HeldOk;
    if !u.FreePage? {
      var a: nat := if u.TablePage? then 0 else u.a;
      if u.InService? || u.SetAside? { assert IsZone(s, a); }
      assert a in s.held && a <= p < a + s.held[a];
      assert HeldPage(s.held, p);
    }
  }

  /** When every block has been given back, all that is not free is the page table, two zones set aside and one zone of
      each class, at most. */
  lemma NothingLost(ss: seq<Slab>, steps: seq<SlabStep>, npages: nat, i: nat)
    requires SlabRun(ss, steps) && npages > 0 && ss[0] == Init(npages) && i < |ss| && forall h :: !IsLive(ss[i], h)
    ensures forall a :: a in ss[i].zones ==> Idle(ss[i].zones[a])
    ensures OneIdle(ss[i].zones) && |ss[i].freeZones| <= THRESH
    ensures forall p: nat :: p < npages ==> UsedOtherwise(ss[i], p)
  {
    hide SlabInv, SlabNext, SlabEnabled, Init, UsedFor;
    InitInv(npages);
    SlabRunInv(ss, steps, i);
    SlabConserves(ss, steps, npages, i);
    hide SlabRun;
    forall a | a in ss[i].zones ensures Idle(ss[i].zones[a]) { NoneInUse(ss[i], a); }
    forall p: nat | p < npages ensures UsedOtherwise(ss[i], p) {
      assert HasUse(ss[i], p);
      var u :| UsedFor(ss[i], p, u);
      if u.LargeBlock? { BlockLive(ss[i], p, u); assert false; }
    }
  }

  lemma BlockLive(s: Slab, p: nat, u: Use)
    requires UsedFor(s, p, u) && u.LargeBlock?
    ensures IsLive(s, Big(u.a))
  {
  }

  /** A zone none of whose chunks is live has them all on its lists. */
  lemma NoneInUse(s: Slab, a: nat)
    requires SlabInv(s) && a in s.zones && forall h :: !IsLive(s, h)
    ensures Idle(s.zones[a])
  {
    hide ArrayOk, HeldOk, UsageOk, FreeZonesOk, Off;
    var z := s.zones[a];
    assert ZoneOk(z, a, s.ZoneSize());
    forall k: nat | k <= z.uindex ensures k in z.free { assert !IsLive(s, Part(a, k)); }
    assert P.Range(0, z.uindex + 1) <= SetOf(z.free);
    SubsetSize(P.Range(0, z.uindex + 1), SetOf(z.free));
    RangeCard(0, z.uindex + 1);
    Counted(z);
  }
}
