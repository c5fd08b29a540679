/** The memory behind the zone allocator of rt-thread/src/slab.c: where rt_malloc, rt_free, rt_realloc and the page
    allocator write, and that the allocated blocks keep their bytes. */
module SlabMemory {
  import opened Seqs
  import opened SlabZones
  import P = SlabPages

  /** Bytes by address. */
  type Memory = int -> int

  /** Byte i of the block at an address. */
  function Byte(m: Memory, at: int, i: int): int { m(at + i) }

  // ---------- where the allocator writes ----------

  /** The bytes from up to from + len. */
  datatype Place = Place(from: int, len: int)

  /** The slab_zone at the start of a zone. */
  function HeaderAt(a: nat): Place { Place(a * PAGE, HEADER) }

  /** next and page of the rt_page_head at the start of a page. */
  function PageHeadAt(p: nat): Place { Place(p * PAGE, 8) }

  /** c_next of a chunk. */
  function LinkAt(z: Zone, k: nat): Place { Place(Chunk(z, k), 4) }

  /** memusage, which rt_system_heap_init put into the first pages. */
  function TableAt(s: Slab): Place
    requires 0 in s.held
  {
    Place(0, s.held[0] * PAGE)
  }

  /** The page table is in a run of pages of its own. */
  ghost predicate TableOk(s: Slab) {
    0 in s.held && !IsZone(s, 0) && 0 !in s.large
  }

  /** rt_page_alloc; before is the head whose next is *prev, if that is not the list itself. */
  function PageTakes(l: seq<P.Run>, n: nat, before: set<Place>): set<Place> {
    if n == 0 || l == [] then {}
    else if l[0].n > n then before + {PageHeadAt(l[0].page + n)}
    else if l[0].n == n then before
    else PageTakes(l[1..], n, {PageHeadAt(l[0].page)})
  }

  /** rt_page_free */
  function PageGives(l: seq<P.Run>, p: nat, n: nat, before: set<Place>): set<Place> {
    if l == [] then before + {PageHeadAt(p)}
    else if l[0].page + l[0].n == p then {PageHeadAt(l[0].page)}
    else if l[0].page >= p + n then before + {PageHeadAt(p)}
    else PageGives(l[1..], p, n, {PageHeadAt(l[0].page)})
  }

  /** rt_malloc */
  ghost function MallocPlaces(s: Slab, size: int): set<Place>
    requires SlabInv(s) && TableOk(s) && 0 <= size < WORD
  {
    if size == 0 then {}
    else if size >= s.ZoneLimit() then
      if P.Alloc(s.pages, LargePages(size)).Got? then PageTakes(s.pages, LargePages(size), {}) + {TableAt(s)} else {}
    else SmallPlaces(s, size)
  }

  ghost function SmallPlaces(s: Slab, size: int): set<Place>
    requires SlabInv(s) && TableOk(s) && 0 < size < s.ZoneLimit()
  {
    ZoneIndexIsTightest(size);
    var zi := ZoneIndex(size).0;
    if s.zoneArray[zi] != [] then {HeaderAt(s.zoneArray[zi][0])}
    else if s.freeZones != [] then {HeaderAt(s.freeZones[0])}
    else
      match P.Alloc(s.pages, s.zonePages)
      case Nothing => {}
      case Got(_, a) => PageTakes(s.pages, s.zonePages, {}) + {TableAt(s), HeaderAt(a)}
  }

  /** Does rt_free of chunk k retire its zone, and is a free zone then given back? It is the one just retired. */
  ghost predicate Retires(s: Slab, a: nat, k: nat)
    requires SlabInv(s) && IsLive(s, Part(a, k))
  {
    FreeChunkInv(s, a, k);
    var s1 := FreeChunk(s, a, k);
    s1.zones[a].nfree == s1.zones[a].nmax && |s1.zoneArray[s1.zones[a].index]| > 1
  }

  /** rt_free of a live block. A zone is retired through the header of the one before it in its list. */
  ghost function FreePlaces(s: Slab, h: Handle): set<Place>
    requires SlabInv(s) && TableOk(s) && IsLive(s, h)
  {
    match h
    case Big(a) => PageGives(s.pages, a, s.large[a], {}) + {TableAt(s)}
    case Part(a, k) =>
      FreeChunkInv(s, a, k);
      var s1 := FreeChunk(s, a, k);
      {LinkAt(s.zones[a], k), HeaderAt(a)}
      + (if Retires(s, a, k) then set b | b in s1.zoneArray[s1.zones[a].index] :: HeaderAt(b) else {})
      + (if Retires(s, a, k) && s.freeCnt + 1 > THRESH then PageGives(s.pages, a, s.zonePages, {}) + {TableAt(s)} else {})
  }

  /** m1 is m but for what was written into the places. */
  ghost predicate Wrote(m: Memory, m1: Memory, places: set<Place>) {
    forall at, i :: (forall p :: p in places ==> !(p.from <= at + i < p.from + p.len)) ==> Byte(m1, at, i) == Byte(m, at, i)
  }

  // ---------- they are apart from the allocated blocks ----------

  ghost predicate Apart(s: Slab, h: Handle, p: Place)
    requires IsLive(s, h)
  {
    p.from + p.len <= Address(s, h) || Address(s, h) + Length(s, h) <= p.from
  }

  /** The headers of zones in service are apart from every allocated block, */
  lemma HeaderApart(s: Slab, a: nat, h: Handle)
    requires SlabInv(s) && a in s.zones && IsLive(s, h)
    ensures a * PAGE + HEADER <= Address(s, h) || Address(s, h) + Length(s, h) <= a * PAGE
  {
    assert IsZone(s, a) && ZoneOk(s.zones[a], a, s.ZoneSize());
    LiveInHeld(s, h);
    if h.a == a {
      ChunkInside(s.zones[a], a, s.ZoneSize(), h.k);
    } else {
      assert a + s.held[a] <= h.a || h.a + s.held[h.a] <= a;
      assert s.held[a] == s.zonePages;
      hide ZoneOk;
    }
  }

  /** and the links in free chunks. */
  lemma FreeChunkApart(s: Slab, a: nat, k: nat, h: Handle)
    requires SlabInv(s) && a in s.zones && k < s.zones[a].nmax && !IsLive(s, Part(a, k)) && IsLive(s, h)
    ensures var z := s.zones[a]; Chunk(z, k) + z.size <= Address(s, h) || Address(s, h) + Length(s, h) <= Chunk(z, k)
  {
    assert IsZone(s, a) && ZoneOk(s.zones[a], a, s.ZoneSize());
    ChunkInside(s.zones[a], a, s.ZoneSize(), k);
    LiveInHeld(s, h);
    if h.a == a {
      var z := s.zones[a];
      assert h.Part? && h.k != k;
      if h.k < k { ChunksApart(z, h.k, k); } else { ChunksApart(z, k, h.k); }
    } else {
      assert a + s.held[a] <= h.a || h.a + s.held[h.a] <= a;
      assert s.held[a] == s.zonePages;
      hide ZoneOk;
    }
  }

  /** The header of any zone, in service or free. */
  lemma ZoneHeaderApart(s: Slab, a: nat, h: Handle)
    requires SlabInv(s) && IsZone(s, a) && IsLive(s, h)
    ensures Apart(s, h, HeaderAt(a))
  {
    if a in s.zones {
      HeaderApart(s, a, h);
    } else {
      FreeZoneHeld(s, a, h);
      HeldPageApart(s, a, a, h, HEADER);
    }
  }

  lemma FreeZoneHeld(s: Slab, a: nat, h: Handle)
    requires SlabInv(s) && a in s.freeZones && IsLive(s, h)
    ensures a in s.held && s.held[a] > 0 && h.a != a
  {
    hide ArrayOk, ZonesOk;
    assert IsZone(s, a);
  }

  /** A page of a run handed out that h is not in. */
  lemma HeldPageApart(s: Slab, a: nat, p: nat, h: Handle, len: int)
    requires SlabInv(s) && IsLive(s, h) && a in s.held && h.a != a && a <= p < a + s.held[a] && 0 <= len <= PAGE
    ensures Apart(s, h, Place(p * PAGE, len))
  {
    hide UsageOk, ArrayOk, FreeZonesOk, ZonesOk;
    LiveInHeld(s, h);
    assert a + s.held[a] <= h.a || h.a + s.held[h.a] <= a;
  }

  lemma FreePageApart(s: Slab, p: nat, h: Handle, len: int)
    requires SlabInv(s) && IsLive(s, h) && p in P.Pages(s.pages) && 0 <= len <= PAGE
    ensures Apart(s, h, Place(p * PAGE, len))
  {
    hide UsageOk, ArrayOk, FreeZonesOk, ZonesOk, P.Canonical;
    LiveInHeld(s, h);
    assert p !in P.Range(h.a, s.held[h.a]);
  }

  lemma TableApart(s: Slab, h: Handle)
    requires SlabInv(s) && TableOk(s) && IsLive(s, h)
    ensures Apart(s, h, TableAt(s))
  {
    hide ArrayOk, FreeZonesOk, ZonesOk;
    LiveInHeld(s, h);
    assert h.a != 0 by { if h.Part? { assert IsZone(s, h.a); } }
  }

  // ---------- the page allocator ----------

  ghost predicate FreeHead(l: seq<P.Run>, pl: Place) {
    exists p: nat :: p in P.Pages(l) && pl == PageHeadAt(p)
  }

  /** rt_page_alloc writes into heads of free pages only. */
  lemma {:induction false} TakesFree(l: seq<P.Run>, n: nat, before: set<Place>, pl: Place)
    requires (forall i :: 0 <= i < |l| ==> l[i].n > 0) && pl in PageTakes(l, n, before)
    ensures pl in before || FreeHead(l, pl)
  {
    hide P.Range;
    if n > 0 && l != [] {
      assert l[0].page in P.Pages(l);
      if l[0].n > n {
        assert l[0].page + n in P.Pages(l);
      } else if l[0].n < n {
        TakesFree(l[1..], n, {PageHeadAt(l[0].page)}, pl);
        if FreeHead(l[1..], pl) { LaterHead(l, pl); }
      }
    }
  }

  lemma LaterHead(l: seq<P.Run>, pl: Place)
    requires l != [] && FreeHead(l[1..], pl)
    ensures FreeHead(l, pl)
  {
    var p: nat :| p in P.Pages(l[1..]) && pl == PageHeadAt(p);
    assert p in P.Pages(l);
  }

  /** rt_page_free writes into heads of free pages and of the run given back. */
  lemma {:induction false} GivesFree(l: seq<P.Run>, p: nat, n: nat, before: set<Place>, pl: Place)
    requires (forall i :: 0 <= i < |l| ==> l[i].n > 0) && pl in PageGives(l, p, n, before)
    ensures pl in before || FreeHead(l, pl) || pl == PageHeadAt(p)
  {
    hide P.Range;
    if l != [] {
      assert l[0].page in P.Pages(l);
      if l[0].page + l[0].n != p && l[0].page < p + n {
        GivesFree(l[1..], p, n, {PageHeadAt(l[0].page)}, pl);
        if FreeHead(l[1..], pl) { LaterHead(l, pl); }
      }
    }
  }

  lemma PageListRuns(s: Slab)
    requires SlabInv(s)
    ensures forall i :: 0 <= i < |s.pages| ==> s.pages[i].n > 0
  {
    hide UsageOk, ArrayOk, FreeZonesOk, ZonesOk;
  }

  lemma FreeHeadApart(s: Slab, pl: Place, h: Handle)
    requires SlabInv(s) && IsLive(s, h) && FreeHead(s.pages, pl)
    ensures Apart(s, h, pl)
  {
    hide SlabInv;
    var p: nat :| p in P.Pages(s.pages) && pl == PageHeadAt(p);
    FreePageApart(s, p, h, 8);
  }

  // ---------- rt_malloc and rt_free ----------

  lemma TakesApart(s: Slab, n: nat, pl: Place, h: Handle)
    requires SlabInv(s) && IsLive(s, h) && pl in PageTakes(s.pages, n, {})
    ensures Apart(s, h, pl)
  {
    hide SlabInv;
    PageListRuns(s);
    TakesFree(s.pages, n, {}, pl);
    FreeHeadApart(s, pl, h);
  }

  lemma {:induction false} TakenFree(l: seq<P.Run>, n: nat)
    requires P.Alloc(l, n).Got? && forall i :: 0 <= i < |l| ==> l[i].n > 0
    ensures P.Alloc(l, n).page in P.Pages(l)
  {
    hide P.Range;
    if l[0].n < n {
      TakenFree(l[1..], n);
    } else {
      assert l[0].page in P.Range(l[0].page, l[0].n);
    }
  }

  /** Whatever rt_malloc writes is apart from every block that is allocated. */
  lemma MallocApart(s: Slab, size: int, pl: Place, h: Handle)
    requires SlabInv(s) && TableOk(s) && 0 <= size < WORD && IsLive(s, h) && pl in MallocPlaces(s, size)
    ensures Apart(s, h, pl)
  {
    hide SlabInv, Apart, PageTakes, SmallPlaces;
    if size >= s.ZoneLimit() {
      if pl == TableAt(s) { TableApart(s, h); } else { TakesApart(s, LargePages(size), pl, h); }
    } else {
      SmallApart(s, size, pl, h);
    }
  }

  lemma SmallApart(s: Slab, size: int, pl: Place, h: Handle)
    requires SlabInv(s) && TableOk(s) && 0 < size < s.ZoneLimit() && IsLive(s, h) && pl in SmallPlaces(s, size)
    ensures Apart(s, h, pl)
  {
    hide SlabInv, Apart, PageTakes, ZoneIndex;
    ZoneIndexIsTightest(size);
    ArrayLength(s);
    var zi := ZoneIndex(size).0;
    if s.zoneArray[zi] != [] {
      ListedZone(s, zi);
      ZoneHeaderApart(s, s.zoneArray[zi][0], h);
    } else if s.freeZones != [] {
      ZoneHeaderApart(s, s.freeZones[0], h);
    } else if pl == TableAt(s) {
      TableApart(s, h);
    } else if pl in PageTakes(s.pages, s.zonePages, {}) {
      TakesApart(s, s.zonePages, pl, h);
    } else {
      PageListRuns(s);
      TakenFree(s.pages, s.zonePages);
      FreePageApart(s, P.Alloc(s.pages, s.zonePages).page, h, HEADER);
    }
  }

  lemma ArrayLength(s: Slab)
    requires SlabInv(s)
    ensures |s.zoneArray| == NZONES
  {
  }

  /** Whatever rt_free of one block writes is apart from every other block that is allocated. */
  lemma FreeApart(s: Slab, h: Handle, pl: Place, g: Handle)
    requires SlabInv(s) && TableOk(s) && IsLive(s, h) && IsLive(s, g) && g != h && pl in FreePlaces(s, h)
    ensures Apart(s, g, pl)
  {
    hide SlabInv, Apart, PageGives, Retires;
    if pl == TableAt(s) {
      TableApart(s, g);
    } else if h.Big? {
      LargeApart(s, h, pl, g);
    } else {
      PartApart(s, h, pl, g);
    }
  }

  lemma LargeApart(s: Slab, h: Handle, pl: Place, g: Handle)
    requires SlabInv(s) && IsLive(s, h) && h.Big? && IsLive(s, g) && g != h && pl in PageGives(s.pages, h.a, s.large[h.a], {})
    ensures Apart(s, g, pl)
  {
    hide SlabInv, Apart, PageGives;
    OtherRun(s, h, g);
    PageListRuns(s);
    GivesFree(s.pages, h.a, s.large[h.a], {}, pl);
    if pl == PageHeadAt(h.a) { HeldPageApart(s, h.a, h.a, g, 8); } else { FreeHeadApart(s, pl, g); }
  }

  /** A large block is in a run of pages of its own. */
  lemma OtherRun(s: Slab, h: Handle, g: Handle)
    requires SlabInv(s) && IsLive(s, h) && h.Big? && IsLive(s, g) && g != h
    ensures h.a in s.held && s.held[h.a] > 0 && g.a != h.a
  {
    hide ArrayOk, FreeZonesOk, ZonesOk;
    if g.Part? { assert IsZone(s, g.a); }
  }

  lemma PartApart(s: Slab, h: Handle, pl: Place, g: Handle)
    requires SlabInv(s) && TableOk(s) && IsLive(s, h) && h.Part? && IsLive(s, g) && g != h
    requires pl in FreePlaces(s, h) && pl != TableAt(s)
    ensures Apart(s, g, pl)
  {
    hide SlabInv, Apart, PageGives, Retires;
    FreeChunkInv(s, h.a, h.k);
    var s1 := FreeChunk(s, h.a, h.k);
    if pl == LinkAt(s.zones[h.a], h.k) {
      LinkApart(s, h, g);
    } else if pl == HeaderAt(h.a) {
      ZoneHeaderApart(s, h.a, g);
    } else if Retires(s, h.a, h.k) {
      if pl in PageGives(s.pages, h.a, s.zonePages, {}) {
        RetiredApart(s, h, pl, g);
      } else {
        var b :| b in s1.zoneArray[s1.zones[h.a].index] && pl == HeaderAt(b);
        ListedIsZone(s1, s1.zones[h.a].index, b);
        ZoneHeaderApart(s, b, g);
      }
    }
  }

  lemma LinkApart(s: Slab, h: Handle, g: Handle)
    requires SlabInv(s) && IsLive(s, h) && h.Part? && IsLive(s, g) && g != h
    ensures Apart(s, g, LinkAt(s.zones[h.a], h.k))
  {
    LiveZone(s, h);
    ZoneSizes(s.zones[h.a], h.a, s.ZoneSize());
    hide SlabInv, ZoneOk;
    LiveDisjoint(s, g, h);
  }

  lemma ListedIsZone(s: Slab, i: int, b: nat)
    requires SlabInv(s) && 0 <= i < |s.zoneArray| && b in s.zoneArray[i]
    ensures b in s.zones
  {
  }

  /** A zone that is retired and given back holds no other block. */
  lemma RetiredApart(s: Slab, h: Handle, pl: Place, g: Handle)
    requires SlabInv(s) && IsLive(s, h) && h.Part? && IsLive(s, g) && g != h && Retires(s, h.a, h.k)
    requires pl in PageGives(s.pages, h.a, s.zonePages, {})
    ensures Apart(s, g, pl)
  {
    hide SlabInv, Apart, PageGives, FreeChunk;
    FreeChunkInv(s, h.a, h.k);
    NobodyElse(s, h, g);
    ZoneHeld(s, h);
    PageListRuns(s);
    GivesFree(s.pages, h.a, s.zonePages, {}, pl);
    if pl == PageHeadAt(h.a) { HeldPageApart(s, h.a, h.a, g, 8); } else { FreeHeadApart(s, pl, g); }
  }

  lemma NobodyElse(s: Slab, h: Handle, g: Handle)
    requires SlabInv(s) && IsLive(s, h) && h.Part? && IsLive(s, g) && g != h && Retires(s, h.a, h.k)
    ensures g.Part? ==> g.a != h.a
  {
    hide SlabInv;
    FreeChunkInv(s, h.a, h.k);
    var s1 := FreeChunk(s, h.a, h.k);
    if g.Part? && g.a == h.a {
      assert IsLive(s1, g);
      LiveZone(s1, g);
      hide ZoneOk, FreeChunk;
      AllFree(s1.zones[h.a], h.a, s1.ZoneSize(), g.k);
    }
  }

  lemma ZoneHeld(s: Slab, h: Handle)
    requires SlabInv(s) && IsLive(s, h) && h.Part?
    ensures h.a in s.held && s.held[h.a] > 0 && h.a !in s.large
  {
    hide ArrayOk, FreeZonesOk, ZonesOk;
    assert IsZone(s, h.a);
  }

  // ---------- what the blocks keep ----------

  lemma PlacesKeep(s: Slab, m: Memory, m1: Memory, places: set<Place>, h: Handle)
    requires IsLive(s, h) && Wrote(m, m1, places) && forall p :: p in places ==> Apart(s, h, p)
    ensures forall i :: 0 <= i < Length(s, h) ==> Byte(m1, Address(s, h), i) == Byte(m, Address(s, h), i)
  {
    hide IsLive, Address, Length;
    forall i | 0 <= i < Length(s, h) ensures Byte(m1, Address(s, h), i) == Byte(m, Address(s, h), i) {
      forall p | p in places ensures !(p.from <= Address(s, h) + i < p.from + p.len) { assert Apart(s, h, p); }
    }
  }

  /** rt_malloc leaves the bytes of every allocated block alone. */
  lemma MallocKeeps(s: Slab, size: int, m: Memory, m1: Memory, h: Handle)
    requires SlabInv(s) && TableOk(s) && 0 <= size < WORD && IsLive(s, h) && Wrote(m, m1, MallocPlaces(s, size))
    ensures forall i :: 0 <= i < Length(s, h) ==> Byte(m1, Address(s, h), i) == Byte(m, Address(s, h), i)
  {
    hide SlabInv, Apart, MallocPlaces, Wrote;
    forall p | p in MallocPlaces(s, size) ensures Apart(s, h, p) { MallocApart(s, size, p, h); }
    PlacesKeep(s, m, m1, MallocPlaces(s, size), h);
  }

  /** rt_free leaves the bytes of every other allocated block alone. */
  lemma FreeKeeps(s: Slab, g: Handle, m: Memory, m1: Memory, h: Handle)
    requires SlabInv(s) && TableOk(s) && IsLive(s, g) && IsLive(s, h) && h != g && Wrote(m, m1, FreePlaces(s, g))
    ensures forall i :: 0 <= i < Length(s, h) ==> Byte(m1, Address(s, h), i) == Byte(m, Address(s, h), i)
  {
    hide SlabInv, Apart, FreePlaces, Wrote;
    forall p | p in FreePlaces(s, g) ensures Apart(s, h, p) { FreeApart(s, g, p, h); }
    PlacesKeep(s, m, m1, FreePlaces(s, g), h);
  }

  // ---------- the page table stays ----------

  ghost predicate SameTable(s: Slab, s1: Slab)
    requires TableOk(s)
  {
    TableOk(s1) && s1.held[0] == s.held[0]
  }

  lemma MallocTable(s: Slab, size: int)
    requires SlabInv(s) && TableOk(s) && 0 <= size < WORD
    ensures SameTable(s, Malloc(s, size).0)
  {
    hide SlabInv, TakeChunk, NewZone, ZoneIndex, MarkZone, P.Range;
    if size >= s.ZoneLimit() {
      var n := LargePages(size);
      if P.Alloc(s.pages, n).Got? { FreshPage(s, n); }
    } else if size > 0 {
      SmallTable(s, size);
    }
  }

  lemma FreshPage(s: Slab, n: nat)
    requires SlabInv(s) && TableOk(s) && P.Alloc(s.pages, n).Got?
    ensures P.Alloc(s.pages, n).page != 0
  {
    hide UsageOk, ArrayOk, FreeZonesOk, ZonesOk, P.Canonical;
    PageListRuns(s);
    TakenFree(s.pages, n);
    assert 0 in P.Range(0, s.held[0]);
  }

  lemma SmallTable(s: Slab, size: int)
    requires SlabInv(s) && TableOk(s) && 0 < size < s.ZoneLimit()
    ensures SameTable(s, MallocSmall(s, size).0)
  {
    hide SlabInv, ZoneIndex, MarkZone, Off, SizeOf;
    ZoneIndexIsTightest(size);
    ArrayLength(s);
    var zi := ZoneIndex(size).0;
    if s.zoneArray[zi] != [] {
      ListedZone(s, zi);
      assert TakeChunk(s, zi).0.zones.Keys == s.zones.Keys;
    } else {
      if s.freeZones != [] { assert IsZone(s, s.freeZones[0]); }
      else if P.Alloc(s.pages, s.zonePages).Got? { FreshPage(s, s.zonePages); }
    }
  }

  lemma FreeTable(s: Slab, h: Handle)
    requires SlabInv(s) && TableOk(s) && IsLive(s, h)
    ensures Freeable(s, Address(s, h)) && SameTable(s, Free(s, Address(s, h)))
  {
    hide SlabInv, FreeSmall, FreeLarge, IsLive;
    LookupFinds(s, h);
    var addr := Address(s, h);
    var g :| IsLive(s, g) && Address(s, g) == addr;
    LookupFinds(s, g);
    if h.Big? { BigIsLarge(s, h); LargeTable(s, h.a); } else { FreeChunkInv(s, h.a, h.k); ChunkTable(s, h.a, h.k); }
  }

  lemma LargeTable(s: Slab, a: nat)
    requires TableOk(s) && a in s.large
    ensures SameTable(s, FreeLarge(s, a))
  {
  }

  lemma ChunkTable(s: Slab, a: nat, k: nat)
    requires TableOk(s) && a in s.zones && 0 <= s.zones[a].index < |s.zoneArray|
    ensures SameTable(s, FreeSmall(s, a, k))
  {
    hide Without, UnmarkZone;
  }

  // ---------- rt_realloc ----------

  /** rt_memcpy */
  ghost predicate CopiedOver(m: Memory, m1: Memory, to: int, from: int, len: int) {
    && (forall i :: 0 <= i < len ==> Byte(m1, to, i) == Byte(m, from, i))
    && forall a, i :: !(to <= a + i < to + len) ==> Byte(m1, a, i) == Byte(m, a, i)
  }

  /** How much rt_realloc copies. */
  function CopyLength(s: Slab, h: Handle, size: int): int
    requires IsLive(s, h)
  {
    if Wanted(s, h, size) > Length(s, h) then Length(s, h) else Wanted(s, h, size)
  }

  /** Another block is got, the contents are copied there, and the old block is given back; ma and mb are the memory in
      between. */
  ghost predicate Moved(s: Slab, h: Handle, size: int, m: Memory, ma: Memory, mb: Memory, m1: Memory)
    requires SlabInv(s) && TableOk(s) && IsLive(s, h) && 0 < size < WORD
  {
    WantedRange(s, h, size);
    MallocSpec(s, Wanted(s, h, size));
    MallocTable(s, Wanted(s, h, size));
    var (s0, r) := Malloc(s, Wanted(s, h, size));
    && r.Ptr? && Wrote(m, ma, MallocPlaces(s, Wanted(s, h, size)))
    && CopiedOver(ma, mb, Address(s0, r.h), Address(s, h), CopyLength(s, h, size))
    && Wrote(mb, m1, FreePlaces(s0, h))
  }

  /** What rt_realloc makes of the memory: nothing if the chunk stays or there is no other block. */
  ghost predicate Reallocated(s: Slab, h: Handle, size: int, m: Memory, m1: Memory)
    requires SlabInv(s) && TableOk(s) && IsLive(s, h) && 0 < size < WORD
  {
    if Realloc(s, h, size).1 in {Null, Ptr(h)} then forall a, i :: Byte(m1, a, i) == Byte(m, a, i)
    else exists ma, mb :: Moved(s, h, size, m, ma, mb, m1)
  }

  /** A block that moved has room for all that is copied. */
  lemma MovedRoom(s: Slab, h: Handle, size: int)
    requires SlabInv(s) && IsLive(s, h) && 0 < size < WORD
    ensures 0 <= Wanted(s, h, size) < WORD && SlabInv(Malloc(s, Wanted(s, h, size)).0)
    ensures var (s0, r) := Malloc(s, Wanted(s, h, size));
      r.Ptr? ==> Allocated(s, s0, r.h, Wanted(s, h, size)) && 0 <= CopyLength(s, h, size) <= Length(s0, r.h)
    ensures size <= CopyLength(s, h, size) || Length(s, h) <= CopyLength(s, h, size)
    ensures CopyLength(s, h, size) <= Length(s, h)
  {
    hide SlabInv, Malloc, Wanted, Address;
    WantedRange(s, h, size);
    MallocSpec(s, Wanted(s, h, size));
    LiveInHeld(s, h);
  }

  /** After a move the new block holds what was copied, and every other block what it held. */
  lemma MovedBytes(s: Slab, h: Handle, size: int, m: Memory, ma: Memory, mb: Memory, m1: Memory)
    requires SlabInv(s) && TableOk(s) && IsLive(s, h) && 0 < size < WORD && Moved(s, h, size, m, ma, mb, m1)
    ensures 0 <= Wanted(s, h, size) < WORD
    ensures var (s0, r) := Malloc(s, Wanted(s, h, size));
      r.Ptr? && IsLive(s0, r.h) && forall i :: 0 <= i < CopyLength(s, h, size) ==> Byte(m1, Address(s0, r.h), i) == Byte(m, Address(s, h), i)
    ensures forall g, i :: IsLive(s, g) && g != h && 0 <= i < Length(s, g) ==> Byte(m1, Address(s, g), i) == Byte(m, Address(s, g), i)
  {
    hide SlabInv, Malloc, Wanted, CopyLength, Address, Length, IsLive, Wrote, MallocPlaces, FreePlaces;
    var n := Wanted(s, h, size);
    MovedRoom(s, h, size);
    MallocTable(s, n);
    var (s0, r) := Malloc(s, n);
    MallocKeeps(s, n, m, ma, h);
    FreeKeeps(s0, h, mb, m1, r.h);
    forall g, i | IsLive(s, g) && g != h && 0 <= i < Length(s, g) ensures Byte(m1, Address(s, g), i) == Byte(m, Address(s, g), i) {
      MallocKeeps(s, n, m, ma, g);
      LiveDisjoint(s0, g, r.h);
      FreeKeeps(s0, h, mb, m1, g);
      assert Byte(mb, Address(s, g), i) == Byte(ma, Address(s, g), i);
    }
  }

  /** The block that rt_realloc returns begins with the old contents, as far as they fit; every other block has kept its
      own. */
  lemma ReallocContents(s: Slab, h: Handle, size: int, m: Memory, m1: Memory)
    requires SlabInv(s) && TableOk(s) && IsLive(s, h) && 0 < size < WORD && Reallocated(s, h, size, m, m1)
    ensures var (s1, r) := Realloc(s, h, size);
      r.Ptr? ==> IsLive(s1, r.h) && Length(s1, r.h) >= size
                 && forall i :: 0 <= i < size && i < Length(s, h) ==> Byte(m1, Address(s1, r.h), i) == Byte(m, Address(s, h), i)
    ensures var (s1, r) := Realloc(s, h, size);
      forall g, i :: IsLive(s, g) && (g != h || r.Null?) && 0 <= i < Length(s, g) ==>
        IsLive(s1, g) && Address(s1, g) == Address(s, g) && Byte(m1, Address(s, g), i) == Byte(m, Address(s, g), i)
  {
    hide SlabInv, Realloc, Malloc, Free, Wanted, CopyLength, Address, Length, IsLive, Moved;
    ReallocSpec(s, h, size);
    var (s1, r) := Realloc(s, h, size);
    if r !in {Null, Ptr(h)} {
      var ma, mb :| Moved(s, h, size, m, ma, mb, m1);
      MovedBytes(s, h, size, m, ma, mb, m1);
      MovedRoom(s, h, size);
      SameBlock(s, h, size);
    } else {
      NotMoved(s, h, size);
    }
  }

  lemma NotMoved(s: Slab, h: Handle, size: int)
    requires SlabInv(s) && IsLive(s, h) && 0 < size < WORD && Realloc(s, h, size).1 in {Null, Ptr(h)}
    ensures Realloc(s, h, size).0 == s
  {
    hide SlabInv, Malloc, Free, Wanted, IsLive, Address, Length;
    WantedRange(s, h, size);
    MallocSpec(s, Wanted(s, h, size));
  }

  /** The block returned is where rt_malloc put it. */
  lemma SameBlock(s: Slab, h: Handle, size: int)
    requires SlabInv(s) && IsLive(s, h) && 0 < size < WORD && Realloc(s, h, size).1 !in {Null, Ptr(h)}
    ensures 0 <= Wanted(s, h, size) < WORD
    ensures var ((s0, q), (s1, r)) := (Malloc(s, Wanted(s, h, size)), Realloc(s, h, size));
      q == r && IsLive(s0, r.h) && IsLive(s1, r.h) && Address(s1, r.h) == Address(s0, r.h)
  {
    hide SlabInv, Malloc, Free, Wanted, IsLive, Address, Length;
    WantedRange(s, h, size);
    MallocSpec(s, Wanted(s, h, size));
    var (s0, q) := Malloc(s, Wanted(s, h, size));
    if q.Ptr? { FreeBlockSpec(s0, h); }
  }

  lemma ReallocTable(s: Slab, h: Handle, size: int)
    requires SlabInv(s) && TableOk(s) && IsLive(s, h) && 0 < size < WORD
    ensures SameTable(s, Realloc(s, h, size).0)
  {
    hide SlabInv, Malloc, Free, Wanted, IsLive, Address, Length;
    WantedRange(s, h, size);
    var n := Wanted(s, h, size);
    MallocSpec(s, n);
    MallocTable(s, n);
    var (s0, q) := Malloc(s, n);
    if q.Ptr? { FreeTable(s0, h); }
  }

  // ---------- runs ----------

  datatype Heap = Heap(s: Slab, m: Memory)

  /** A call, or a byte that a caller writes into a block it has. */
  datatype MemStep = Call(op: SlabStep) | Write(h: Handle, i: int, b: int)

  ghost predicate HeapOk(x: Heap) { SlabInv(x.s) && TableOk(x.s) }

  ghost predicate Stored(m: Memory, m1: Memory, at: int, i: int, b: int) {
    && Byte(m1, at, i) == b
    && forall a, j :: a + j != at + i ==> Byte(m1, a, j) == Byte(m, a, j)
  }

  /** The step is possible and leads from x to x1; what exactly the allocator writes into its places is left open. */
  ghost predicate Leads(x: Heap, step: MemStep, x1: Heap)
    requires HeapOk(x)
  {
    match step
    case Write(h, i, b) => IsLive(x.s, h) && 0 <= i < Length(x.s, h) && x1.s == x.s && Stored(x.m, x1.m, Address(x.s, h), i, b)
    case Call(op) =>
      SlabEnabled(x.s, op) && x1.s == SlabNext(x.s, op) &&
      match op
      case MallocStep(size) => Wrote(x.m, x1.m, MallocPlaces(x.s, size))
      case FreeStep(h) => Wrote(x.m, x1.m, FreePlaces(x.s, h))
      case ReallocStep(h, size) => Reallocated(x.s, h, size, x.m, x1.m)
  }

  /** A step by which nobody gives back, moves or writes block h. */
  predicate Spares(step: MemStep, h: Handle) {
    match step
    case Write(g, _, _) => g != h
    case Call(op) => op.MallocStep? || op.h != h
  }

  ghost predicate SameBytes(x: Heap, x1: Heap, h: Handle)
    requires IsLive(x.s, h)
  {
    && IsLive(x1.s, h) && Address(x1.s, h) == Address(x.s, h) && Length(x1.s, h) == Length(x.s, h)
    && forall i :: 0 <= i < Length(x.s, h) ==> Byte(x1.m, Address(x.s, h), i) == Byte(x.m, Address(x.s, h), i)
  }

  lemma StepOk(x: Heap, step: MemStep, x1: Heap)
    requires HeapOk(x) && Leads(x, step, x1)
    ensures HeapOk(x1) && SameTable(x.s, x1.s)
  {
    hide SlabInv, TableOk, Malloc, Free, Realloc, Wrote, Reallocated, MallocPlaces, FreePlaces, Stored;
    if step.Call? {
      SlabStepInv(x.s, step.op);
      match step.op {
        case MallocStep(size) => MallocTable(x.s, size);
        case FreeStep(h) => FreeTable(x.s, h);
        case ReallocStep(h, size) => ReallocTable(x.s, h, size);
      }
    }
  }

  /** A step that spares a block leaves it where it is and its bytes as they are. */
  lemma StepKeeps(x: Heap, step: MemStep, x1: Heap, h: Handle)
    requires HeapOk(x) && Leads(x, step, x1) && IsLive(x.s, h) && Spares(step, h)
    ensures SameBytes(x, x1, h)
  {
    hide SlabInv, TableOk, Malloc, Free, Realloc, Wrote, Reallocated, MallocPlaces, FreePlaces, Address, Length, IsLive;
    match step {
      case Write(g, i, b) => LiveDisjoint(x.s, g, h);
      case Call(op) =>
        match op {
          case MallocStep(size) => MallocSpec(x.s, size); MallocKeeps(x.s, size, x.m, x1.m, h);
          case FreeStep(g) => FreeBlockSpec(x.s, g); FreeKeeps(x.s, g, x.m, x1.m, h);
          case ReallocStep(g, size) => ReallocSpec(x.s, g, size); ReallocContents(x.s, g, size, x.m, x1.m);
        }
    }
  }

  /** A step from x to x1; that the invariant holds in every state of a run is shown, not assumed. */
  ghost predicate HeapSteps(x: Heap, step: MemStep, x1: Heap) {
    HeapOk(x) ==> Leads(x, step, x1)
  }

  ghost predicate HeapRun(xs: seq<Heap>, steps: seq<MemStep>) {
    |xs| == |steps| + 1 && forall i :: 0 <= i < |steps| ==> HeapSteps(xs[i], steps[i], xs[i + 1])
  }

  lemma {:induction false} HeapRunOk(xs: seq<Heap>, steps: seq<MemStep>, i: nat)
    requires HeapRun(xs, steps) && HeapOk(xs[0]) && i < |xs|
    ensures HeapOk(xs[i])
  {
    hide HeapOk, Leads;
    if i > 0 {
      HeapRunOk(xs, steps, i - 1);
      assert HeapSteps(xs[i - 1], steps[i - 1], xs[i]);
      StepOk(xs[i - 1], steps[i - 1], xs[i]);
    }
  }

  lemma InitOk(npages: nat)
    requires npages > 0
    ensures SlabInv(Init(npages)) && TableOk(Init(npages)) && Init(npages).held[0] == TablePages(npages)
  {
    hide TablePages, SlabInv;
    TableTaken(npages);
    TableFits(npages);
    InitInv(npages);
  }

  lemma TableFits(npages: nat)
    requires npages > 0
    ensures TablePages(npages) <= npages
  {
  }

  /** In any run from rt_system_heap_init, a block that nobody gives back, moves or writes between two points keeps its
      place and every byte, whatever the allocator does for the other blocks. */
  lemma {:induction false} BlockPersists(xs: seq<Heap>, steps: seq<MemStep>, npages: nat, lo: nat, hi: nat, h: Handle)
    requires HeapRun(xs, steps) && xs[0].s == Init(npages) && npages > 0
    requires lo <= hi < |xs| && IsLive(xs[lo].s, h) && forall j :: lo <= j < hi ==> Spares(steps[j], h)
    ensures SameBytes(xs[lo], xs[hi], h)
  {
    hide HeapOk, Leads, IsLive, Address, Length, Init, TablePages, Spares, HeapSteps;
    if lo < hi {
      BlockPersists(xs, steps, npages, lo, hi - 1, h);
      StartOk(xs[0], npages);
      HeapRunOk(xs, steps, hi - 1);
      StepAt(xs, steps, hi - 1);
      StepKeeps(xs[hi - 1], steps[hi - 1], xs[hi], h);
    }
  }

  lemma StartOk(x: Heap, npages: nat)
    requires x.s == Init(npages) && npages > 0
    ensures HeapOk(x)
  {
    hide SlabInv, TableOk, Init, TablePages;
    InitOk(npages);
  }

  lemma StepAt(xs: seq<Heap>, steps: seq<MemStep>, i: nat)
    requires HeapRun(xs, steps) && i < |steps| && HeapOk(xs[i])
    ensures Leads(xs[i], steps[i], xs[i + 1])
  {
    hide HeapOk, Leads;
    assert HeapSteps(xs[i], steps[i], xs[i + 1]);
  }
}
