/** The zone allocator of rt-thread/src/slab.c over the page allocator: rt_malloc, rt_free, rt_realloc and
    zoneindex. Addresses are offsets from heap_start; 32-bit build, RT_MM_PAGE_SIZE 4096. */
module SlabZones {
  import opened Seqs
  import opened SlabPages

  const PAGE: int := 4096
  const WORD: int := 0x1_0000_0000
  const NZONES: nat := 72
  const THRESH: nat := 2          // ZONE_RELEASE_THRESH
  const HEADER: int := 36         // sizeof(slab_zone)
  const LIMIT: int := 16384       // ZALLOC_ZONE_LIMIT

  // ---------- size classes ----------

  function RoundUp(n: int, m: int): int
    requires m > 0
  {
    (n + m - 1) / m * m
  }

  /** zoneindex: the zone and the chunk size for a request. */
  function ZoneIndex(n: int): (int, int) {
    if n < 128 then (RoundUp(n, 8) / 8 - 1, RoundUp(n, 8))
    else if n < 256 then (RoundUp(n, 16) / 16 + 7, RoundUp(n, 16))
    else if n < 512 then (RoundUp(n, 32) / 32 + 15, RoundUp(n, 32))
    else if n < 1024 then (RoundUp(n, 64) / 64 + 23, RoundUp(n, 64))
    else if n < 2048 then (RoundUp(n, 128) / 128 + 31, RoundUp(n, 128))
    else if n < 4096 then (RoundUp(n, 256) / 256 + 39, RoundUp(n, 256))
    else if n < 8192 then (RoundUp(n, 512) / 512 + 47, RoundUp(n, 512))
    else if n < 16384 then (RoundUp(n, 1024) / 1024 + 55, RoundUp(n, 1024))
    else (0, n)
  }

  /** The chunk size of each zone. */
  function SizeOf(zi: int): int {
    if zi < 16 then (zi + 1) * 8
    else if zi < 24 then (zi - 7) * 16
    else if zi < 32 then (zi - 15) * 32
    else if zi < 40 then (zi - 23) * 64
    else if zi < 48 then (zi - 31) * 128
    else if zi < 56 then (zi - 39) * 256
    else if zi < 64 then (zi - 47) * 512
    else (zi - 55) * 1024
  }

  /** Chunk sizes grow from zone to zone, so a zone is determined by its chunk size. */
  lemma SizesIncrease(i: int, j: int)
    requires 0 <= i < j < NZONES
    ensures SizeOf(i) < SizeOf(j)
  {
  }

  /** zoneindex picks the zone with the smallest chunks that are large enough. */
  ghost predicate Tightest(n: int) {
    var (zi, c) := ZoneIndex(n);
    0 <= zi < NZONES && c == SizeOf(zi) && n <= c <= LIMIT && (zi > 0 ==> SizeOf(zi - 1) < n)
  }

  /** Rounding up to a multiple of m, as a quotient. */
  lemma Rounded(n: int, m: int, q: int)
    requires m > 0 && q == (n + m - 1) / m
    ensures RoundUp(n, m) == q * m && RoundUp(n, m) / m == q && n <= q * m < n + m
  {
    assert n + m - 1 == q * m + (n + m - 1) % m;
    Quotient(q * m, m, q);
  }

  lemma TightSmallest(n: int)
    requires 0 < n < 256
    ensures Tightest(n)
  {
    hide RoundUp;
    Rounded(n, if n < 128 then 8 else 16, if n < 128 then (n + 7) / 8 else (n + 15) / 16);
  }

  lemma TightSmall(n: int)
    requires 256 <= n < 1024
    ensures Tightest(n)
  {
    hide RoundUp;
    Rounded(n, if n < 512 then 32 else 64, if n < 512 then (n + 31) / 32 else (n + 63) / 64);
  }

  lemma TightMiddle(n: int)
    requires 1024 <= n < 4096
    ensures Tightest(n)
  {
    hide RoundUp;
    Rounded(n, if n < 2048 then 128 else 256, if n < 2048 then (n + 127) / 128 else (n + 255) / 256);
  }

  lemma TightLarge(n: int)
    requires 4096 <= n < LIMIT
    ensures Tightest(n)
  {
    hide RoundUp;
    Rounded(n, if n < 8192 then 512 else 1024, if n < 8192 then (n + 511) / 512 else (n + 1023) / 1024);
  }

  lemma ZoneIndexIsTightest(n: int)
    requires 0 < n < LIMIT
    ensures Tightest(n)
  {
    if n < 256 { TightSmallest(n); } else if n < 1024 { TightSmall(n); } else if n < 4096 { TightMiddle(n); } else { TightLarge(n); }
  }

  /** Asking for a whole chunk gives the same zone again, as rt_realloc relies on. */
  lemma ZoneIndexOfChunk(n: int)
    requires 0 < n < LIMIT && ZoneIndex(n).1 < LIMIT
    ensures ZoneIndex(ZoneIndex(n).1) == ZoneIndex(n)
  {
    ZoneIndexIsTightest(n);
    var (zi, c) := ZoneIndex(n);
    ZoneIndexIsTightest(c);
    var (zi1, c1) := ZoneIndex(c);
    if zi < zi1 - 1 { SizesIncrease(zi, zi1 - 1); }
    if zi1 < zi { SizesIncrease(zi1, zi); }
  }

  predicate PowerOfTwo(n: int) { n == 1 || (n > 1 && n % 2 == 0 && PowerOfTwo(n / 2)) }

  /** Where the chunks begin behind the zone's header. */
  function Off(size: int): int
    requires size > 0
  {
    if PowerOfTwo(size) then RoundUp(HEADER, size) else RoundUp(HEADER, 8)
  }

  lemma SizeRange(zi: int)
    requires 0 <= zi < NZONES
    ensures 8 <= SizeOf(zi) <= LIMIT && SizeOf(zi) % 8 == 0
  {
  }

  lemma OffRange(size: int)
    requires 8 <= size <= LIMIT && size % 8 == 0
    ensures HEADER <= Off(size) && (Off(size) <= 64 || Off(size) == size)
  {
    if size > HEADER { OneStep(size); } else { assert size == 8 || size == 16 || size == 24 || size == 32; }
  }

  lemma OneStep(size: int)
    requires size > HEADER
    ensures RoundUp(HEADER, size) == size
  {
    assert 1 <= (HEADER + size - 1) / size < 2 by { Quotient(HEADER + size - 1, size, 1); }
  }

  lemma Quotient(n: int, m: int, q: int)
    requires m > 0 && q * m <= n < q * m + m
    ensures n / m == q
  {
    var d := n / m;
    assert n == d * m + n % m;
    AtLeast(d - q, m);
    AtLeast(q - d, m);
    assert (d - q) * m == d * m - q * m && (q - d) * m == q * m - d * m;
  }

  lemma AtLeast(a: int, m: int)
    requires m > 0
    ensures a >= 1 ==> a * m >= m
  {
  }

  // ---------- zones ----------

  /** A zone in service; free is its z_freechunk list, chunk k standing for the address base + k * size. */
  datatype Zone = Zone(index: int, size: int, nmax: int, nfree: int, uindex: int, base: int, free: seq<nat>)

  /** What memusage says of a page. */
  datatype Usage = Unused | Small(off: nat) | Large(n: nat)

  /** Zones are named by their first page. zoneArray is zone_array, freeZones the zone_free list; held are the runs of
      pages that rt_page_alloc has handed out, large those that went to callers. */
  datatype Slab = Slab(zonePages: nat, pages: seq<Run>, zones: map<nat, Zone>, zoneArray: seq<seq<nat>>,
                       freeZones: seq<nat>, freeCnt: int, usage: map<nat, Usage>, held: map<nat, nat>, large: map<nat, nat>)
  {
    function ZoneSize(): int { zonePages * PAGE }

    function ZoneLimit(): int { if ZoneSize() / 4 > LIMIT then LIMIT else ZoneSize() / 4 }
  }

  /** The zone sizes rt_system_heap_init chooses from: 32, 64 or 128 KB. */
  predicate ZonePagesOk(n: nat) { n == 8 || n == 16 || n == 32 }

  function Chunk(z: Zone, k: int): int { z.base + k * z.size }

  /** z_nfree counts the chunks never handed out and the length of the free list. */
  ghost predicate ZoneOk(z: Zone, page: nat, zoneSize: int) {
    && 0 <= z.index < NZONES && z.size == SizeOf(z.index) && z.size > 0
    && z.base == page * PAGE + Off(z.size) && z.nmax == (zoneSize - Off(z.size)) / z.size && z.nmax >= 2
    && 0 <= z.uindex < z.nmax && z.nfree == z.nmax - 1 - z.uindex + |z.free|
    && NoDup(z.free) && forall k :: k in z.free ==> k <= z.uindex
  }

  /** Runs of pages that do not overlap. */
  ghost predicate HeldOk(pages: seq<Run>, held: map<nat, nat>) {
    && Canonical(pages)
    && (forall a :: a in held ==> held[a] > 0 && Range(a, held[a]) !! Pages(pages))
    && (forall a, b :: a in held && b in held && a != b ==> a + held[a] <= b || b + held[b] <= a)
  }

  ghost predicate IsZone(s: Slab, a: nat) { a in s.zones || a in s.freeZones }

  /** Zones and large blocks are among the runs handed out, each page of a zone says how far it is from the start
      of the zone, and the first page of a large block says how long that is. */
  ghost predicate UsageOk(s: Slab) {
    && (forall a :: IsZone(s, a) ==> a in s.held && s.held[a] == s.zonePages && a !in s.large)
    && (forall a: nat, p: nat :: IsZone(s, a) && a <= p < a + s.zonePages ==> p in s.usage && s.usage[p] == Small(p - a))
    && (forall a :: a in s.large ==> a in s.held && s.held[a] == s.large[a] && a in s.usage && s.usage[a] == Large(s.large[a]))
  }

  /** A zone is in the list of its index iff it has free chunks. */
  ghost predicate ArrayOk(zones: map<nat, Zone>, zoneArray: seq<seq<nat>>) {
    && |zoneArray| == NZONES
    && (forall i :: 0 <= i < NZONES ==> NoDup(zoneArray[i]))
    && (forall i, a :: 0 <= i < NZONES ==> (a in zoneArray[i] <==> a in zones && zones[a].index == i && zones[a].nfree > 0))
  }

  ghost predicate FreeZonesOk(s: Slab) {
    && NoDup(s.freeZones) && s.freeCnt == |s.freeZones| && s.freeCnt <= THRESH
    && forall a :: a in s.freeZones ==> a !in s.zones
  }

  ghost predicate ZonesOk(zones: map<nat, Zone>, zoneSize: int) {
    forall a :: a in zones ==> ZoneOk(zones[a], a, zoneSize)
  }

  ghost predicate SlabInv(s: Slab) {
    ZonePagesOk(s.zonePages) && ZonesOk(s.zones, s.ZoneSize()) && HeldOk(s.pages, s.held) && UsageOk(s)
    && ArrayOk(s.zones, s.zoneArray) && FreeZonesOk(s)
  }

  // ---------- what the callers have ----------

  datatype Handle = Big(a: nat) | Part(a: nat, k: nat)

  /** The allocated blocks: large ones, and the chunks below the allocation index that are not on a free list. */
  predicate IsLive(s: Slab, h: Handle) {
    match h
    case Big(a) => a in s.large
    case Part(a, k) => a in s.zones && k <= s.zones[a].uindex && k !in s.zones[a].free
  }

  function Address(s: Slab, h: Handle): int
    requires IsLive(s, h)
  {
    match h
    case Big(a) => a * PAGE
    case Part(a, k) => Chunk(s.zones[a], k)
  }

  function Length(s: Slab, h: Handle): int
    requires IsLive(s, h)
  {
    match h
    case Big(a) => s.large[a] * PAGE
    case Part(a, k) => s.zones[a].size
  }

  /** A chunk lies inside its zone, behind the header. */
  lemma ChunkInside(z: Zone, page: nat, zoneSize: int, k: int)
    requires ZoneOk(z, page, zoneSize) && 0 <= k < z.nmax
    ensures page * PAGE + HEADER <= Chunk(z, k) && Chunk(z, k) + z.size <= page * PAGE + zoneSize
  {
    hide Off;
    SizeRange(z.index);
    OffRange(z.size);
    Fits(zoneSize - Off(z.size), z.size, k);
  }

  /** Chunk k of those that room is divided into ends inside the room. */
  lemma Fits(room: int, size: int, k: int)
    requires size > 0 && 0 <= k < room / size
    ensures 0 <= k * size && k * size + size <= room
  {
    var n := room / size;
    assert room == n * size + room % size;
    AtLeastTimes(k, n - 1, size);
    assert (n - 1) * size == n * size - size;
  }

  lemma AtLeastTimes(a: int, b: int, m: int)
    requires 0 <= a <= b && m > 0
    ensures 0 <= a * m <= b * m
  {
  }

  lemma ChunksApart(z: Zone, j: int, k: int)
    requires z.size > 0 && 0 <= j < k
    ensures Chunk(z, j) + z.size <= Chunk(z, k)
  {
    AtLeastTimes(j + 1, k, z.size);
    assert (j + 1) * z.size == j * z.size + z.size;
  }

  /** The pages a live block belongs to. */
  lemma LiveInHeld(s: Slab, h: Handle)
    requires SlabInv(s) && IsLive(s, h)
    ensures h.a in s.held && h.a * PAGE <= Address(s, h) && Address(s, h) + Length(s, h) <= (h.a + s.held[h.a]) * PAGE
    ensures Length(s, h) > 0
  {
    hide ArrayOk, FreeZonesOk;
    match h {
      case Big(a) =>
      case Part(a, k) =>
        assert IsZone(s, a) && ZoneOk(s.zones[a], a, s.ZoneSize());
        ChunkInside(s.zones[a], a, s.ZoneSize(), k);
    }
  }

  /** No two live blocks overlap. */
  lemma LiveDisjoint(s: Slab, g: Handle, h: Handle)
    requires SlabInv(s) && IsLive(s, g) && IsLive(s, h) && g != h
    ensures Address(s, g) + Length(s, g) <= Address(s, h) || Address(s, h) + Length(s, h) <= Address(s, g)
  {
    if g.a == h.a {
      BothParts(s, g, h);
      if g.k < h.k { ChunksApart(s.zones[g.a], g.k, h.k); } else { ChunksApart(s.zones[g.a], h.k, g.k); }
    } else {
      LiveInHeld(s, g);
      LiveInHeld(s, h);
      assert g.a + s.held[g.a] <= h.a || h.a + s.held[h.a] <= g.a;
      hide SlabInv;
    }
  }

  lemma BothParts(s: Slab, g: Handle, h: Handle)
    requires SlabInv(s) && IsLive(s, g) && IsLive(s, h) && g != h && g.a == h.a
    ensures g.Part? && h.Part? && s.zones[g.a].size > 0
  {
    hide HeldOk, ArrayOk, FreeZonesOk;
    if g.Part? || h.Part? { assert IsZone(s, g.a) && ZoneOk(s.zones[g.a], g.a, s.ZoneSize()); }
  }

  /** What the table and the zone headers say about an address leads to handle h. */
  ghost predicate Found(s: Slab, h: Handle, addr: int)
    requires addr >= 0
  {
    var page: nat := addr / PAGE;
    page in s.usage &&
    match s.usage[page]
    case Unused => false
    case Large(n) => h == Big(page) && page in s.large && n == s.large[page]
    case Small(off) =>
      off <= page && page - off in s.zones && s.zones[page - off].size > 0
      && h.Part? && h.a == page - off && h.k == (addr - s.zones[page - off].base) / s.zones[page - off].size
  }

  /** The page table finds the way back from an address: to the zone and the chunk, or to the large block. */
  lemma LookupFinds(s: Slab, h: Handle)
    requires SlabInv(s) && IsLive(s, h)
    ensures Address(s, h) >= 0 && Found(s, h, Address(s, h))
  {
    hide HeldOk, ArrayOk, FreeZonesOk, ZoneOk;
    match h {
      case Big(a) =>
      case Part(a, k) =>
        var z := s.zones[a];
        assert IsZone(s, a) && ZoneOk(z, a, s.ZoneSize());
        ZoneSizePositive(z, a, s.ZoneSize());
        ChunkPage(z, a, s.zonePages, k);
        Quotient(k * z.size, z.size, k);
        hide Chunk;
    }
  }

  lemma ZoneSizePositive(z: Zone, a: nat, zoneSize: int)
    requires ZoneOk(z, a, zoneSize)
    ensures z.size > 0 && z.nmax >= 2 && z.uindex < z.nmax
  {
  }

  lemma ChunkPage(z: Zone, a: nat, zonePages: nat, k: int)
    requires ZoneOk(z, a, zonePages * PAGE) && 0 <= k < z.nmax
    ensures Chunk(z, k) >= 0 && a <= Chunk(z, k) / PAGE < a + zonePages
    ensures z.size > 0 && (Chunk(z, k) - z.base) == k * z.size
  {
    ChunkInside(z, a, zonePages * PAGE, k);
  }

  // ---------- rt_malloc ----------

  datatype Result = Null | Ptr(h: Handle)

  /** A chunk of the first zone in the list zi: never used space first, then the free list. */
  function TakeChunk(s: Slab, zi: nat): (Slab, Handle)
    requires zi < |s.zoneArray| && s.zoneArray[zi] != [] && s.zoneArray[zi][0] in s.zones
    requires var z := s.zones[s.zoneArray[zi][0]]; z.uindex + 1 == z.nmax ==> z.free != []
    requires s.zones[s.zoneArray[zi][0]].uindex >= -1
  {
    var a := s.zoneArray[zi][0];
    var z := s.zones[a].(nfree := s.zones[a].nfree - 1);
    var lists := if z.nfree == 0 then s.zoneArray[zi := s.zoneArray[zi][1..]] else s.zoneArray;
    if z.uindex + 1 != z.nmax then
      (s.(zones := s.zones[a := z.(uindex := z.uindex + 1)], zoneArray := lists), Part(a, z.uindex + 1))
    else
      (s.(zones := s.zones[a := z.(free := z.free[1..])], zoneArray := lists), Part(a, z.free[0]))
  }

  /** A zone for chunks of class zi set up at page a, its first chunk handed out. */
  function NewZone(s: Slab, a: nat, zi: nat): (Slab, Handle)
    requires zi < |s.zoneArray| && zi < NZONES
  {
    SizeRange(zi);
    var size := SizeOf(zi);
    var nmax := (s.ZoneSize() - Off(size)) / size;
    var z := Zone(zi, size, nmax, nmax - 1, 0, a * PAGE + Off(size), []);
    (s.(zones := s.zones[a := z], zoneArray := s.zoneArray[zi := [a] + s.zoneArray[zi]]), Part(a, 0))
  }

  datatype Source = NoPages | At(s: Slab, a: nat)

  /** Pages for a zone: a free zone, or new pages, marked as belonging to a zone. */
  function GetZone(s: Slab): Source {
    if s.freeZones != [] then At(s.(freeZones := s.freeZones[1..], freeCnt := s.freeCnt - 1), s.freeZones[0])
    else
      match Alloc(s.pages, s.zonePages)
      case Nothing => NoPages
      case Got(rest, a) =>
        At(s.(pages := rest, held := s.held[a := s.zonePages], usage := MarkZone(s.usage, a, s.zonePages)), a)
  }

  function MarkZone(usage: map<nat, Usage>, a: nat, n: nat): (r: map<nat, Usage>)
    ensures forall p: nat :: a <= p < a + n ==> p in r && r[p] == Small(p - a)
    ensures forall p: nat :: !(a <= p < a + n) ==> (p in r <==> p in usage) && (p in usage ==> r[p] == usage[p])
  {
    if n == 0 then usage else MarkZone(usage, a, n - 1)[a + n - 1 := Small(n - 1)]
  }

  ghost function MallocSmall(s: Slab, size: int): (Slab, Result)
    requires SlabInv(s) && 0 < size < s.ZoneLimit()
  {
    ZoneIndexIsTightest(size);
    var zi := ZoneIndex(size).0;
    if s.zoneArray[zi] != [] then
      ListedZone(s, zi);
      var (s1, h) := TakeChunk(s, zi);
      (s1, Ptr(h))
    else
      match GetZone(s)
      case NoPages => (s, Null)
      case At(s1, a) =>
        SameArray(s);
        var (s2, h) := NewZone(s1, a, zi);
        (s2, Ptr(h))
  }

  lemma ListedZone(s: Slab, zi: nat)
    requires SlabInv(s) && zi < NZONES && s.zoneArray[zi] != []
    ensures var a := s.zoneArray[zi][0]; a in s.zones && ZoneOk(s.zones[a], a, s.ZoneSize()) && s.zones[a].nfree > 0 && s.zones[a].index == zi
    ensures var z := s.zones[s.zoneArray[zi][0]]; z.uindex + 1 == z.nmax ==> z.free != []
  {
    hide HeldOk, UsageOk, FreeZonesOk;
    assert s.zoneArray[zi][0] in s.zoneArray[zi];
  }

  lemma SameArray(s: Slab)
    ensures GetZone(s).At? ==> GetZone(s).s.zoneArray == s.zoneArray && GetZone(s).s.zonePages == s.zonePages
  {
  }

  /** The pages of a large request: rounded up in 32-bit arithmetic. */
  function LargePages(size: int): nat
    requires 0 <= size < WORD
  {
    (size + PAGE - 1) % WORD / PAGE
  }

  function MallocLarge(s: Slab, size: int): (Slab, Result)
    requires 0 <= size < WORD
  {
    var n := LargePages(size);
    match Alloc(s.pages, n)
    case Nothing => (s, Null)
    case Got(rest, a) =>
      (s.(pages := rest, held := s.held[a := n], large := s.large[a := n], usage := s.usage[a := Large(n)]), Ptr(Big(a)))
  }

  ghost function Malloc(s: Slab, size: int): (Slab, Result)
    requires SlabInv(s) && 0 <= size < WORD
  {
    if size == 0 then (s, Null)
    else if size >= s.ZoneLimit() then MallocLarge(s, size)
    else MallocSmall(s, size)
  }

  // ---------- taking a chunk ----------

  lemma TakeChunkInv(s: Slab, zi: nat)
    requires SlabInv(s) && zi < NZONES && s.zoneArray[zi] != []
    requires var a := s.zoneArray[zi][0]; a in s.zones && ZoneOk(s.zones[a], a, s.ZoneSize()) && s.zones[a].nfree > 0 && s.zones[a].index == zi
    requires var z := s.zones[s.zoneArray[zi][0]]; z.uindex + 1 == z.nmax ==> z.free != []
    ensures SlabInv(TakeChunk(s, zi).0)
  {
    hide HeldOk, UsageOk, FreeZonesOk, Off;
    var s1, a := TakeChunk(s, zi).0, s.zoneArray[zi][0];
    assert s1.zones.Keys == s.zones.Keys;
    UsageFrame(s, s1);
    FreeZonesFrame(s, s1);
    TakenArray(s.zones, s1.zones, s.zoneArray, zi, s1.zoneArray);
    TakenZone(s.zones[a], s1.zones[a], a, s.ZoneSize());
    hide ArrayOk, ZoneOk;
  }

  lemma TakenZone(z: Zone, z1: Zone, a: nat, zoneSize: int)
    requires ZoneOk(z, a, zoneSize) && z.nfree > 0 && (z.uindex + 1 == z.nmax ==> z.free != [])
    requires z1 == if z.uindex + 1 != z.nmax then z.(nfree := z.nfree - 1, uindex := z.uindex + 1)
                   else z.(nfree := z.nfree - 1, free := z.free[1..])
    ensures ZoneOk(z1, a, zoneSize)
  {
    if z.free != [] { TailMembers(z.free); }
  }

  /** The lists after one zone's count of free chunks has changed, it being taken off when that is zero. */
  lemma TakenArray(zones: map<nat, Zone>, zones1: map<nat, Zone>, lists: seq<seq<nat>>, zi: nat, lists1: seq<seq<nat>>)
    requires ArrayOk(zones, lists) && zi < NZONES && lists[zi] != [] && lists[zi][0] in zones && zones1.Keys == zones.Keys
    requires forall b :: b in zones && b != lists[zi][0] ==> zones1[b] == zones[b]
    requires zones[lists[zi][0]].index == zi && zones1[lists[zi][0]].index == zi && zones1[lists[zi][0]].nfree >= 0
    requires lists1 == if zones1[lists[zi][0]].nfree == 0 then lists[zi := lists[zi][1..]] else lists
    ensures ArrayOk(zones1, lists1)
  {
    TailMembers(lists[zi]);
  }

  /** Only what usage, held, large and the two kinds of zones say matters to UsageOk. */
  lemma UsageFrame(s: Slab, s1: Slab)
    requires UsageOk(s) && s1.held == s.held && s1.usage == s.usage && s1.large == s.large && s1.zonePages == s.zonePages
    requires forall a :: IsZone(s1, a) ==> IsZone(s, a)
    ensures UsageOk(s1)
  {
  }

  lemma FreeZonesFrame(s: Slab, s1: Slab)
    requires FreeZonesOk(s) && s1.freeZones == s.freeZones && s1.freeCnt == s.freeCnt && s1.zones.Keys == s.zones.Keys
    ensures FreeZonesOk(s1)
  {
  }

  /** The chunk taken was not live, and is now; nothing else has changed. */
  lemma TakeChunkLive(s: Slab, zi: nat, g: Handle)
    requires zi < |s.zoneArray| && s.zoneArray[zi] != [] && s.zoneArray[zi][0] in s.zones
    requires var a := s.zoneArray[zi][0]; ZoneOk(s.zones[a], a, s.ZoneSize()) && s.zones[a].nfree > 0
    requires var z := s.zones[s.zoneArray[zi][0]]; z.uindex + 1 == z.nmax ==> z.free != []
    ensures var (s1, h) := TakeChunk(s, zi);
      && !IsLive(s, h) && (IsLive(s1, g) <==> IsLive(s, g) || g == h)
      && (IsLive(s, g) ==> Address(s1, g) == Address(s, g) && Length(s1, g) == Length(s, g))
      && IsLive(s1, h) && Length(s1, h) == s.zones[s.zoneArray[zi][0]].size
  {
    hide Off;
    var z := s.zones[s.zoneArray[zi][0]];
    if z.free != [] {
      TailMembers(z.free);
      assert z.free[0] in z.free;
    }
  }

  // ---------- a new zone ----------

  /** Page a begins pages that are kept for a zone not yet, or no longer, in service. */
  ghost predicate Reserved(s: Slab, a: nat) {
    && a in s.held && s.held[a] == s.zonePages && a !in s.large && !IsZone(s, a)
    && forall p: nat :: a <= p < a + s.zonePages ==> p in s.usage && s.usage[p] == Small(p - a)
  }

  lemma GetZoneInv(s: Slab)
    requires SlabInv(s)
    ensures GetZone(s).At? ==> var g := GetZone(s); SlabInv(g.s) && Reserved(g.s, g.a)
    ensures GetZone(s).At? ==> var g := GetZone(s); g.s.zoneArray == s.zoneArray && g.s.zones == s.zones && g.s.large == s.large
    ensures GetZone(s).NoPages? <==> s.freeZones == [] && forall q: nat :: !(Range(q, s.zonePages) <= Pages(s.pages))
  {
    hide ArrayOk, ZonesOk, Range, Canonical;
    if s.freeZones != [] {
      TailMembers(s.freeZones);
      assert IsZone(s, s.freeZones[0]);
      UsageFrame(s, GetZone(s).s);
    } else {
      HeldCanonical(s.pages, s.held);
      AllocSpec(s.pages, s.zonePages);
      if Alloc(s.pages, s.zonePages).Got? {
        HeldMore(s.pages, s.held, s.zonePages);
        hide HeldOk;
        ZonePagesGot(s);
      }
    }
  }

  lemma HeldCanonical(pages: seq<Run>, held: map<nat, nat>)
    requires HeldOk(pages, held)
    ensures Canonical(pages)
  {
  }

  /** Handing out free pages keeps the runs apart. */
  lemma HeldMore(pages: seq<Run>, held: map<nat, nat>, n: nat)
    requires HeldOk(pages, held) && n > 0 && Alloc(pages, n).Got?
    ensures var g := Alloc(pages, n); HeldOk(g.rest, held[g.page := n]) && g.page !in held
    ensures var g := Alloc(pages, n); forall b :: b in held ==> b + held[b] <= g.page || g.page + n <= b
  {
    hide Range, Canonical;
    AllocSpec(pages, n);
    var g := Alloc(pages, n);
    assert g.page in Range(g.page, n);
    forall b | b in held ensures b + held[b] <= g.page || g.page + n <= b {
      RangesApart(b, held[b], g.page, n, Pages(pages));
    }
  }

  lemma RangesApart(b: nat, m: nat, a: nat, n: nat, free: set<nat>)
    requires m > 0 && n > 0 && Range(b, m) !! free && Range(a, n) <= free
    ensures b + m <= a || a + n <= b
  {
    hide Range;
    assert b in Range(b, m) && a in Range(a, n);
    assert b !in Range(a, n) && a !in Range(b, m);
  }

  /** New pages for a zone are marked without touching what is said about others. */
  lemma ZonePagesGot(s: Slab)
    requires SlabInv(s) && s.freeZones == [] && Alloc(s.pages, s.zonePages).Got?
    requires var g := Alloc(s.pages, s.zonePages);
      g.page !in s.held && forall b :: b in s.held ==> b + s.held[b] <= g.page || g.page + s.zonePages <= b
    ensures var g := GetZone(s); UsageOk(g.s) && Reserved(g.s, g.a)
  {
    hide ArrayOk, ZonesOk, Range, HeldOk, FreeZonesOk;
    var g := GetZone(s);
    forall b: nat, p: nat | IsZone(g.s, b) && b <= p < b + s.zonePages ensures p in g.s.usage && g.s.usage[p] == Small(p - b) {
      assert IsZone(s, b);
    }
    forall b | b in g.s.large ensures b in g.s.held && g.s.held[b] == g.s.large[b] && b in g.s.usage && g.s.usage[b] == Large(g.s.large[b]) {
      assert b in s.large && b in s.held;
      LargePositive(s, b);
    }
  }

  lemma LargePositive(s: Slab, b: nat)
    requires SlabInv(s) && b in s.large
    ensures s.large[b] > 0
  {
    hide ArrayOk, ZonesOk, Range, FreeZonesOk;
    assert b in s.held;
  }

  /** Setting up a zone at reserved pages. */
  lemma NewZoneInv(s: Slab, a: nat, zi: nat)
    requires SlabInv(s) && Reserved(s, a) && zi < NZONES && SizeOf(zi) <= s.ZoneSize() / 4
    ensures SlabInv(NewZone(s, a, zi).0)
  {
    hide HeldOk, Off, Range;
    var s1 := NewZone(s, a, zi).0;
    SizeRange(zi);
    NewZoneOk(s, a, zi);
    NewZoneArray(s.zones, s1.zones, s.zoneArray, zi, a);
    NewZoneUsage(s, a, s1);
    hide ArrayOk, ZoneOk, UsageOk, Reserved;
  }

  /** The new zone has room for at least two chunks. */
  lemma NewZoneOk(s: Slab, a: nat, zi: nat)
    requires zi < |s.zoneArray| && zi < NZONES && ZonePagesOk(s.zonePages) && SizeOf(zi) <= s.ZoneSize() / 4
    ensures ZoneOk(NewZone(s, a, zi).0.zones[a], a, s.ZoneSize()) && NewZone(s, a, zi).0.zones[a].nfree > 0
  {
    SizeRange(zi);
    var size := SizeOf(zi);
    OffRange(size);
    var room := s.ZoneSize() - Off(size);
    hide Off;
    assert room >= 2 * size;
    TwoChunks(room, size);
  }

  lemma TwoChunks(room: int, size: int)
    requires size > 0 && room >= 2 * size
    ensures room / size >= 2
  {
    assert room == room / size * size + room % size;
    AtLeast(1 - room / size + 1, size);
    assert (1 - room / size + 1) * size == 2 * size - room / size * size;
  }

  lemma NewZoneArray(zones: map<nat, Zone>, zones1: map<nat, Zone>, lists: seq<seq<nat>>, zi: nat, a: nat)
    requires ArrayOk(zones, lists) && zi < NZONES && a !in zones && a in zones1 && zones1 == zones[a := zones1[a]]
    requires zones1[a].index == zi && zones1[a].nfree > 0
    ensures ArrayOk(zones1, lists[zi := [a] + lists[zi]])
  {
    assert a !in lists[zi];
  }

  lemma NewZoneUsage(s: Slab, a: nat, s1: Slab)
    requires UsageOk(s) && FreeZonesOk(s) && Reserved(s, a) && a in s1.zones
    requires s1 == s.(zones := s.zones[a := s1.zones[a]], zoneArray := s1.zoneArray)
    ensures UsageOk(s1) && FreeZonesOk(s1)
  {
    forall b | IsZone(s1, b) ensures b == a || IsZone(s, b) {}
  }

  /** The first chunk of a new zone was not live, and is now. */
  lemma NewZoneLive(s: Slab, a: nat, zi: nat, g: Handle)
    requires zi < |s.zoneArray| && zi < NZONES && a !in s.zones
    ensures var (s1, h) := NewZone(s, a, zi);
      && !IsLive(s, h) && (IsLive(s1, g) <==> IsLive(s, g) || g == h)
      && (IsLive(s, g) ==> Address(s1, g) == Address(s, g) && Length(s1, g) == Length(s, g))
      && IsLive(s1, h) && Length(s1, h) == SizeOf(zi)
  {
    hide Off;
  }

  lemma ClassFits(s: Slab, size: int)
    requires ZonePagesOk(s.zonePages) && 0 < size < s.ZoneLimit()
    ensures size < LIMIT && SizeOf(ZoneIndex(size).0) <= s.ZoneSize() / 4
  {
    ZoneIndexIsTightest(size);
    if s.zonePages == 8 { SmallerLimit(size); }
  }

  lemma SmallerLimit(size: int)
    requires 0 < size < 8192
    ensures ZoneIndex(size).1 <= 8192
  {
  }

  // ---------- large blocks ----------

  lemma MallocLargeInv(s: Slab, size: int)
    requires SlabInv(s) && 0 < size < WORD
    ensures SlabInv(MallocLarge(s, size).0)
    ensures MallocLarge(s, size).1.Null? ==> MallocLarge(s, size).0 == s
  {
    hide ArrayOk, ZonesOk, Range, Canonical, FreeZonesOk;
    var n := LargePages(size);
    if Alloc(s.pages, n).Got? {
      HeldCanonical(s.pages, s.held);
      HeldMore(s.pages, s.held, n);
      hide HeldOk;
      LargeUsage(s, Alloc(s.pages, n).page, n, MallocLarge(s, size).0);
      FreeZonesFrame(s, MallocLarge(s, size).0);
    }
  }

  lemma LargeUsage(s: Slab, a: nat, n: nat, s1: Slab)
    requires UsageOk(s) && a !in s.held && n > 0 && (forall b :: b in s.held ==> b + s.held[b] <= a || a + n <= b)
    requires ZonePagesOk(s.zonePages)
    requires s1 == s.(pages := s1.pages, held := s.held[a := n], large := s.large[a := n], usage := s.usage[a := Large(n)])
    ensures UsageOk(s1)
  {
    forall b | IsZone(s1, b) ensures IsZone(s, b) && b != a {}
    forall b: nat, p: nat | IsZone(s1, b) && b <= p < b + s.zonePages ensures p in s1.usage && s1.usage[p] == Small(p - b) {
      assert IsZone(s, b) && b in s.held;
    }
  }

  lemma MallocLargeLive(s: Slab, size: int, g: Handle)
    requires SlabInv(s) && 0 < size < WORD && MallocLarge(s, size).1.Ptr?
    ensures var (s1, r) := MallocLarge(s, size);
      && !IsLive(s, r.h) && (IsLive(s1, g) <==> IsLive(s, g) || g == r.h)
      && (IsLive(s, g) ==> Address(s1, g) == Address(s, g) && Length(s1, g) == Length(s, g))
      && IsLive(s1, r.h) && Length(s1, r.h) >= size
  {
    hide ArrayOk, ZonesOk, Range, Canonical, FreeZonesOk;
    HeldMore(s.pages, s.held, LargePages(size));
    hide HeldOk;
  }

  // ---------- rt_malloc as a whole ----------

  /** h is newly allocated, with room for size bytes; the other blocks are where they were. */
  ghost predicate Allocated(s: Slab, s1: Slab, h: Handle, size: int) {
    && !IsLive(s, h) && IsLive(s1, h) && Length(s1, h) >= size
    && forall g :: (IsLive(s1, g) <==> IsLive(s, g) || g == h)
                   && (IsLive(s, g) ==> Address(s1, g) == Address(s, g) && Length(s1, g) == Length(s, g))
  }

  /** rt_malloc keeps the allocator in shape; what it hands out was not live and is large enough. */
  lemma MallocSpec(s: Slab, size: int)
    requires SlabInv(s) && 0 <= size < WORD
    ensures SlabInv(Malloc(s, size).0)
    ensures Malloc(s, size).1.Null? ==> Malloc(s, size).0 == s
    ensures Malloc(s, size).1.Ptr? ==> Allocated(s, Malloc(s, size).0, Malloc(s, size).1.h, size)
  {
    hide SlabInv, MallocLarge, MallocSmall;
    if size >= s.ZoneLimit() && size != 0 {
      MallocLargeInv(s, size);
      if MallocLarge(s, size).1.Ptr? {
        forall g ensures (IsLive(MallocLarge(s, size).0, g) <==> IsLive(s, g) || g == MallocLarge(s, size).1.h)
          && (IsLive(s, g) ==> Address(MallocLarge(s, size).0, g) == Address(s, g) && Length(MallocLarge(s, size).0, g) == Length(s, g)) {
          MallocLargeLive(s, size, g);
        }
        MallocLargeLive(s, size, Big(0));
      }
    } else if size != 0 {
      MallocSmallSpec(s, size);
    }
  }

  lemma MallocSmallSpec(s: Slab, size: int)
    requires SlabInv(s) && 0 < size < s.ZoneLimit()
    ensures SlabInv(MallocSmall(s, size).0)
    ensures MallocSmall(s, size).1.Null? ==> MallocSmall(s, size).0 == s
    ensures MallocSmall(s, size).1.Ptr? ==> Allocated(s, MallocSmall(s, size).0, MallocSmall(s, size).1.h, size)
  {
    hide SlabInv, TakeChunk, NewZone, GetZone, ZoneIndex, SizeOf;
    InvZonePages(s);
    ClassFits(s, size);
    ZoneIndexIsTightest(size);
    var zi := ZoneIndex(size).0;
    if s.zoneArray[zi] != [] {
      ListedZone(s, zi);
      TakeChunkInv(s, zi);
      TakeAllocates(s, zi, size);
    } else {
      GetZoneInv(s);
      if GetZone(s).At? {
        SameArray(s);
        var g := GetZone(s);
        NewZoneInv(g.s, g.a, zi);
        NewAllocates(s, g.s, g.a, zi, size);
      }
    }
  }

  lemma InvZonePages(s: Slab)
    requires SlabInv(s)
    ensures ZonePagesOk(s.zonePages) && |s.zoneArray| == NZONES
  {
  }

  lemma TakeAllocates(s: Slab, zi: nat, size: int)
    requires zi < |s.zoneArray| && s.zoneArray[zi] != [] && s.zoneArray[zi][0] in s.zones
    requires var a := s.zoneArray[zi][0]; ZoneOk(s.zones[a], a, s.ZoneSize()) && s.zones[a].nfree > 0 && s.zones[a].size >= size
    requires var z := s.zones[s.zoneArray[zi][0]]; z.uindex + 1 == z.nmax ==> z.free != []
    ensures Allocated(s, TakeChunk(s, zi).0, TakeChunk(s, zi).1, size)
  {
    hide ZoneOk;
    TakeUindex(s, zi);
    var (s1, h) := TakeChunk(s, zi);
    hide TakeChunk;
    forall g ensures (IsLive(s1, g) <==> IsLive(s, g) || g == h) && (IsLive(s, g) ==> Address(s1, g) == Address(s, g) && Length(s1, g) == Length(s, g)) {
      TakeChunkLive(s, zi, g);
    }
    TakeChunkLive(s, zi, h);
  }

  lemma TakeUindex(s: Slab, zi: nat)
    requires zi < |s.zoneArray| && s.zoneArray[zi] != [] && s.zoneArray[zi][0] in s.zones
    requires var a := s.zoneArray[zi][0]; ZoneOk(s.zones[a], a, s.ZoneSize())
    ensures s.zones[s.zoneArray[zi][0]].uindex >= 0
  {
  }

  lemma NewAllocates(s: Slab, s0: Slab, a: nat, zi: nat, size: int)
    requires zi < |s0.zoneArray| && zi < NZONES && a !in s0.zones && SizeOf(zi) >= size
    requires s0.zones == s.zones && s0.large == s.large
    ensures Allocated(s, NewZone(s0, a, zi).0, NewZone(s0, a, zi).1, size)
  {
    var (s1, h) := NewZone(s0, a, zi);
    hide NewZone;
    forall g ensures (IsLive(s1, g) <==> IsLive(s, g) || g == h) && (IsLive(s, g) ==> Address(s1, g) == Address(s, g) && Length(s1, g) == Length(s, g)) {
      NewZoneLive(s0, a, zi, g);
      assert IsLive(s0, g) == IsLive(s, g);
    }
    NewZoneLive(s0, a, zi, h);
    assert IsLive(s0, h) == IsLive(s, h);
  }

  // ---------- rt_free ----------

  /** Chunk k goes to the free list of its zone, and the zone back to its list if it had no free chunk. */
  function FreeChunk(s: Slab, a: nat, k: nat): Slab
    requires a in s.zones && 0 <= s.zones[a].index < |s.zoneArray|
  {
    var z := s.zones[a];
    s.(zones := s.zones[a := z.(free := [k] + z.free, nfree := z.nfree + 1)],
       zoneArray := if z.nfree == 0 then s.zoneArray[z.index := [a] + s.zoneArray[z.index]] else s.zoneArray)
  }

  /** A zone without live chunks goes to the free zones. */
  function Retire(s: Slab, a: nat): Slab
    requires a in s.zones && 0 <= s.zones[a].index < |s.zoneArray|
  {
    var i := s.zones[a].index;
    s.(zones := s.zones - {a}, zoneArray := s.zoneArray[i := Without(s.zoneArray[i], a)],
       freeZones := [a] + s.freeZones, freeCnt := s.freeCnt + 1)
  }

  function UnmarkZone(usage: map<nat, Usage>, a: nat, n: nat): (r: map<nat, Usage>)
    ensures forall p: nat :: a <= p < a + n ==> p in r && r[p] == Unused
    ensures forall p: nat :: !(a <= p < a + n) ==> (p in r <==> p in usage) && (p in usage ==> r[p] == usage[p])
  {
    if n == 0 then usage else UnmarkZone(usage, a, n - 1)[a + n - 1 := Unused]
  }

  /** The first free zone goes back to the page allocator when there are too many. */
  function Settle(s: Slab): Slab {
    if s.freeCnt > THRESH && s.freeZones != [] then
      var a := s.freeZones[0];
      s.(freeZones := s.freeZones[1..], freeCnt := s.freeCnt - 1, usage := UnmarkZone(s.usage, a, s.zonePages),
         pages := SlabPages.Free(s.pages, a, s.zonePages), held := s.held - {a})
    else s
  }

  function FreeSmall(s: Slab, a: nat, k: nat): Slab
    requires a in s.zones && 0 <= s.zones[a].index < |s.zoneArray|
  {
    var s1 := FreeChunk(s, a, k);
    if s1.zones[a].nfree == s1.zones[a].nmax && |s1.zoneArray[s1.zones[a].index]| > 1 then Settle(Retire(s1, a)) else s1
  }

  function FreeLarge(s: Slab, a: nat): Slab
    requires a in s.large
  {
    s.(usage := s.usage[a := Large(0)], large := s.large - {a}, held := s.held - {a},
       pages := SlabPages.Free(s.pages, a, s.large[a]))
  }

  ghost predicate Freeable(s: Slab, addr: int) { addr >= 0 && exists h :: IsLive(s, h) && Address(s, h) == addr }

  /** rt_free of an address that rt_malloc has handed out: the page table tells where it belongs. */
  ghost function Free(s: Slab, addr: int): Slab
    requires SlabInv(s) && Freeable(s, addr)
  {
    hide SlabInv;
    var h :| IsLive(s, h) && Address(s, h) == addr;
    LookupFinds(s, h);
    LiveZone(s, h);
    hide ZoneOk;
    var page: nat := addr / PAGE;
    match s.usage[page]
    case Large(_) => FreeLarge(s, page)
    case Small(off) =>
      var z := s.zones[page - off];
      FreeSmall(s, page - off, (addr - z.base) / z.size)
  }

  lemma LiveZone(s: Slab, h: Handle)
    requires SlabInv(s) && IsLive(s, h)
    ensures h.Part? ==> 0 <= s.zones[h.a].index < |s.zoneArray| && ZoneOk(s.zones[h.a], h.a, s.ZoneSize())
  {
  }

  /** h is no longer allocated; the other blocks are where they were. */
  ghost predicate Released(s: Slab, s1: Slab, h: Handle) {
    forall g :: (IsLive(s1, g) <==> IsLive(s, g) && g != h)
                && (IsLive(s1, g) && IsLive(s, g) ==> Address(s1, g) == Address(s, g) && Length(s1, g) == Length(s, g))
  }

  // ---------- giving back a large block, or the pages of a zone ----------

  lemma HeldLess(pages: seq<Run>, held: map<nat, nat>, a: nat)
    requires HeldOk(pages, held) && a in held
    ensures HeldOk(SlabPages.Free(pages, a, held[a]), held - {a})
    ensures forall b :: b in held && b != a ==> b + held[b] <= a || a + held[a] <= b
    ensures forall b :: b in held ==> held[b] > 0
  {
    hide Range, Canonical;
    FreeSpec(pages, a, held[a]);
  }

  lemma FreeLargeInv(s: Slab, a: nat)
    requires SlabInv(s) && a in s.large
    ensures SlabInv(FreeLarge(s, a)) && Released(s, FreeLarge(s, a), Big(a))
  {
    hide ArrayOk, ZonesOk, Range, Canonical, FreeZonesOk, HeldOk;
    var s1 := FreeLarge(s, a);
    HeldLess(s.pages, s.held, a);
    LargePositive(s, a);
    HeldLeftUsage(s, a, s1);
    FreeZonesFrame(s, s1);
    hide UsageOk;
  }

  /** The tables after the run at a was given back, its pages' entries overwritten. */
  lemma HeldLeftUsage(s: Slab, a: nat, s1: Slab)
    requires UsageOk(s) && a in s.held && s.held[a] > 0 && (forall b :: b in s.held && b != a ==> b + s.held[b] <= a || a + s.held[a] <= b)
    requires s1.zonePages == s.zonePages && s1.held == s.held - {a} && (forall b :: IsZone(s1, b) ==> IsZone(s, b) && b != a)
    requires forall b :: b in s1.large ==> b in s.large && b != a && s1.large[b] == s.large[b]
    requires forall p: nat :: p in s.usage && !(a <= p < a + s.held[a]) ==> p in s1.usage && s1.usage[p] == s.usage[p]
    requires forall b :: b in s.held ==> s.held[b] > 0
    ensures UsageOk(s1)
  {
    forall b: nat, p: nat | IsZone(s1, b) && b <= p < b + s.zonePages ensures p in s1.usage && s1.usage[p] == Small(p - b) {
      assert IsZone(s, b) && b in s.held;
    }
    forall b | IsZone(s1, b) ensures b in s1.held && s1.held[b] == s.zonePages && b !in s1.large { assert IsZone(s, b); }
    hide IsZone;
    forall b | b in s1.large ensures b in s1.held && s1.held[b] == s1.large[b] && b in s1.usage && s1.usage[b] == Large(s1.large[b]) {
      LargeLeft(s, a, s1, b);
    }
  }

  lemma LargeLeft(s: Slab, a: nat, s1: Slab, b: nat)
    requires UsageOk(s) && a in s.held && (forall c :: c in s.held && c != a ==> c + s.held[c] <= a || a + s.held[a] <= c)
    requires s1.held == s.held - {a} && b in s1.large && b in s.large && b != a && s1.large[b] == s.large[b]
    requires forall p: nat :: p in s.usage && !(a <= p < a + s.held[a]) ==> p in s1.usage && s1.usage[p] == s.usage[p]
    requires forall c :: c in s.held ==> s.held[c] > 0
    ensures b in s1.held && s1.held[b] == s1.large[b] && b in s1.usage && s1.usage[b] == Large(s1.large[b])
  {
    hide IsZone;
  }

  // ---------- giving back a chunk ----------

  lemma FreeChunkInv(s: Slab, a: nat, k: nat)
    requires SlabInv(s) && IsLive(s, Part(a, k))
    ensures 0 <= s.zones[a].index < |s.zoneArray|
    ensures SlabInv(FreeChunk(s, a, k)) && Released(s, FreeChunk(s, a, k), Part(a, k)) && FreeChunk(s, a, k).zones[a].nfree > 0
  {
    hide HeldOk, UsageOk, FreeZonesOk, Off;
    var s1 := FreeChunk(s, a, k);
    assert s1.zones.Keys == s.zones.Keys;
    UsageFrame(s, s1);
    FreeZonesFrame(s, s1);
    MoreArray(s.zones, s1.zones, s.zoneArray, a, s1.zoneArray);
    hide ArrayOk;
  }

  lemma MoreArray(zones: map<nat, Zone>, zones1: map<nat, Zone>, lists: seq<seq<nat>>, a: nat, lists1: seq<seq<nat>>)
    requires ArrayOk(zones, lists) && a in zones && zones1.Keys == zones.Keys && 0 <= zones[a].index < NZONES
    requires forall b :: b in zones && b != a ==> zones1[b] == zones[b]
    requires zones1[a].index == zones[a].index && zones1[a].nfree > 0 && zones[a].nfree >= 0
    requires var i := zones[a].index; lists1 == if zones[a].nfree == 0 then lists[i := [a] + lists[i]] else lists
    ensures ArrayOk(zones1, lists1)
  {
    if zones[a].nfree == 0 { assert a !in lists[zones[a].index]; }
  }

  /** As many free chunks as there are chunks: then every chunk is on the free list. */
  lemma AllFree(z: Zone, a: nat, zoneSize: int, k: nat)
    requires ZoneOk(z, a, zoneSize) && z.nfree == z.nmax && k <= z.uindex
    ensures k in z.free
  {
    Pigeonhole(z.free, z.uindex + 1, k);
  }

  lemma Pigeonhole(l: seq<nat>, n: nat, k: nat)
    requires NoDup(l) && |l| == n && k < n && forall x :: x in l ==> x < n
    ensures k in l
  {
    hide Range;
    RangeCard(0, n);
    if k !in l {
      SubsetSize(SetOf(l), Range(0, n) - {k});
      assert false;
    }
  }

  function SetOf(l: seq<nat>): (r: set<nat>)
    ensures forall x :: x in r <==> x in l
    ensures NoDup(l) ==> |r| == |l|
  {
    if l == [] then {}
    else
      assert l == [l[0]] + l[1..] && (NoDup(l) ==> NoDup(l[1..]) && l[0] !in l[1..]);
      {l[0]} + SetOf(l[1..])
  }

  lemma RangeCard(p: nat, n: nat)
    ensures |Range(p, n)| == n
  {
    if n > 0 {
      RangeCard(p, n - 1);
      assert p + n - 1 !in Range(p, n - 1);
    }
  }

  lemma SubsetSize(a: set<nat>, b: set<nat>)
    requires a <= b
    ensures |a| <= |b|
  {
    assert b == a + (b - a);
  }

  ghost predicate SameLive(s: Slab, s1: Slab) {
    forall g :: (IsLive(s1, g) <==> IsLive(s, g)) && (IsLive(s, g) ==> Address(s1, g) == Address(s, g) && Length(s1, g) == Length(s, g))
  }

  /** Retiring a zone that is entirely free loses no live chunk. */
  lemma RetireInv(s: Slab, a: nat)
    requires SlabInv(s) && a in s.zones && s.zones[a].nfree == s.zones[a].nmax
    ensures 0 <= s.zones[a].index < |s.zoneArray|
    ensures SlabInv(Settle(Retire(s, a))) && SameLive(s, Settle(Retire(s, a)))
  {
    hide Off, Range, Canonical, Without;
    var s0 := Retire(s, a);
    RetireLive(s, a);
    RetireTables(s, a);
    hide ZonesOk, ArrayOk;
    if s0.freeCnt > THRESH {
      SettleInv(s0, a);
    }
  }

  lemma RetireLive(s: Slab, a: nat)
    requires SlabInv(s) && a in s.zones && s.zones[a].nfree == s.zones[a].nmax
    ensures 0 <= s.zones[a].index < |s.zoneArray|
    ensures SameLive(s, Retire(s, a))
  {
    hide HeldOk, UsageOk, FreeZonesOk, ArrayOk, Off;
    InvZonePages(s);
    assert ZoneOk(s.zones[a], a, s.ZoneSize());
    forall g | IsLive(s, g) ensures !g.Part? || g.a != a { if g.Part? && g.a == a { AllFree(s.zones[a], a, s.ZoneSize(), g.k); } }
    hide ZoneOk;
  }

  lemma RetireTables(s: Slab, a: nat)
    requires SlabInv(s) && a in s.zones
    ensures 0 <= s.zones[a].index < |s.zoneArray|
    ensures var s0 := Retire(s, a);
      && ZonesOk(s0.zones, s.ZoneSize()) && ArrayOk(s0.zones, s0.zoneArray) && UsageOk(s0)
      && NoDup(s0.freeZones) && s0.freeCnt == |s0.freeZones| <= THRESH + 1 && s0.freeZones[0] == a
      && forall b :: b in s0.freeZones ==> b !in s0.zones
  {
    hide HeldOk, Off, Without;
    assert ZoneOk(s.zones[a], a, s.ZoneSize());
    var s0 := Retire(s, a);
    assert IsZone(s, a) && forall b :: IsZone(s0, b) <==> IsZone(s, b);
    UsageFrame(s, s0);
    hide UsageOk, ZoneOk;
  }

  /** The first free zone given back to the page allocator. */
  lemma SettleInv(s: Slab, a: nat)
    requires ZonePagesOk(s.zonePages) && HeldOk(s.pages, s.held) && UsageOk(s)
    requires NoDup(s.freeZones) && s.freeCnt == |s.freeZones| == THRESH + 1 && s.freeZones[0] == a
    requires forall b :: b in s.freeZones ==> b !in s.zones
    ensures var s1 := Settle(s);
      && HeldOk(s1.pages, s1.held) && UsageOk(s1) && FreeZonesOk(s1)
      && s1.zones == s.zones && s1.zoneArray == s.zoneArray && s1.large == s.large && s1.zonePages == s.zonePages
  {
    hide Range, Canonical, UnmarkZone;
    assert IsZone(s, a);
    TailMembers(s.freeZones);
    HeldLess(s.pages, s.held, a);
    hide HeldOk;
    var s1 := Settle(s);
    forall b | IsZone(s1, b) ensures IsZone(s, b) && b != a {}
    NotLarge(s, a);
    HeldLeftUsage(s, a, s1);
    hide UsageOk;
  }

  lemma NotLarge(s: Slab, a: nat)
    requires UsageOk(s) && IsZone(s, a)
    ensures a !in s.large && a in s.held && s.held[a] == s.zonePages
  {
  }

  lemma FreeSmallSpec(s: Slab, a: nat, k: nat)
    requires SlabInv(s) && IsLive(s, Part(a, k))
    ensures 0 <= s.zones[a].index < |s.zoneArray|
    ensures SlabInv(FreeSmall(s, a, k)) && Released(s, FreeSmall(s, a, k), Part(a, k))
  {
    hide SlabInv, Settle, Retire;
    FreeChunkInv(s, a, k);
    var s1 := FreeChunk(s, a, k);
    if s1.zones[a].nfree == s1.zones[a].nmax { RetireInv(s1, a); }
  }

  /** rt_free keeps the allocator in shape and gives back exactly the block at the address. */
  lemma FreeBlockSpec(s: Slab, h: Handle)
    requires SlabInv(s) && IsLive(s, h)
    ensures Freeable(s, Address(s, h))
    ensures SlabInv(Free(s, Address(s, h))) && Released(s, Free(s, Address(s, h)), h)
  {
    hide SlabInv, FreeSmall, FreeLarge, IsLive, Released, LargePages;
    LookupFinds(s, h);
    var addr := Address(s, h);
    var g :| IsLive(s, g) && Address(s, g) == addr;
    LookupFinds(s, g);
    if h.Big? { BigIsLarge(s, h); FreeLargeInv(s, h.a); } else { FreeSmallSpec(s, h.a, h.k); }
  }

  lemma BigIsLarge(s: Slab, h: Handle)
    requires IsLive(s, h) && h.Big?
    ensures h.a in s.large
  {
  }

  // ---------- rt_realloc ----------

  /** The size rt_realloc asks rt_malloc for: a whole chunk, if the block is a chunk. */
  function Wanted(s: Slab, h: Handle, size: int): int {
    if h.Big? then size else ZoneIndex(size).1
  }

  /** rt_realloc of a live block, to a size other than zero; what it copies is in SlabMemory. */
  ghost function Realloc(s: Slab, h: Handle, size: int): (Slab, Result)
    requires SlabInv(s) && IsLive(s, h) && 0 < size < WORD
  {
    WantedRange(s, h, size);
    if h.Part? && s.zones[h.a].size == Wanted(s, h, size) then (s, Ptr(h))
    else
      MallocSpec(s, Wanted(s, h, size));
      var (s1, r) := Malloc(s, Wanted(s, h, size));
      if r.Null? then (s, Null)
      else
        FreeBlockSpec(s1, h);
        (Free(s1, Address(s1, h)), r)
  }

  lemma WantedRange(s: Slab, h: Handle, size: int)
    requires 0 < size < WORD
    ensures size <= Wanted(s, h, size) < WORD
  {
    if size < LIMIT { ZoneIndexIsTightest(size); }
  }

  /** The caller holds block r, of at least size bytes, in place of h; every other block is as it was. */
  ghost predicate Replaced(s: Slab, s2: Slab, h: Handle, r: Handle, size: int) {
    && IsLive(s2, r) && Length(s2, r) >= size && (r == h || (!IsLive(s, r) && !IsLive(s2, h)))
    && (forall g :: g != h && g != r ==> (IsLive(s2, g) <==> IsLive(s, g)))
    && (forall g :: g != h && g != r && IsLive(s, g) ==>
          Address(s2, g) == Address(s, g) && Length(s2, g) == Length(s, g))
  }

  /** rt_realloc keeps the allocator in shape; if it fails nothing has changed; otherwise the caller has one block
      large enough in place of the one before. */
  lemma ReallocSpec(s: Slab, h: Handle, size: int)
    requires SlabInv(s) && IsLive(s, h) && 0 < size < WORD
    ensures SlabInv(Realloc(s, h, size).0)
    ensures Realloc(s, h, size).1.Null? ==> Realloc(s, h, size).0 == s
    ensures Realloc(s, h, size).1.Ptr? ==> Replaced(s, Realloc(s, h, size).0, h, Realloc(s, h, size).1.h, size)
  {
    hide SlabInv, Malloc, Free, Wanted;
    WantedRange(s, h, size);
    var n := Wanted(s, h, size);
    if !(h.Part? && s.zones[h.a].size == n) {
      MallocSpec(s, n);
      var (s1, r) := Malloc(s, n);
      if r.Ptr? { FreeBlockSpec(s1, h); }
    }
  }

  /** rt_realloc leaves a chunk where it is iff the new size belongs to the chunk's own zone. */
  lemma ReallocStaysIff(s: Slab, h: Handle, size: int)
    requires SlabInv(s) && IsLive(s, h) && h.Part? && 0 < size < LIMIT
    ensures Realloc(s, h, size) == (s, Ptr(h)) <==> ZoneIndex(size).0 == s.zones[h.a].index
  {
    hide SlabInv, Malloc, Free;
    LiveZone(s, h);
    ZoneIndexIsTightest(size);
    var i, j := ZoneIndex(size).0, s.zones[h.a].index;
    if i < j { SizesIncrease(i, j); } else if j < i { SizesIncrease(j, i); }
    if i != j {
      WantedRange(s, h, size);
      MallocSpec(s, Wanted(s, h, size));
    }
  }

  // ---------- alignment ----------

  lemma ModTimes(x: int, j: int, m: int)
    requires m > 0
    ensures (x + j * m) % m == x % m
  {
    var q := x / m;
    assert x == q * m + x % m;
    assert (q + j) * m == q * m + j * m;
    Quotient(x + j * m, m, q + j);
    assert x + j * m == (x + j * m) / m * m + (x + j * m) % m;
  }

  /** Chunks begin a multiple of their size behind the start of the zone, if that is a power of two; else a multiple of
      8 bytes behind it. */
  lemma OffAligned(size: int)
    requires 8 <= size <= LIMIT && size % 8 == 0
    ensures PowerOfTwo(size) ==> Off(size) % size == 0
    ensures Off(size) % 8 == 0
  {
    hide PowerOfTwo;
    var q := (HEADER + size - 1) / size;
    assert RoundUp(HEADER, size) == q * size;
    TimesAligned(q, size);
    hide RoundUp;
    assert RoundUp(HEADER, 8) % 8 == 0 by { HeaderRounded(); }
  }

  lemma TimesAligned(q: int, size: int)
    requires size > 0 && size % 8 == 0
    ensures (q * size) % size == 0 && (q * size) % 8 == 0
  {
    ModTimes(0, q, size);
    var e := size / 8;
    assert q * size == (q * e) * 8 by { assert size == e * 8; }
    ModTimes(0, q * e, 8);
  }

  lemma HeaderRounded()
    ensures RoundUp(HEADER, 8) % 8 == 0
  {
  }

  /** The powers of two that can be chunk sizes. */
  lemma {:induction false} Powers(n: int)
    requires PowerOfTwo(n) && n <= LIMIT
    ensures n in {1, 2, 4, 8, 16, 32, 64, 128, 256, 512, 1024, 2048, 4096, 8192, 16384}
  {
    if n > 1 { Powers(n / 2); }
  }

  /** Wherever the heap starts, at a page: a chunk whose size is a power of two is aligned to its size iff its zone is.
      That holds for every zone up to a size of one page. All chunks are aligned to 8 bytes. */
  lemma ChunkAlignedIff(start: int, z: Zone, page: nat, zoneSize: int, k: int)
    requires start % PAGE == 0 && ZoneOk(z, page, zoneSize)
    ensures PowerOfTwo(z.size) ==> ((start + Chunk(z, k)) % z.size == 0 <==> (start + page * PAGE) % z.size == 0)
    ensures PowerOfTwo(z.size) && z.size <= PAGE ==> (start + Chunk(z, k)) % z.size == 0
    ensures (start + Chunk(z, k)) % 8 == 0
  {
    hide Off, ZoneOk;
    var zone := start + page * PAGE;
    ZoneSizes(z, page, zoneSize);
    OffAligned(z.size);
    ZoneAtPage(start, page);
    if PowerOfTwo(z.size) {
      Behind(zone, Off(z.size), k, z.size, z.size);
      if z.size <= PAGE { Powers(z.size); PageMultiple(zone, z.size); }
    }
    Behind(zone, Off(z.size), k, z.size, 8);
    PageMultiple(zone, 8);
  }

  lemma ZoneSizes(z: Zone, page: nat, zoneSize: int)
    requires ZoneOk(z, page, zoneSize)
    ensures 8 <= z.size <= LIMIT && z.size % 8 == 0 && z.base == page * PAGE + Off(z.size)
  {
    SizeRange(z.index);
  }

  lemma ZoneAtPage(start: int, page: nat)
    requires start % PAGE == 0
    ensures (start + page * PAGE) % PAGE == 0
  {
    ModTimes(start, page, PAGE);
  }

  /** An offset and k sizes that are multiples of m do not matter modulo m. */
  lemma Behind(zone: int, off: int, k: int, size: int, m: int)
    requires m > 0 && off % m == 0 && size % m == 0
    ensures (zone + off + k * size) % m == zone % m
  {
    var a, b := off / m, size / m;
    assert off == a * m && size == b * m;
    assert k * size == (k * b) * m;
    assert off + k * size == (a + k * b) * m;
    ModTimes(zone, a + k * b, m);
  }

  lemma PageMultiple(x: int, m: int)
    requires x % PAGE == 0 && m in {1, 2, 4, 8, 16, 32, 64, 128, 256, 512, 1024, 2048, 4096}
    ensures x % m == 0
  {
    var q, c := x / PAGE, PAGE / m;
    assert c * m == PAGE;
    assert x == q * PAGE;
    Regrouped(q, c, m);
    ModTimes(0, q * c, m);
  }

  lemma Regrouped(q: int, c: int, m: int)
    requires c * m == PAGE
    ensures q * PAGE == (q * c) * m
  {
  }

  // ---------- runs ----------

  datatype SlabStep =
    | MallocStep(size: int)
    | FreeStep(h: Handle)
    | ReallocStep(h: Handle, size: int)

  ghost predicate SlabEnabled(s: Slab, step: SlabStep) {
    match step
    case MallocStep(size) => 0 <= size < WORD
    case FreeStep(h) => IsLive(s, h)
    case ReallocStep(h, size) => IsLive(s, h) && 0 < size < WORD
  }

  ghost function SlabNext(s: Slab, step: SlabStep): Slab
    requires SlabInv(s) && SlabEnabled(s, step)
  {
    match step
    case MallocStep(size) => Malloc(s, size).0
    case FreeStep(h) => FreeBlockSpec(s, h); Free(s, Address(s, h))
    case ReallocStep(h, size) => Realloc(s, h, size).0
  }

  lemma SlabStepInv(s: Slab, step: SlabStep)
    requires SlabInv(s) && SlabEnabled(s, step)
    ensures SlabInv(SlabNext(s, step))
  {
    hide SlabInv, Malloc, Free, Realloc;
    match step {
      case MallocStep(size) => MallocSpec(s, size);
      case FreeStep(h) => FreeBlockSpec(s, h);
      case ReallocStep(h, size) => ReallocSpec(s, h, size);
    }
  }

  /** A step from s to s1. The functions that describe steps are defined where the invariant holds; that it holds in
      every state of a run is shown, not assumed. */
  ghost predicate SlabSteps(s: Slab, step: SlabStep, s1: Slab) {
    SlabInv(s) ==> SlabEnabled(s, step) && s1 == SlabNext(s, step)
  }

  ghost predicate SlabRun(ss: seq<Slab>, steps: seq<SlabStep>) {
    && |ss| == |steps| + 1
    && forall i :: 0 <= i < |steps| ==> SlabSteps(ss[i], steps[i], ss[i + 1])
  }

  lemma {:induction false} SlabRunInv(ss: seq<Slab>, steps: seq<SlabStep>, i: nat)
    requires SlabRun(ss, steps) && SlabInv(ss[0]) && i < |ss|
    ensures SlabInv(ss[i]) && (i < |steps| ==> SlabEnabled(ss[i], steps[i]))
  {
    hide SlabInv, SlabEnabled, SlabNext;
    if i > 0 {
      SlabRunInv(ss, steps, i - 1);
      SlabStepInv(ss[i - 1], steps[i - 1]);
      assert SlabSteps(ss[i - 1], steps[i - 1], ss[i]);
    }
    if i < |steps| { assert SlabSteps(ss[i], steps[i], ss[i + 1]); }
  }

  /** The zone size chosen for a heap of limsize bytes, in pages. */
  function ZonePagesFor(limsize: int): (n: nat)
    ensures ZonePagesOk(n)
  {
    if 0x10000 >= limsize / 1024 then 8 else if 0x20000 >= limsize / 1024 then 16 else 32
  }

  /** zone_array with nothing in it. */
  function NoZones(): (r: seq<seq<nat>>)
    ensures |r| == NZONES && forall i :: 0 <= i < NZONES ==> r[i] == []
  {
    seq(NZONES, i => [])
  }

  /** The pages of the page table. */
  function TablePages(npages: nat): nat {
    RoundUp(npages * 4, PAGE) / PAGE
  }

  /** rt_system_heap_init on npages pages: the page table takes the first of them. */
  function Init(npages: nat): Slab {
    var table := TablePages(npages);
    var zp := ZonePagesFor(npages * PAGE);
    var pages := SlabPages.Free([], 0, npages);
    match Alloc(pages, table)
    case Nothing => Slab(zp, pages, map[], NoZones(), [], 0, map[], map[], map[])
    case Got(rest, a) => Slab(zp, rest, map[], NoZones(), [], 0, map[], map[a := table], map[])
  }

  lemma InitHeld(npages: nat)
    requires npages > 0
    ensures HeldOk(Init(npages).pages, Init(npages).held)
  {
    var table := TablePages(npages);
    FreeSpec([], 0, npages);
    AllocSpec(SlabPages.Free([], 0, npages), table);
    hide Range, Canonical, NoZones;
  }

  lemma InitInv(npages: nat)
    requires npages > 0
    ensures SlabInv(Init(npages)) && forall h :: !IsLive(Init(npages), h)
  {
    hide Range, Canonical, NoZones, HeldOk, Alloc, SlabPages.Free, RoundUp;
    InitHeld(npages);
  }

  /** Zones and large blocks are aligned to pages only: the first block of 8192 bytes that a new heap at address start
      gives out, a chunk of a zone or with 32 KB zones a large block, is aligned to its size iff the page behind the page
      table is. */
  lemma FirstBlockAlignedIff(npages: nat, start: int)
    requires TablePages(npages) + 32 <= npages <= WORD / PAGE
    ensures SlabInv(Init(npages))
    ensures var (s, r) := Malloc(Init(npages), 8192);
      r.Ptr? && IsLive(s, r.h) && ((start + Address(s, r.h)) % 8192 == 0 <==> (start + TablePages(npages) * PAGE) % 8192 == 0)
  {
    hide SlabInv, TablePages, Malloc, Init, IsLive, Address;
    InitInv(npages);
    InitPages(npages);
    if Init(npages).zonePages == 8 {
      FirstLarge(Init(npages), TablePages(npages), start);
    } else {
      FirstSmall(Init(npages), TablePages(npages), start);
    }
    hide Chunk;
  }

  lemma InitPages(npages: nat)
    requires TablePages(npages) + 32 <= npages
    ensures var s, table := Init(npages), TablePages(npages);
      && s.pages == [Run(table, npages - table)] && s.freeZones == [] && s.zoneArray == NoZones() && ZonePagesOk(s.zonePages)
  {
    hide TablePages, NoZones, ZonePagesFor;
    TableTaken(npages);
  }

  lemma TableTaken(npages: nat)
    requires npages > 0
    ensures TablePages(npages) > 0
  {
    Quotient(npages * 4 + PAGE - 1, PAGE, (npages * 4 + PAGE - 1) / PAGE);
  }

  lemma FirstLarge(s: Slab, table: nat, start: int)
    requires SlabInv(s) && s.zonePages == 8 && s.pages != [] && s.pages[0].page == table && s.pages[0].n >= 8
    ensures var (s1, r) := Malloc(s, 8192);
      r.Ptr? && r.h.Big? && IsLive(s1, r.h) && ((start + Address(s1, r.h)) % 8192 == 0 <==> (start + table * PAGE) % 8192 == 0)
  {
    hide SlabInv;
    assert LargePages(8192) == 2;
  }

  lemma FirstSmall(s: Slab, table: nat, start: int)
    requires SlabInv(s) && s.zonePages in {16, 32} && s.freeZones == [] && s.zoneArray == NoZones()
    requires s.pages != [] && s.pages[0].page == table && s.pages[0].n >= s.zonePages
    ensures var (s1, r) := Malloc(s, 8192);
      r.Ptr? && r.h.Part? && IsLive(s1, r.h) && ((start + Address(s1, r.h)) % 8192 == 0 <==> (start + table * PAGE) % 8192 == 0)
  {
    hide SlabInv, NoZones, MarkZone, ZoneIndex, Off, SizeOf, PowerOfTwo;
    ChunkOffset();
    var (s1, r) := Malloc(s, 8192);
    assert r == Ptr(Part(table, 0)) && Address(s1, r.h) == table * PAGE + 8192;
  }

  lemma ChunkOffset()
    ensures Off(8192) == 8192 && ZoneIndex(8192) == (63, 8192) && SizeOf(63) == 8192
  {
    hide PowerOfTwo, RoundUp;
    BigPower();
    OneStep(8192);
    BigRounded();
  }

  lemma BigRounded()
    ensures RoundUp(8192, 1024) == 8192
  {
  }

  lemma BigPower()
    ensures PowerOfTwo(8192)
  {
    assert PowerOfTwo(16) && PowerOfTwo(64) && PowerOfTwo(256) && PowerOfTwo(1024) && PowerOfTwo(4096);
  }

  /** A heap of 16385 pages, a little over 64 MB, at an aligned address: the block is a chunk and is not aligned. */
  lemma ChunkMisaligned(start: int)
    requires start % 8192 == 0
    ensures SlabInv(Init(16385))
    ensures var (s, r) := Malloc(Init(16385), 8192); r.Ptr? && r.h.Part? && IsLive(s, r.h) && (start + Address(s, r.h)) % 8192 != 0
  {
    hide SlabInv, Malloc, IsLive, Address;
    assert TablePages(16385) == 17 by { SeventeenPages(); }
    InitInv(16385);
    InitPages(16385);
    assert Init(16385).zonePages == 16 by { ZonesOf16385(); }
    hide Init;
    FirstSmall(Init(16385), 17, start);
  }

  lemma SeventeenPages()
    ensures TablePages(16385) == 17
  {
  }

  lemma ZonesOf16385()
    ensures Init(16385).zonePages == 16
  {
    hide TablePages;
    assert ZonePagesFor(16385 * PAGE) == 16;
    TableTaken(16385);
  }

  /** In every state of every run from rt_system_heap_init: every zone's count of free chunks is right, a zone is in
      the list of its class iff it has a free chunk, at most two free zones are kept, the page table is right, and
      free pages, zones and large blocks do not overlap. */
  lemma SlabRuns(ss: seq<Slab>, steps: seq<SlabStep>, npages: nat, i: nat)
    requires SlabRun(ss, steps) && npages > 0 && ss[0] == Init(npages) && i < |ss|
    ensures SlabInv(ss[i]) && ss[i].freeCnt == |ss[i].freeZones| <= THRESH
    ensures forall a :: a in ss[i].zones ==>
              var z := ss[i].zones[a];
              z.nfree == z.nmax - 1 - z.uindex + |z.free| && 0 <= z.index < |ss[i].zoneArray| && (a in ss[i].zoneArray[z.index] <==> z.nfree > 0)
  {
    hide ZoneOk, HeldOk, UsageOk, Init, SlabNext, SlabEnabled;
    InitInv(npages);
    SlabRunInv(ss, steps, i);
    hide SlabRun;
    forall a | a in ss[i].zones ensures ZoneCounts(ss[i].zones[a]) { CountsOf(ss[i], a); }
  }

  ghost predicate ZoneCounts(z: Zone) { z.nfree == z.nmax - 1 - z.uindex + |z.free| && 0 <= z.index < NZONES }

  lemma CountsOf(s: Slab, a: nat)
    requires SlabInv(s) && a in s.zones
    ensures ZoneCounts(s.zones[a])
  {
    assert ZoneOk(s.zones[a], a, s.ZoneSize());
  }
}
