/** The page allocator of rt-thread/src/slab.c: rt_page_alloc, rt_page_free, rt_page_init. Pages are numbered from
    heap_start. */
module SlabPages {

  /** A run of free pages: its rt_page_head. */
  datatype Run = Run(page: nat, n: nat)

  /** The pages p, p + 1, ..., p + n - 1. */
  function Range(p: nat, n: nat): (r: set<nat>)
    ensures forall q: nat :: q in r <==> p <= q < p + n
  {
    if n == 0 then {} else Range(p, n - 1) + {p + n - 1}
  }

  /** The free pages. */
  function Pages(l: seq<Run>): set<nat> {
    if l == [] then {} else Range(l[0].page, l[0].n) + Pages(l[1..])
  }

  /** Non-empty runs in address order, no two of them touching: the maximal runs. */
  ghost predicate Canonical(l: seq<Run>) {
    && (forall i :: 0 <= i < |l| ==> l[i].n > 0)
    && (forall i, j :: 0 <= i < j < |l| ==> l[i].page + l[i].n < l[j].page)
  }

  lemma CanonicalTail(l: seq<Run>)
    requires Canonical(l) && l != []
    ensures Canonical(l[1..]) && forall q :: q in Pages(l[1..]) ==> q > l[0].page + l[0].n
    ensures l[0].n > 0 && Pages(l) == Range(l[0].page, l[0].n) + Pages(l[1..])
  {
    hide Range;
    assert forall i :: 0 <= i < |l[1..]| ==> l[1..][i] == l[i + 1];
    AllAfter(l[1..], l[0].page + l[0].n);
  }

  lemma {:induction false} AllAfter(l: seq<Run>, p: nat)
    requires forall i :: 0 <= i < |l| ==> l[i].page > p
    ensures forall q :: q in Pages(l) ==> q > p
  {
    if l != [] {
      assert forall i :: 0 <= i < |l[1..]| ==> l[1..][i] == l[i + 1];
      AllAfter(l[1..], p);
    }
  }

  lemma CanonicalCons(r: Run, l: seq<Run>)
    requires Canonical(l) && r.n > 0 && (l != [] ==> r.page + r.n < l[0].page)
    ensures Canonical([r] + l) && ([r] + l)[1..] == l
    ensures Pages([r] + l) == Range(r.page, r.n) + Pages(l)
  {
    hide Range;
    assert ([r] + l)[1..] == l;
  }

  /** The first page of a non-empty free set. */
  lemma FirstPage(l: seq<Run>)
    requires Canonical(l) && l != []
    ensures l[0].page in Pages(l) && forall q :: q in Pages(l) ==> l[0].page <= q
    ensures l[0].page + l[0].n !in Pages(l)
  {
    CanonicalTail(l);
  }

  /** A canonical list is determined by its set of pages. */
  lemma {:induction false} CanonicalUnique(l: seq<Run>, m: seq<Run>)
    requires Canonical(l) && Canonical(m) && Pages(l) == Pages(m)
    ensures l == m
  {
    hide Range;
    if l == [] {
      if m != [] { FirstPage(m); }
    } else if m == [] {
      FirstPage(l);
    } else {
      FirstPage(l);
      FirstPage(m);
      SameRun(l, m);
      CanonicalTail(l);
      CanonicalTail(m);
      var r := Range(l[0].page, l[0].n);
      assert Pages(l[1..]) == Pages(l) - r && Pages(m[1..]) == Pages(m) - r;
      CanonicalUnique(l[1..], m[1..]);
      assert l == [l[0]] + l[1..] && m == [m[0]] + m[1..];
    }
  }

  lemma SameRun(l: seq<Run>, m: seq<Run>)
    requires Canonical(l) && Canonical(m) && l != [] && m != [] && Pages(l) == Pages(m)
    ensures l[0] == m[0]
  {
    hide Range;
    FirstPage(l);
    FirstPage(m);
    CanonicalTail(l);
    CanonicalTail(m);
    assert l[0].page + l[0].n !in Range(m[0].page, m[0].n) && m[0].page + m[0].n !in Range(l[0].page, l[0].n);
  }

  // ---------- rt_page_alloc ----------

  datatype Got = Got(rest: seq<Run>, page: nat) | Nothing

  function Alloc(l: seq<Run>, n: nat): Got {
    if n == 0 || l == [] then Nothing
    else if l[0].n > n then Got([Run(l[0].page + n, l[0].n - n)] + l[1..], l[0].page)
    else if l[0].n == n then Got(l[1..], l[0].page)
    else
      match Alloc(l[1..], n)
      case Nothing => Nothing
      case Got(rest, page) => Got([l[0]] + rest, page)
  }

  /** Consecutive free pages lie in one run. */
  lemma RangeInRun(l: seq<Run>, q: nat, n: nat)
    requires Canonical(l) && l != [] && n > 0 && Range(q, n) <= Pages(l)
    ensures (l[0].page <= q && q + n <= l[0].page + l[0].n) || (q > l[0].page + l[0].n && Range(q, n) <= Pages(l[1..]))
  {
    hide Range;
    CanonicalTail(l);
    var e := l[0].page + l[0].n;
    assert q in Range(q, n);
    FirstPage(l);
    assert e !in Range(q, n);
  }

  /** rt_page_alloc takes pages from the free ones, leaving a canonical list: the lowest that will do. It fails iff
      no run is long enough, that is iff there are no n consecutive free pages. */
  lemma {:induction false} AllocSpec(l: seq<Run>, n: nat)
    requires Canonical(l) && n > 0
    ensures Alloc(l, n).Nothing? <==> forall q: nat :: !(Range(q, n) <= Pages(l))
    ensures Alloc(l, n).Got? ==> var g := Alloc(l, n);
              && Canonical(g.rest) && Range(g.page, n) <= Pages(l) && Pages(g.rest) == Pages(l) - Range(g.page, n)
              && forall q: nat :: Range(q, n) <= Pages(l) ==> g.page <= q
    ensures Alloc(l, n).Got? && l != [] && Alloc(l, n).rest != [] ==> l[0].page <= Alloc(l, n).rest[0].page
  {
    hide Range;
    if l == [] {
      forall q: nat ensures !(Range(q, n) <= Pages(l)) { assert q in Range(q, n); }
    } else {
      CanonicalTail(l);
      AllocRanges(l, n);
      if l[0].n > n {
        CanonicalCons(Run(l[0].page + n, l[0].n - n), l[1..]);
        RangeSplit(l[0].page, n, l[0].n);
      } else if l[0].n < n {
        AllocSpec(l[1..], n);
        if Alloc(l[1..], n).Got? {
          var g := Alloc(l[1..], n);
          CanonicalCons(l[0], g.rest);
          assert Range(l[0].page, l[0].n) !! Range(g.page, n);
        }
      }
    }
  }

  lemma RangeSplit(p: nat, n: nat, m: nat)
    requires n <= m
    ensures Range(p, m) == Range(p, n) + Range(p + n, m - n) && Range(p, n) !! Range(p + n, m - n)
  {
  }

  /** Where n consecutive free pages can be, in terms of the first run and the rest. */
  lemma AllocRanges(l: seq<Run>, n: nat)
    requires Canonical(l) && l != [] && n > 0
    ensures forall q: nat :: Range(q, n) <= Pages(l) ==> l[0].page <= q
    ensures l[0].n >= n ==> Range(l[0].page, n) <= Pages(l)
    ensures l[0].n < n ==> forall q: nat :: Range(q, n) <= Pages(l) <==> Range(q, n) <= Pages(l[1..])
  {
    hide Range;
    CanonicalTail(l);
    forall q: nat | Range(q, n) <= Pages(l) ensures l[0].page <= q && (l[0].n < n ==> Range(q, n) <= Pages(l[1..])) {
      RangeInRun(l, q, n);
    }
  }

  // ---------- rt_page_free ----------

  function Free(l: seq<Run>, p: nat, n: nat): seq<Run> {
    if l == [] then [Run(p, n)]
    else if l[0].page + l[0].n == p then
      if |l| > 1 && p + n == l[1].page then [Run(l[0].page, l[0].n + n + l[1].n)] + l[2..]
      else [Run(l[0].page, l[0].n + n)] + l[1..]
    else if l[0].page == p + n then [Run(p, n + l[0].n)] + l[1..]
    else if l[0].page > p + n then [Run(p, n)] + l
    else [l[0]] + Free(l[1..], p, n)
  }

  /** rt_page_free adds the pages, leaving a canonical list. */
  lemma {:induction false} FreeSpec(l: seq<Run>, p: nat, n: nat)
    requires Canonical(l) && n > 0 && Range(p, n) !! Pages(l)
    ensures Canonical(Free(l, p, n)) && Pages(Free(l, p, n)) == Pages(l) + Range(p, n)
    ensures Free(l, p, n) != [] && (Free(l, p, n)[0].page == p || (l != [] && Free(l, p, n)[0].page == l[0].page))
  {
    hide Range;
    if l == [] {
      CanonicalCons(Run(p, n), []);
    } else {
      CanonicalTail(l);
      assert p in Range(p, n) && l[0].page in Range(l[0].page, l[0].n);
      if l[0].page + l[0].n == p {
        FreeAfter(l, p, n);
      } else if l[0].page == p + n {
        CanonicalCons(Run(p, n + l[0].n), l[1..]);
        RangeSplit(p, n, n + l[0].n);
      } else if l[0].page > p + n {
        CanonicalCons(Run(p, n), l);
      } else {
        Beyond(l, p, n);
        FreeSpec(l[1..], p, n);
        CanonicalCons(l[0], Free(l[1..], p, n));
      }
    }
  }

  /** The freed pages come right after the first run. */
  lemma FreeAfter(l: seq<Run>, p: nat, n: nat)
    requires Canonical(l) && l != [] && n > 0 && Range(p, n) !! Pages(l) && l[0].page + l[0].n == p
    ensures Canonical(Free(l, p, n)) && Pages(Free(l, p, n)) == Pages(l) + Range(p, n) && Free(l, p, n)[0].page == l[0].page
  {
    hide Range;
    CanonicalTail(l);
    RangeSplit(l[0].page, l[0].n, l[0].n + n);
    if |l| > 1 {
      SecondRun(l, p, n);
      if p + n == l[1].page { FreeBetween(l, p, n); } else { CanonicalCons(Run(l[0].page, l[0].n + n), l[1..]); }
    } else {
      CanonicalCons(Run(l[0].page, l[0].n + n), l[1..]);
    }
  }

  lemma SecondRun(l: seq<Run>, p: nat, n: nat)
    requires Canonical(l) && |l| > 1 && n > 0 && Range(p, n) !! Pages(l) && l[0].page + l[0].n == p
    ensures p + n <= l[1].page
  {
    hide Range;
    CanonicalTail(l);
    FirstPage(l[1..]);
    assert l[1].page !in Range(p, n);
  }

  /** They fill the gap between the first two runs. */
  lemma FreeBetween(l: seq<Run>, p: nat, n: nat)
    requires Canonical(l) && |l| > 1 && l[0].page + l[0].n == p && p + n == l[1].page
    ensures var r := [Run(l[0].page, l[0].n + n + l[1].n)] + l[2..]; Canonical(r) && Pages(r) == Pages(l) + Range(p, n)
  {
    hide Range;
    CanonicalTail(l);
    assert l[1..][1..] == l[2..] && l[1..][0] == l[1];
    CanonicalTail(l[1..]);
    assert l[2..] != [] ==> l[2..][0] == l[2];
    CanonicalCons(Run(l[0].page, l[0].n + n + l[1].n), l[2..]);
    RangeSplit(l[0].page, l[0].n, l[0].n + n);
    RangeSplit(l[0].page, l[0].n + n, l[0].n + n + l[1].n);
  }

  /** Pages that neither overlap nor touch the first run and do not lie before it lie behind it. */
  lemma Beyond(l: seq<Run>, p: nat, n: nat)
    requires Canonical(l) && l != [] && n > 0 && Range(p, n) !! Pages(l)
    requires l[0].page + l[0].n != p && l[0].page != p + n && l[0].page <= p + n
    ensures l[0].page + l[0].n < p && Range(p, n) !! Pages(l[1..])
  {
    hide Range;
    CanonicalTail(l);
    FirstPage(l);
    assert p in Range(p, n) && p !in Pages(l);
    assert l[0].page !in Range(p, n);
  }

  /** rt_page_free undoes rt_page_alloc exactly: the list is the same again. */
  lemma FreeUndoesAlloc(l: seq<Run>, n: nat)
    requires Canonical(l) && Alloc(l, n).Got?
    ensures Free(Alloc(l, n).rest, Alloc(l, n).page, n) == l
  {
    AllocSpec(l, n);
    var g := Alloc(l, n);
    FreeSpec(g.rest, g.page, n);
    CanonicalUnique(Free(g.rest, g.page, n), l);
  }

  // ---------- the linked list in the pages ----------

  const NULL: int := -1

  /** Runs that are too short are passed over. */
  lemma {:induction false} AllocSkips(l: seq<Run>, n: nat, i: nat)
    requires n > 0 && i <= |l| && forall k :: 0 <= k < i ==> l[k].n < n
    ensures Alloc(l, n) == match Alloc(l[i..], n) case Nothing => Nothing case Got(rest, page) => Got(l[..i] + rest, page)
  {
    if i == 0 {
      assert l[0..] == l;
    } else {
      assert forall k :: 0 <= k < i - 1 ==> l[1..][k] == l[k + 1];
      AllocSkips(l[1..], n, i - 1);
      assert l[1..][i - 1..] == l[i..];
      if Alloc(l[i..], n).Got? { assert [l[0]] + (l[1..][..i - 1] + Alloc(l[i..], n).rest) == l[..i] + Alloc(l[i..], n).rest; }
    }
  }

  /** Does rt_page_free go on behind this run? */
  predicate Passed(r: Run, p: nat, n: nat) { r.page + r.n != p && r.page != p + n && r.page <= p + n }

  lemma {:induction false} FreeSkips(l: seq<Run>, p: nat, n: nat, i: nat)
    requires i <= |l| && forall k :: 0 <= k < i ==> Passed(l[k], p, n)
    ensures Free(l, p, n) == l[..i] + Free(l[i..], p, n)
  {
    if i == 0 {
      assert l[0..] == l;
    } else {
      FreeSkips(l, p, n, i - 1);
      FreePasses(l[i - 1..], p, n);
      assert l[i - 1..][1..] == l[i..];
      hide Free;
      assert l[..i - 1] + ([l[i - 1]] + Free(l[i..], p, n)) == l[..i] + Free(l[i..], p, n);
    }
  }

  lemma FreePasses(l: seq<Run>, p: nat, n: nat)
    requires l != [] && Passed(l[0], p, n)
    ensures Free(l, p, n) == [l[0]] + Free(l[1..], p, n)
  {
  }

  /** The heads of the runs l, linked in this order from list. */
  ghost predicate Chain(list: int, next: map<int, int>, count: map<int, nat>, l: seq<Run>) {
    && list == (if l == [] then NULL else l[0].page)
    && forall i :: 0 <= i < |l| ==> LinkAt(next, count, l, i)
  }

  ghost predicate LinkAt(next: map<int, int>, count: map<int, nat>, l: seq<Run>, i: nat)
    requires i < |l|
  {
    && l[i].page in next && next[l[i].page] == (if i + 1 < |l| then l[i + 1].page else NULL)
    && l[i].page in count && count[l[i].page] == l[i].n
  }

  /** Runs i up to j replaced by the run r: its head written, and the link before it set. */
  lemma Splice(list: int, next: map<int, int>, count: map<int, nat>, l: seq<Run>, i: nat, j: nat, r: Run,
               list1: int, next1: map<int, int>, count1: map<int, nat>)
    requires Chain(list, next, count, l) && i <= j <= |l| && Canonical(l[..i] + [r] + l[j..])
    requires var next0 := next[r.page := if j < |l| then l[j].page else NULL];
      if i == 0 then list1 == r.page && next1 == next0 else list1 == list && next1 == next0[l[i - 1].page := r.page]
    requires count1 == count[r.page := r.n]
    ensures Chain(list1, next1, count1, l[..i] + [r] + l[j..])
  {
    var m := l[..i] + [r] + l[j..];
    assert m[i] == r && (i > 0 ==> m[i - 1] == l[i - 1]) && (j < |l| ==> m[i + 1] == l[j]);
    hide Canonical;
    forall k | 0 <= k < |m| ensures LinkAt(next1, count1, m, k) {
      Distinct(m, k, i);
      if i > 0 { Distinct(m, k, i - 1); }
      if k < i { assert LinkAt(next, count, l, k); } else if k > i { assert LinkAt(next, count, l, k - i - 1 + j); }
    }
  }

  lemma Distinct(m: seq<Run>, i: nat, j: nat)
    requires Canonical(m) && i < |m| && j < |m|
    ensures m[i].page == m[j].page <==> i == j
  {
  }

  /** The run at i unlinked. */
  lemma Unlink(list: int, next: map<int, int>, count: map<int, nat>, l: seq<Run>, i: nat, list1: int, next1: map<int, int>)
    requires Chain(list, next, count, l) && i < |l| && Canonical(l)
    requires var v := if i + 1 < |l| then l[i + 1].page else NULL;
      if i == 0 then list1 == v && next1 == next else list1 == list && next1 == next[l[i - 1].page := v]
    ensures Chain(list1, next1, count, l[..i] + l[i + 1..])
  {
    hide Chain, Canonical;
    UnlinkLinks(list, next, count, l, i, list1, next1, l[..i] + l[i + 1..]);
  }

  lemma UnlinkLinks(list: int, next: map<int, int>, count: map<int, nat>, l: seq<Run>, i: nat, list1: int, next1: map<int, int>,
                    m: seq<Run>)
    requires Chain(list, next, count, l) && i < |l| && Canonical(l)
    requires var v := if i + 1 < |l| then l[i + 1].page else NULL;
      if i == 0 then list1 == v && next1 == next else list1 == list && next1 == next[l[i - 1].page := v]
    requires |m| == |l| - 1 && forall k {:trigger m[k]} :: 0 <= k < |m| ==> m[k] == if k < i then l[k] else l[k + 1]
    ensures Chain(list1, next1, count, m)
  {
    hide Canonical;
    forall k | 0 <= k < |m| ensures LinkAt(next1, count, m, k) {
      UnlinkAt(list, next, count, l, i, next1, if k < i then k else k + 1);
    }
  }

  /** The link of run a, one of those that stay. */
  lemma UnlinkAt(list: int, next: map<int, int>, count: map<int, nat>, l: seq<Run>, i: nat, next1: map<int, int>, a: nat)
    requires Chain(list, next, count, l) && i < |l| && Canonical(l) && a < |l| && a != i
    requires var v := if i + 1 < |l| then l[i + 1].page else NULL; if i == 0 then next1 == next else next1 == next[l[i - 1].page := v]
    ensures l[a].page in next1 && next1[l[a].page] == (if a + 1 == i then (if i + 1 < |l| then l[i + 1].page else NULL)
                                                       else if a + 1 < |l| then l[a + 1].page else NULL)
    ensures l[a].page in count && count[l[a].page] == l[a].n
  {
    hide Canonical;
    assert LinkAt(next, count, l, a);
    if i > 0 { Distinct(l, a, i - 1); }
  }

  class PageHeap {
    var list: int                    // rt_page_list
    var next: map<int, int>          // next and page of each rt_page_head
    var count: map<int, nat>
    ghost var runs: seq<Run>

    ghost predicate Linked()
      reads this
    {
      Canonical(runs) && Chain(list, next, count, runs)
    }

    /** rt_page_init */
    constructor (page: nat, npages: nat)
      requires npages > 0
      ensures Linked() && Pages(runs) == Range(page, npages) && runs == Free([], page, npages)
    {
      list, next, count, runs := NULL, map[], map[], [];
      new;
      hide Range;
      FreeSpec([], page, npages);
      PageFree(page, npages);
    }

    /** *prev = v, where prev is the link before the run at position i. */
    method SetLink(v: int, prev: int, ghost i: nat, ghost l: seq<Run>)
      requires i <= |l| && (if i == 0 then prev == NULL else prev == l[i - 1].page)
      modifies this`list, this`next
      ensures i == 0 ==> list == v && next == old(next)
      ensures i > 0 ==> list == old(list) && next == old(next)[l[i - 1].page := v]
    {
      if prev == NULL { list := v; } else { next := next[prev := v]; }
    }

    /** The head of run n written, with what follows it, and *prev set to it: it takes the place of runs i up to j. */
    method PutRun(n: nat, pages: nat, following: int, prev: int, ghost i: nat, ghost j: nat)
      requires Linked() && i <= j <= |runs| && Canonical(runs[..i] + [Run(n, pages)] + runs[j..])
      requires following == (if j < |runs| then runs[j].page else NULL)
      requires if i == 0 then prev == NULL else prev == runs[i - 1].page
      modifies this
      ensures Linked() && runs == old(runs)[..i] + [Run(n, pages)] + old(runs)[j..]
    {
      hide Canonical, Range, Chain;
      ghost var l := runs;
      next := next[n := following];
      count := count[n := pages];
      SetLink(n, prev, i, l);
      Splice(old(list), old(next), old(count), l, i, j, Run(n, pages), list, next, count);
      runs := l[..i] + [Run(n, pages)] + l[j..];
    }

    method PageAlloc(npages: nat) returns (b: int)
      requires Linked()
      modifies this
      ensures Linked()
      ensures match Alloc(old(runs), npages)
              case Nothing => b == NULL && runs == old(runs)
              case Got(rest, page) => b == page && runs == rest
    {
      hide Canonical, Chain, Range, Alloc;
      if npages == 0 {
        AllocOfNone(runs);
        return NULL;
      }
      ghost var i, l := 0, runs;
      AllocSpec(l, npages);
      var prev := NULL;
      b := list;
      ChainAt(l, 0);
      while b != NULL
        invariant i <= |l| && l == runs == old(runs) && next == old(next) && count == old(count) && list == old(list)
        invariant b == (if i < |l| then l[i].page else NULL) && prev == (if i == 0 then NULL else l[i - 1].page)
        invariant forall k :: 0 <= k < i ==> l[k].n < npages
        decreases |l| - i
      {
        AllocSkips(l, npages, i);
        AllocAt(l, i, npages);
        ChainAt(l, i);
        if count[b] > npages {
          PutRun(b + npages, count[b] - npages, next[b], prev, i, i + 1);
          return;
        }
        if count[b] == npages {
          SetLink(next[b], prev, i, l);
          Unlink(old(list), old(next), old(count), l, i, list, next);
          runs := l[..i] + l[i + 1..];
          return;
        }
        prev := b;
        b := next[b];
        i := i + 1;
        ChainAt(l, i);
      }
      AllocSkips(l, npages, i);
      AllocAt(l, i, npages);
    }

    static lemma AllocOfNone(l: seq<Run>)
      ensures Alloc(l, 0) == Nothing
    {
    }

    /** What rt_page_alloc does at position i. */
    static lemma AllocAt(l: seq<Run>, i: nat, npages: nat)
      requires i <= |l| && npages > 0
      ensures i == |l| ==> Alloc(l[i..], npages) == Nothing
      ensures i < |l| && l[i].n > npages ==>
                var r := Run(l[i].page + npages, l[i].n - npages);
                Alloc(l[i..], npages) == Got([r] + l[i + 1..], l[i].page) && l[..i] + ([r] + l[i + 1..]) == l[..i] + [r] + l[i + 1..]
      ensures i < |l| && l[i].n == npages ==> Alloc(l[i..], npages) == Got(l[i + 1..], l[i].page)
    {
    }

    method PageFree(addr: nat, npages: nat)
      requires Linked() && npages > 0 && Range(addr, npages) !! Pages(runs)
      modifies this
      ensures Linked() && runs == Free(old(runs), addr, npages)
    {
      hide Canonical, Range, Chain;
      ghost var i, l := 0, runs;
      FreeSpec(l, addr, npages);
      var prev, b, n := NULL, list, addr;
      ChainAt(l, 0);
      while b != NULL
        invariant i <= |l| && l == runs == old(runs) && next == old(next) && count == old(count) && list == old(list)
        invariant b == (if i < |l| then l[i].page else NULL) && prev == (if i == 0 then NULL else l[i - 1].page)
        invariant forall k :: 0 <= k < i ==> Passed(l[k], addr, npages)
        decreases |l| - i
      {
        FreeSkips(l, addr, npages, i);
        ChainAt(l, i);
        if b + count[b] == n {
          GrowRun(b, n, npages, i);
          return;
        }
        if b == n + npages {
          FreeAt(l, i, n, npages);
          PutRun(n, count[b] + npages, next[b], prev, i, i + 1);
          return;
        }
        if b > n + npages { break; }
        prev := b;
        b := next[b];
        i := i + 1;
        ChainAt(l, i);
      }
      FreeSkips(l, addr, npages, i);
      FreeAt(l, i, n, npages);
      PutRun(n, npages, b, prev, i, i);
    }

    lemma ChainAt(l: seq<Run>, i: nat)
      requires Chain(list, next, count, l) && i <= |l|
      ensures i < |l| ==> l[i].page in next && next[l[i].page] == (if i + 1 < |l| then l[i + 1].page else NULL)
                          && l[i].page in count && count[l[i].page] == l[i].n
      ensures l == [] ==> list == NULL
      ensures l != [] ==> list == l[0].page
    {
      if i < |l| { assert LinkAt(next, count, l, i); }
    }

    /** What rt_page_free does at position i. */
    static lemma FreeAt(l: seq<Run>, i: nat, n: nat, npages: nat)
      requires i <= |l|
      ensures var m := Free(l[i..], n, npages);
        if i == |l| || (l[i].page + l[i].n != n && l[i].page > n + npages) then l[..i] + m == l[..i] + [Run(n, npages)] + l[i..]
        else if l[i].page + l[i].n == n then
          if i + 1 < |l| && n + npages == l[i + 1].page then
            l[..i] + m == l[..i] + [Run(l[i].page, l[i].n + npages + l[i + 1].n)] + l[i + 2..]
          else l[..i] + m == l[..i] + [Run(l[i].page, l[i].n + npages)] + l[i + 1..]
        else l[i].page == n + npages ==> l[..i] + m == l[..i] + [Run(n, npages + l[i].n)] + l[i + 1..]
    {
      if i < |l| {
        assert l[i..][0] == l[i] && l[i..][1..] == l[i + 1..];
        if i + 1 < |l| { assert l[i..][1] == l[i + 1] && l[i..][2..] == l[i + 2..]; }
      }
    }

    /** The pages come right after the run at b, and perhaps right before the next. */
    method GrowRun(b: nat, n: nat, npages: nat, ghost i: nat)
      requires Linked() && npages > 0 && i < |runs| && runs[i].page == b && b + runs[i].n == n
      requires Canonical(runs[..i] + Free(runs[i..], n, npages))
      modifies this
      ensures Linked() && runs == old(runs)[..i] + Free(old(runs)[i..], n, npages)
    {
      hide Canonical, Range, Chain;
      ghost var l := runs;
      FreeAt(l, i, n, npages);
      ChainAt(l, i);
      if i > 0 { ChainAt(l, i - 1); }
      if i + 1 < |l| { ChainAt(l, i + 1); }
      count := count[b := count[b] + npages];
      if b + count[b] == next[b] {
        count := count[b := count[b] + count[next[b]]];
        next := next[b := next[next[b]]];
        runs := l[..i] + [Run(b, l[i].n + npages + l[i + 1].n)] + l[i + 2..];
        Splice(old(list), old(next), old(count), l, i, i + 2, Run(b, l[i].n + npages + l[i + 1].n), list, next, count);
      } else {
        runs := l[..i] + [Run(b, l[i].n + npages)] + l[i + 1..];
        Splice(old(list), old(next), old(count), l, i, i + 1, Run(b, l[i].n + npages), list, next, count);
      }
    }
  }
}
