/** The nodes of a message queue (rt_mq_* in rt-thread/src/ipc.c). A node sits between the free list and the queue
    while a sender copies its message in or a receiver copies it out, both with interrupts enabled. */
module MessageNodes {
  import opened Seqs

  type Byte = bv8
  type Holder = nat   // one activation of rt_mq_send, rt_mq_urgent or rt_mq_recv, in a thread or an interrupt

  datatype Ptr = Null | At(n: nat)

  /** A node in the hands of an activation: taken from the free list, filled with a message, or taken from the queue
      by a receiver with room for size bytes. */
  datatype Flight =
    | Blank(n: nat, msg: seq<Byte>, urgent: bool)
    | Filled(n: nat, msg: seq<Byte>, urgent: bool)
    | Taken(n: nat, msg: seq<Byte>, size: nat)

  datatype Place = Idle | Queued | With(h: Holder)

  /** next and body are the memory of the nodes; head, tail, idleHead and entry the fields of the queue. The others are
      history: the two lists the pointers stand for, the messages in the queue as they were sent, and where
      every node is. */
  datatype Nodes = Nodes(msgSize: nat, next: seq<Ptr>, body: seq<seq<Byte>>, head: Ptr, tail: Ptr, idleHead: Ptr, entry: int,
                         queue: seq<nat>, idle: seq<nat>, items: seq<seq<Byte>>, place: seq<Place>,
                         flight: map<Holder, Flight>)

  // ---------- invariant ----------

  /** Following next from p visits l and ends. */
  ghost predicate Links(next: seq<Ptr>, p: Ptr, l: seq<nat>)
    decreases |l|
  {
    if l == [] then p == Null
    else p == At(l[0]) && l[0] < |next| && Links(next, next[l[0]], l[1..])
  }

  ghost predicate Linked(s: Nodes) {
    && Links(s.next, s.head, s.queue) && Links(s.next, s.idleHead, s.idle)
    && NoDup(s.queue) && NoDup(s.idle)
    && s.tail == (if s.queue == [] then Null else At(s.queue[|s.queue| - 1]))
  }

  /** Every node has one place, and is found there. */
  ghost predicate Housed(s: Nodes) {
    && |s.place| == |s.next|
    && (forall n: nat :: n in s.idle <==> n < |s.place| && s.place[n] == Idle)
    && (forall n: nat :: n in s.queue <==> n < |s.place| && s.place[n] == Queued)
    && (forall h :: h in s.flight ==> s.flight[h].n < |s.place| && s.place[s.flight[h].n] == With(h))
    && (forall n :: 0 <= n < |s.place| && s.place[n].With? ==>
          s.place[n].h in s.flight && s.flight[s.place[n].h].n == n)
  }

  ghost predicate Counted(s: Nodes) {
    |s.queue| + |s.idle| + |s.flight| == |s.next|
  }

  ghost predicate FlightOk(s: Nodes, f: Flight)
    requires f.n < |s.next| && f.n < |s.body|
  {
    match f
    case Blank(n, msg, _) => |msg| <= s.msgSize
    case Filled(n, msg, urgent) => msg <= s.body[n] && (!urgent ==> s.next[n] == Null)
    case Taken(n, msg, _) => msg <= s.body[n]
  }

  /** What was sent is what the nodes hold, in the queue and on the way. */
  ghost predicate Filed(s: Nodes) {
    && |s.body| == |s.next| && |s.items| == |s.queue|
    && (forall n :: 0 <= n < |s.body| ==> |s.body[n]| == s.msgSize)
    && (forall i :: 0 <= i < |s.queue| ==> s.queue[i] < |s.body| && s.items[i] <= s.body[s.queue[i]])
    && (forall h :: h in s.flight ==> s.flight[h].n < |s.next| && FlightOk(s, s.flight[h]))
  }

  ghost predicate NodesOk(s: Nodes) {
    Linked(s) && Housed(s) && Counted(s) && Filed(s)
  }

  ghost predicate NodesInv(s: Nodes) {
    NodesOk(s) && s.entry == |s.queue|
  }

  // ---------- lists by pointers ----------

  lemma {:induction false} LinksFrame(next: seq<Ptr>, p: Ptr, l: seq<nat>, n: nat, x: Ptr)
    requires Links(next, p, l) && n < |next| && n !in l
    ensures Links(next[n := x], p, l)
    decreases |l|
  {
    if l != [] { LinksFrame(next, next[l[0]], l[1..], n, x); }
  }

  lemma LinksPush(next: seq<Ptr>, p: Ptr, l: seq<nat>, n: nat)
    requires Links(next, p, l) && n < |next| && n !in l
    ensures Links(next[n := p], At(n), [n] + l)
  {
    LinksFrame(next, p, l, n, p);
    assert ([n] + l)[1..] == l;
  }

  lemma {:induction false} LinksAppend(next: seq<Ptr>, p: Ptr, l: seq<nat>, n: nat)
    requires Links(next, p, l) && n < |next| && n !in l && NoDup(l) && l != [] && next[n] == Null
    ensures l[|l| - 1] < |next| && Links(next[l[|l| - 1] := At(n)], p, l + [n])
    decreases |l|
  {
    var last := l[|l| - 1];
    if |l| == 1 {
      assert (l + [n])[1..] == [n] && l[1..] == [];
      assert [n][1..] == [];
    } else {
      assert NoDup(l[1..]) && l[0] != last;
      LinksAppend(next, next[l[0]], l[1..], n);
      assert (l + [n])[1..] == l[1..] + [n];
    }
  }

  lemma PushMembers(l: seq<nat>, n: nat)
    requires NoDup(l) && n !in l
    ensures NoDup([n] + l) && forall y :: y in [n] + l <==> y in l || y == n
  {
  }

  lemma AppendMembers(l: seq<nat>, n: nat)
    requires NoDup(l) && n !in l
    ensures NoDup(l + [n]) && forall y :: y in l + [n] <==> y in l || y == n
  {
  }

  // ---------- what the critical regions do to the nodes ----------

  /** rt_mq_send and rt_mq_urgent: the first node of the free list is taken. */
  ghost function TakeIdle(s: Nodes, h: Holder, msg: seq<Byte>, urgent: bool): Nodes
    requires NodesOk(s) && s.idleHead.At?
  {
    HeadFacts(s);
    var n := s.idleHead.n;
    s.(idleHead := s.next[n], idle := s.idle[1..], place := s.place[n := With(h)], flight := s.flight[h := Blank(n, msg, urgent)])
  }

  /** The message is copied in, with interrupts enabled; rt_mq_send also clears the link. */
  ghost function Fill(s: Nodes, h: Holder): Nodes
    requires NodesOk(s) && h in s.flight && s.flight[h].Blank?
  {
    assert FlightOk(s, s.flight[h]);
    var f := s.flight[h];
    s.(next := if f.urgent then s.next else s.next[f.n := Null],
       body := s.body[f.n := f.msg + s.body[f.n][|f.msg|..]],
       flight := s.flight[h := Filled(f.n, f.msg, f.urgent)])
  }

  function Landed(s: Nodes, h: Holder): map<Holder, Flight> {
    map g | g in s.flight && g != h :: s.flight[g]
  }

  /** rt_mq_send: the node becomes the new tail. */
  ghost function LinkLast(s: Nodes, h: Holder): Nodes
    requires NodesOk(s) && h in s.flight && s.flight[h].Filled?
  {
    HeadFacts(s);
    var n := s.flight[h].n;
    s.(next := if s.tail.At? then s.next[s.tail.n := At(n)] else s.next, tail := At(n),
       head := if s.head.Null? then At(n) else s.head, entry := s.entry + 1,
       queue := s.queue + [n], items := s.items + [s.flight[h].msg], place := s.place[n := Queued], flight := Landed(s, h))
  }

  /** rt_mq_urgent: the node becomes the new head. */
  ghost function LinkFirst(s: Nodes, h: Holder): Nodes
    requires NodesOk(s) && h in s.flight && s.flight[h].Filled?
  {
    var n := s.flight[h].n;
    s.(next := s.next[n := s.head], head := At(n), tail := if s.tail.Null? then At(n) else s.tail, entry := s.entry + 1,
       queue := [n] + s.queue, items := [s.flight[h].msg] + s.items, place := s.place[n := Queued], flight := Landed(s, h))
  }

  /** rt_mq_recv: the head is taken, by a receiver with room for size bytes. */
  ghost function TakeHead(s: Nodes, h: Holder, size: nat): Nodes
    requires NodesOk(s) && s.head.At?
  {
    HeadFacts(s);
    var n := s.head.n;
    s.(head := s.next[n], tail := if s.tail == At(n) then Null else s.tail, entry := s.entry - 1,
       queue := s.queue[1..], items := s.items[1..], place := s.place[n := With(h)],
       flight := s.flight[h := Taken(n, s.items[0], size)])
  }

  /** What rt_mq_recv copies out. */
  ghost function CopyOut(s: Nodes, h: Holder): seq<Byte>
    requires NodesOk(s) && h in s.flight && s.flight[h].Taken?
  {
    s.body[s.flight[h].n][..if s.flight[h].size > s.msgSize then s.msgSize else s.flight[h].size]
  }

  /** ... before the node goes back on the free list. */
  ghost function Release(s: Nodes, h: Holder): Nodes
    requires NodesOk(s) && h in s.flight
  {
    var n := s.flight[h].n;
    s.(next := s.next[n := s.idleHead], idleHead := At(n), idle := [n] + s.idle, place := s.place[n := Idle], flight := Landed(s, h))
  }

  /** One turn of the loop in rt_mq_control(RT_IPC_CMD_RESET): the head goes to the free list. */
  ghost function DropHead(s: Nodes): Nodes
    requires NodesOk(s) && s.head.At?
  {
    HeadFacts(s);
    var n := s.head.n;
    s.(head := s.next[n], tail := if s.tail == At(n) then Null else s.tail, queue := s.queue[1..], items := s.items[1..],
       next := s.next[n := s.idleHead], idleHead := At(n), idle := [n] + s.idle, place := s.place[n := Idle])
  }

  ghost function Clear(s: Nodes): Nodes
    requires NodesOk(s)
    decreases |s.queue|
  {
    if s.head.Null? then s.(entry := 0)
    else
      HeadFacts(s);
      DropHeadOk(s);
      Clear(DropHead(s))
  }

  // ---------- they keep the invariant ----------

  lemma HeadFacts(s: Nodes)
    requires NodesOk(s)
    ensures s.head.At? <==> s.queue != []
    ensures s.head.At? ==> s.head.n < |s.next| && s.head.n == s.queue[0] && s.place[s.head.n] == Queued && s.items != []
    ensures s.idleHead.At? <==> s.idle != []
    ensures s.idleHead.At? ==> s.idleHead.n < |s.next| && s.idleHead.n == s.idle[0] && s.place[s.idleHead.n] == Idle
    ensures s.tail.At? ==> s.tail.n < |s.next|
    ensures |s.place| == |s.next| == |s.body| && |s.items| == |s.queue|
  {
  }

  /** Taking a node off a list keeps everyone in place. */
  lemma TakenHoused(s: Nodes, h: Holder, f: Flight, s1: Nodes)
    requires Housed(s) && h !in s.flight && s1.flight == s.flight[h := f] && |s1.next| == |s.next|
    requires f.n < |s.place| && !s.place[f.n].With? && s1.place == s.place[f.n := With(h)]
    requires forall n: nat :: n in s1.queue <==> n in s.queue && n != f.n
    requires forall n: nat :: n in s1.idle <==> n in s.idle && n != f.n
    ensures Housed(s1)
  {
  }

  lemma TakeIdleOk(s: Nodes, h: Holder, msg: seq<Byte>, urgent: bool)
    requires NodesOk(s) && s.idleHead.At? && h !in s.flight && |msg| <= s.msgSize
    ensures NodesOk(TakeIdle(s, h, msg, urgent))
  {
    HeadFacts(s);
    TailMembers(s.idle);
    TakenHoused(s, h, Blank(s.idleHead.n, msg, urgent), TakeIdle(s, h, msg, urgent));
    hide Housed, NoDup;
    TakeIdleFiled(s, h, msg, urgent);
    hide Filed;
  }

  lemma TakeIdleFiled(s: Nodes, h: Holder, msg: seq<Byte>, urgent: bool)
    requires NodesOk(s) && s.idleHead.At? && h !in s.flight && |msg| <= s.msgSize
    ensures Filed(TakeIdle(s, h, msg, urgent))
  {
    hide Linked, Housed, Counted;
    HeadFacts(s);
    var s1 := TakeIdle(s, h, msg, urgent);
    forall g | g in s1.flight ensures s1.flight[g].n < |s1.next| && FlightOk(s1, s1.flight[g]) {
      if g != h { assert FlightOk(s, s.flight[g]); }
    }
  }

  /** A node in flight is in neither list, and in nobody else's hands. */
  lemma FlightFacts(s: Nodes, h: Holder)
    requires NodesOk(s) && h in s.flight
    ensures var n := s.flight[h].n;
      && n < |s.next| == |s.body| == |s.place| && n !in s.queue && n !in s.idle && FlightOk(s, s.flight[h])
      && (forall g :: g in s.flight && g != h ==> s.flight[g].n != n)
  {
    hide Linked, Counted;
    assert s.place[s.flight[h].n] == With(h);
  }

  lemma FillOk(s: Nodes, h: Holder)
    requires NodesOk(s) && h in s.flight && s.flight[h].Blank?
    ensures NodesOk(Fill(s, h))
  {
    hide Filed;
    FillFiled(s, h);
    FillLinked(s, h);
    hide Linked;
  }

  lemma FillLinked(s: Nodes, h: Holder)
    requires NodesOk(s) && h in s.flight && s.flight[h].Blank?
    ensures Linked(Fill(s, h))
  {
    hide Links, NoDup, Housed, Filed, Counted;
    FlightFacts(s, h);
    var n := s.flight[h].n;
    LinksFrame(s.next, s.head, s.queue, n, Null);
    LinksFrame(s.next, s.idleHead, s.idle, n, Null);
  }

  lemma FillFiled(s: Nodes, h: Holder)
    requires NodesOk(s) && h in s.flight && s.flight[h].Blank?
    ensures Filed(Fill(s, h))
  {
    FlightFacts(s, h);
    hide Linked, Housed, Counted;
    var s1, n := Fill(s, h), s.flight[h].n;
    forall g | g in s1.flight ensures s1.flight[g].n < |s1.next| && FlightOk(s1, s1.flight[g]) {
      assert FlightOk(s, s.flight[g]);
    }
  }

  /** Landing a node on a list keeps everyone in place. */
  lemma LandedHoused(s: Nodes, h: Holder, s1: Nodes, p: Place)
    requires Housed(s) && h in s.flight && s1.flight == Landed(s, h) && |s1.next| == |s.next|
    requires s1.place == s.place[s.flight[h].n := p] && !p.With?
    requires forall n: nat :: n in s1.queue <==> n in s.queue || (p == Queued && n == s.flight[h].n)
    requires forall n: nat :: n in s1.idle <==> n in s.idle || (p == Idle && n == s.flight[h].n)
    ensures Housed(s1)
  {
  }

  lemma LandedCount(s: Nodes, h: Holder)
    requires h in s.flight
    ensures |Landed(s, h)| == |s.flight| - 1
  {
    assert Landed(s, h).Keys == s.flight.Keys - {h};
  }

  /** What the flights rely on survives a change to other nodes. */
  lemma LandedFiled(s: Nodes, h: Holder, s1: Nodes)
    requires NodesOk(s) && h in s.flight && s1.flight == Landed(s, h) && s1.body == s.body && s1.msgSize == s.msgSize
    requires |s1.next| == |s.next|
    requires forall m :: 0 <= m < |s.next| && s1.next[m] != s.next[m] ==> m in s.queue || m == s.flight[h].n
    requires |s1.items| == |s1.queue|
    requires forall i :: 0 <= i < |s1.queue| ==> s1.queue[i] < |s1.body| && s1.items[i] <= s1.body[s1.queue[i]]
    ensures Filed(s1)
  {
    forall g | g in s1.flight ensures s1.flight[g].n < |s1.next| && FlightOk(s1, s1.flight[g]) {
      FlightFacts(s, g);
      FlightFacts(s, h);
    }
    hide Linked, Housed, Counted;
  }

  lemma LinkLastOk(s: Nodes, h: Holder)
    requires NodesOk(s) && h in s.flight && s.flight[h].Filled? && !s.flight[h].urgent
    ensures NodesOk(LinkLast(s, h))
  {
    LinkLastLinked(s, h);
    LinkLastHoused(s, h);
    LinkLastFiled(s, h);
    LandedCount(s, h);
    hide Housed, Linked, Landed, Filed;
  }

  lemma LinkLastHoused(s: Nodes, h: Holder)
    requires NodesOk(s) && h in s.flight && s.flight[h].Filled? && !s.flight[h].urgent
    ensures Housed(LinkLast(s, h))
  {
    hide Counted, Filed;
    HeadFacts(s);
    FlightFacts(s, h);
    AppendMembers(s.queue, s.flight[h].n);
    LandedHoused(s, h, LinkLast(s, h), Queued);
    hide Housed;
  }

  lemma LinkLastFiled(s: Nodes, h: Holder)
    requires NodesOk(s) && h in s.flight && s.flight[h].Filled? && !s.flight[h].urgent
    ensures Filed(LinkLast(s, h))
  {
    hide Counted;
    HeadFacts(s);
    FlightFacts(s, h);
    LandedFiled(s, h, LinkLast(s, h));
    hide Filed;
  }

  lemma LinkLastLinked(s: Nodes, h: Holder)
    requires NodesOk(s) && h in s.flight && s.flight[h].Filled? && !s.flight[h].urgent
    ensures Linked(LinkLast(s, h))
  {
    hide Counted, Filed;
    HeadFacts(s);
    FlightFacts(s, h);
    var n := s.flight[h].n;
    AppendMembers(s.queue, n);
    if s.queue != [] {
      assert s.tail.n in s.queue && s.tail.n !in s.idle;
      LinksAppend(s.next, s.head, s.queue, n);
      LinksFrame(s.next, s.idleHead, s.idle, s.tail.n, At(n));
      hide Housed, NoDup, Links;
    } else {
      NewNodeNull(s, h);
      assert s.queue + [n] == [n] && [n][1..] == [];
      hide Housed, NoDup;
    }
  }

  lemma NewNodeNull(s: Nodes, h: Holder)
    requires NodesOk(s) && h in s.flight && s.flight[h].Filled? && !s.flight[h].urgent
    ensures s.flight[h].n < |s.next| && s.next[s.flight[h].n] == Null
  {
    hide Linked, Housed, Counted;
    FlightFacts(s, h);
  }

  lemma LinkFirstOk(s: Nodes, h: Holder)
    requires NodesOk(s) && h in s.flight && s.flight[h].Filled?
    ensures NodesOk(LinkFirst(s, h))
  {
    HeadFacts(s);
    FlightFacts(s, h);
    var n := s.flight[h].n;
    PushMembers(s.queue, n);
    LinkFirstLinked(s, h);
    LandedHoused(s, h, LinkFirst(s, h), Queued);
    LandedCount(s, h);
    LinkFirstFiled(s, h);
    hide Housed, Linked, Landed, NoDup, Filed;
  }

  lemma LinkFirstFiled(s: Nodes, h: Holder)
    requires NodesOk(s) && h in s.flight && s.flight[h].Filled?
    ensures Filed(LinkFirst(s, h))
  {
    FlightFacts(s, h);
    var s1 := LinkFirst(s, h);
    forall i | 0 <= i < |s1.queue| ensures s1.queue[i] < |s1.body| && s1.items[i] <= s1.body[s1.queue[i]] {
      if i > 0 { assert s.items[i - 1] <= s.body[s.queue[i - 1]]; }
    }
    LandedFiled(s, h, s1);
    hide Filed, Linked, Housed, Landed;
  }

  lemma LinkFirstLinked(s: Nodes, h: Holder)
    requires NodesOk(s) && h in s.flight && s.flight[h].Filled?
    ensures Linked(LinkFirst(s, h))
  {
    HeadFacts(s);
    FlightFacts(s, h);
    var n := s.flight[h].n;
    PushMembers(s.queue, n);
    LinksPush(s.next, s.head, s.queue, n);
    LinksFrame(s.next, s.idleHead, s.idle, n, s.head);
    hide Housed, Counted, Filed, NoDup, Links;
  }

  lemma TakeHeadOk(s: Nodes, h: Holder, size: nat)
    requires NodesOk(s) && s.head.At? && h !in s.flight
    ensures NodesOk(TakeHead(s, h, size))
  {
    HeadFacts(s);
    TakeHeadHoused(s, h, size);
    TakeHeadFiled(s, h, size);
    hide Filed, Housed;
  }

  lemma TakeHeadHoused(s: Nodes, h: Holder, size: nat)
    requires NodesOk(s) && s.head.At? && h !in s.flight
    ensures Housed(TakeHead(s, h, size))
  {
    hide Counted, Filed;
    HeadFacts(s);
    TailMembers(s.queue);
    TakenHoused(s, h, Taken(s.head.n, s.items[0], size), TakeHead(s, h, size));
    hide Housed;
  }

  lemma TakeHeadFiled(s: Nodes, h: Holder, size: nat)
    requires NodesOk(s) && s.head.At? && h !in s.flight
    ensures Filed(TakeHead(s, h, size))
  {
    hide Linked, Housed, Counted;
    HeadFacts(s);
    var s1 := TakeHead(s, h, size);
    forall g | g in s1.flight ensures s1.flight[g].n < |s1.next| && FlightOk(s1, s1.flight[g]) {
      if g != h { assert FlightOk(s, s.flight[g]); }
    }
  }

  lemma ReleaseOk(s: Nodes, h: Holder)
    requires NodesOk(s) && h in s.flight
    ensures NodesOk(Release(s, h))
  {
    HeadFacts(s);
    FlightFacts(s, h);
    var n := s.flight[h].n;
    PushMembers(s.idle, n);
    ReleaseLinked(s, h);
    LandedHoused(s, h, Release(s, h), Idle);
    LandedCount(s, h);
    hide Housed, Linked, Landed, NoDup;
    LandedFiled(s, h, Release(s, h));
    hide Filed;
  }

  lemma ReleaseLinked(s: Nodes, h: Holder)
    requires NodesOk(s) && h in s.flight
    ensures Linked(Release(s, h))
  {
    FlightFacts(s, h);
    var n := s.flight[h].n;
    PushMembers(s.idle, n);
    LinksPush(s.next, s.idleHead, s.idle, n);
    LinksFrame(s.next, s.head, s.queue, n, s.idleHead);
    hide Housed, Counted, Filed, NoDup, Links;
  }

  lemma DropHeadOk(s: Nodes)
    requires NodesOk(s) && s.head.At?
    ensures NodesOk(DropHead(s)) && |DropHead(s).queue| < |s.queue|
  {
    HeadFacts(s);
    TailMembers(s.queue);
    PushMembers(s.idle, s.head.n);
    DropHeadFiled(s);
    DropHeadLinked(s);
    DropHeadHoused(s);
    hide Linked, NoDup, Filed, Housed;
  }

  lemma DropHeadHoused(s: Nodes)
    requires NodesOk(s) && s.head.At?
    ensures Housed(DropHead(s))
  {
    HeadFacts(s);
    TailMembers(s.queue);
    PushMembers(s.idle, s.head.n);
    hide Linked, Filed, Counted, NoDup;
    assert forall h :: h in s.flight ==> s.flight[h].n != s.head.n;
  }

  lemma DropHeadLinked(s: Nodes)
    requires NodesOk(s) && s.head.At?
    ensures Linked(DropHead(s))
  {
    HeadFacts(s);
    TailMembers(s.queue);
    var n := s.head.n;
    assert n !in s.idle;
    hide Housed, Counted, Filed;
    LinksPush(s.next, s.idleHead, s.idle, n);
    LinksFrame(s.next, s.next[n], s.queue[1..], n, s.idleHead);
    PushMembers(s.idle, n);
  }

  lemma DropHeadFiled(s: Nodes)
    requires NodesOk(s) && s.head.At?
    ensures Filed(DropHead(s))
  {
    HeadFacts(s);
    var s1 := DropHead(s);
    forall g | g in s1.flight ensures s1.flight[g].n < |s1.next| && FlightOk(s1, s1.flight[g]) {
      FlightFacts(s, g);
    }
    hide Linked, Housed, Counted;
  }

  /** What the operations below leave alone. */
  ghost predicate SameNodes(s: Nodes, s1: Nodes) {
    |s1.next| == |s.next| && s1.msgSize == s.msgSize
  }

  lemma {:induction false} ClearOk(s: Nodes)
    requires NodesOk(s)
    ensures NodesInv(Clear(s)) && SameNodes(s, Clear(s))
    ensures Clear(s).queue == [] && Clear(s).items == [] && Clear(s).flight == s.flight && Clear(s).body == s.body
    ensures |Clear(s).idle| == |s.idle| + |s.queue|
    decreases |s.queue|
  {
    HeadFacts(s);
    if s.head.At? {
      hide Linked, Housed, Filed;
      DropHeadOk(s);
      ClearOk(DropHead(s));
    }
  }

  /** What a receiver is given agrees with what was sent, as far as both go. */
  lemma CopyOutDelivers(s: Nodes, h: Holder, i: nat)
    requires NodesOk(s) && h in s.flight && s.flight[h].Taken? && i < |s.flight[h].msg| && i < |CopyOut(s, h)|
    ensures CopyOut(s, h)[i] == s.flight[h].msg[i]
    ensures |CopyOut(s, h)| == (if s.flight[h].size > s.msgSize then s.msgSize else s.flight[h].size)
  {
    hide Linked, Housed, Counted;
    assert FlightOk(s, s.flight[h]);
  }

  /** The free list is empty exactly when every node is in the queue or on the way. */
  lemma FullIff(s: Nodes)
    requires NodesOk(s)
    ensures s.idleHead.Null? <==> |s.queue| + |s.flight| == |s.next|
  {
    HeadFacts(s);
  }

  // ---------- rt_mq_init ----------

  function CountDown(n: nat): (r: seq<nat>)
    ensures |r| == n && NoDup(r) && forall m: nat :: m in r <==> m < n
  {
    if n == 0 then []
    else
      PushMembers(CountDown(n - 1), n - 1);
      [n - 1] + CountDown(n - 1)
  }

  /** The links rt_mq_init writes into the first n nodes. */
  ghost predicate Threaded(next: seq<Ptr>, n: nat) {
    n <= |next| && forall i :: 0 <= i < n ==> next[i] == (if i == 0 then Null else At(i - 1))
  }

  lemma ThreadedLinks(next: seq<Ptr>, n: nat)
    requires Threaded(next, n)
    ensures Links(next, if n == 0 then Null else At(n - 1), CountDown(n))
  {
    if n > 0 {
      ThreadedLinks(next, n - 1);
      assert ([n - 1] + CountDown(n - 1))[1..] == CountDown(n - 1);
    }
  }

  /** The state rt_mq_init leaves. */
  ghost predicate Initial(s: Nodes) {
    && Threaded(s.next, |s.next|) && |s.body| == |s.next| && (forall n :: 0 <= n < |s.body| ==> |s.body[n]| == s.msgSize)
    && s.head.Null? && s.tail.Null? && s.idleHead == (if |s.next| == 0 then Null else At(|s.next| - 1)) && s.entry == 0
    && s.queue == [] && s.items == [] && s.idle == CountDown(|s.next|) && s.flight == map[]
    && |s.place| == |s.next| && forall n :: 0 <= n < |s.place| ==> s.place[n] == Idle
  }

  lemma InitialOk(s: Nodes)
    requires Initial(s)
    ensures NodesInv(s)
  {
    ThreadedLinks(s.next, |s.next|);
  }

  /** Clearing goes on after the head has been dropped. */
  lemma DropUnfolds(s: Nodes)
    requires NodesOk(s) && s.head.At?
    ensures NodesOk(DropHead(s)) && Clear(s) == Clear(DropHead(s))
  {
    HeadFacts(s);
    DropHeadOk(s);
    hide NodesOk, DropHead;
  }

  lemma DropIs(s: Nodes, s1: Nodes)
    requires NodesOk(s) && s.head.At? && s.head.n < |s.next| && s.queue != [] && s.items != [] && s.head.n < |s.place|
    requires var n := s.head.n;
      s1 == s.(head := s.next[n], tail := if s.tail == At(n) then Null else s.tail, queue := s.queue[1..], items := s.items[1..],
               next := s.next[n := s.idleHead], idleHead := At(n), idle := [n] + s.idle, place := s.place[n := Idle])
    ensures s1 == DropHead(s)
  {
    hide NodesOk;
  }

  lemma LinkLastIs(s: Nodes, h: Holder)
    requires NodesOk(s) && h in s.flight && s.flight[h].Filled?
    ensures (s.tail.At? ==> s.tail.n < |s.next|) && s.flight[h].n < |s.place|
    ensures var n := s.flight[h].n;
      LinkLast(s, h) ==
        s.(next := if s.tail.At? then s.next[s.tail.n := At(n)] else s.next, tail := At(n),
           head := if s.head.Null? then At(n) else s.head, entry := s.entry + 1, queue := s.queue + [n],
           items := s.items + [s.flight[h].msg], place := s.place[n := Queued], flight := Landed(s, h))
  {
    hide NodesOk, FlightOk;
    HeadFacts(s);
    FlightFacts(s, h);
  }

  lemma NothingToDrop(s: Nodes)
    requires NodesOk(s) && s.head.Null?
    ensures Clear(s) == s.(entry := 0)
  {
    hide NodesOk;
  }
}
