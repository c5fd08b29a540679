/** Message queues: rt_mq_send, rt_mq_urgent, rt_mq_recv, rt_mq_control (rt-thread/src/ipc.c). */
module MessageQueue {
  import opened Seqs
  import opened KernelSpec
  import opened KernelRuns
  import opened KernelObject
  import opened Waiting
  import opened MessageNodes

  datatype Outcome = Done(error: Err) | Delivered(bytes: seq<Byte>) | InFlight | Pending

  /** The locals of a blocked rt_mq_recv: the room in the buffer, and the timeout that is left. */
  datatype Arg = Arg(size: nat, timeout: int)

  datatype Mq = Mq(l: Layer, rx: Wid, order: Order, s: Nodes, args: map<Tid, Arg>)

  ghost function Waiters(m: Mq): seq<Tid>
    requires WaitQ(m.rx) in m.l.k.lists
  {
    m.l.k.lists[WaitQ(m.rx)]
  }

  ghost predicate Shape(m: Mq) {
    Ok(m.l) && m.l.ours == {m.rx} && m.args.Keys == m.l.calls.Keys && NodesInv(m.s)
  }

  /** The nodes are in order, and no wake-up is lost. */
  ghost predicate MqInv(m: Mq) {
    Shape(m) && Covered(m.l, m.rx, m.s.entry, 0)
  }

  // ---------- the critical regions ----------

  /** rt_mq_send and rt_mq_urgent up to the copying of the message. */
  ghost function SendTake(m: Mq, h: Holder, msg: seq<Byte>, urgent: bool): (Mq, Outcome)
    requires NodesInv(m.s)
  {
    if |msg| > m.s.msgSize then (m, Done(ERROR))
    else if m.s.idleHead.Null? then (m, Done(EFULL))
    else (m.(s := TakeIdle(m.s, h, msg, urgent)), InFlight)
  }

  /** rt_list_isempty and rt_ipc_list_resume after a node was linked in. */
  ghost function WakeHead(m: Mq): Mq
    requires Ok(m.l) && m.rx in m.l.ours
  {
    if Waiters(m) == [] then m else m.(l := WakeOne(m.l, m.rx, Waiters(m)[0]))
  }

  ghost function SendLink(m: Mq, h: Holder): (Mq, Outcome)
    requires Shape(m) && h in m.s.flight && m.s.flight[h].Filled?
  {
    (WakeHead(m.(s := if m.s.flight[h].urgent then LinkFirst(m.s, h) else LinkLast(m.s, h))), Done(EOK))
  }

  /** The while loop of rt_mq_recv up to its next rt_schedule, or past its end until the head is taken. */
  ghost function RecvLoop(m: Mq, h: Holder, size: nat, timeout: int): (Mq, Outcome)
    requires Shape(m) && (m.s.entry == 0 && timeout != 0 ==> CanBlock(m.l))
  {
    if m.s.entry == 0 then
      if timeout == 0 then (m, Done(ETIMEOUT))
      else
        (m.(l := Begin(m.l, m.rx, m.order, timeout > 0), args := m.args[m.l.k.current := Arg(size, timeout)]), Pending)
    else
      EntryHead(m.s);
      (m.(s := TakeHead(m.s, h, size)), InFlight)
  }

  lemma EntryHead(s: Nodes)
    requires NodesInv(s)
    ensures s.entry != 0 <==> s.head.At?
  {
    HeadFacts(s);
  }

  /** The current thread goes on after rt_schedule. */
  ghost function Resumed(m: Mq): Mq {
    m.(l := Leave(m.l), args := map t | t in m.args && t != m.l.k.current :: m.args[t])
  }

  ghost function RecvAgain(m: Mq, h: Holder, elapsed: nat): (Mq, Outcome)
    requires MqInv(m) && Back(m.l)
  {
    ResumedShape(m);
    var c := m.l.k.current;
    var m1, left := Resumed(m), Remaining(m.args[c].timeout, elapsed);
    if m.l.k.tcbs[c].error != EOK then (m1, Done(m.l.k.tcbs[c].error))
    else if m.s.entry == 0 && left == 0 then (m1.(l := WithError(m1.l, ETIMEOUT)), Done(ETIMEOUT))
    else RecvLoop(m1, h, m.args[c].size, left)
  }

  lemma ResumedShape(m: Mq)
    requires MqInv(m) && Back(m.l)
    ensures Shape(Resumed(m)) && CanBlock(Resumed(m).l) && m.l.k.current in m.args
  {
    hide Inv, CallOk, NodesInv;
    LeaveOk(m.l);
  }

  /** The end of rt_mq_recv: the message is copied out and the node given back. */
  ghost function RecvRelease(m: Mq, h: Holder): (Mq, Outcome)
    requires NodesInv(m.s) && h in m.s.flight && m.s.flight[h].Taken?
  {
    (m.(s := Release(m.s, h)), Delivered(CopyOut(m.s, h)))
  }

  /** rt_mq_control(RT_IPC_CMD_RESET) */
  ghost function Reset(m: Mq): Mq
    requires MqInv(m)
  {
    m.(l := WakeAll(m.l, m.rx), s := Clear(m.s))
  }

  ghost function Elsewhere(m: Mq, x: Step): Mq
    requires MqInv(m) && Foreign(m.l, x)
  {
    m.(l := Other(m.l, x), args := map t | t in m.args && t in CallsAfter(m.l.calls, x) :: m.args[t])
  }

  // ---------- runs ----------

  datatype MqStep =
    | SendTakeStep(h: Holder, msg: seq<Byte>, urgent: bool)
    | FillStep(h: Holder)
    | SendLinkStep(h: Holder)
    | RecvStep(h: Holder, size: nat, timeout: int)
    | RecvAgainStep(h: Holder, elapsed: nat)
    | ReleaseStep(h: Holder)
    | ResetStep
    | ElsewhereStep(x: Step)

  ghost predicate MqEnabled(m: Mq, step: MqStep)
    requires MqInv(m)
  {
    match step
    case SendTakeStep(h, _, _) => h !in m.s.flight
    case FillStep(h) => h in m.s.flight && m.s.flight[h].Blank?
    case SendLinkStep(h) => h in m.s.flight && m.s.flight[h].Filled?
    case RecvStep(h, _, timeout) => h !in m.s.flight && (m.s.entry == 0 && timeout != 0 ==> CanBlock(m.l))
    case RecvAgainStep(h, _) => h !in m.s.flight && Back(m.l)
    case ReleaseStep(h) => h in m.s.flight && m.s.flight[h].Taken?
    case ResetStep => true
    case ElsewhereStep(x) => Foreign(m.l, x)
  }

  ghost function MqNext(m: Mq, step: MqStep): (Mq, Outcome)
    requires MqInv(m) && MqEnabled(m, step)
  {
    match step
    case SendTakeStep(h, msg, urgent) => SendTake(m, h, msg, urgent)
    case FillStep(h) => (m.(s := Fill(m.s, h)), InFlight)
    case SendLinkStep(h) => SendLink(m, h)
    case _ => MqNextOther(m, step)
  }

  ghost function MqNextOther(m: Mq, step: MqStep): (Mq, Outcome)
    requires MqInv(m) && MqEnabled(m, step) && !step.SendTakeStep? && !step.FillStep? && !step.SendLinkStep?
  {
    hide Ok, NodesInv, Covered, Foreign, Back, CanBlock;
    if step.RecvStep? then RecvLoop(m, step.h, step.size, step.timeout)
    else if step.RecvAgainStep? then RecvAgain(m, step.h, step.elapsed)
    else if step.ReleaseStep? then RecvRelease(m, step.h)
    else if step.ResetStep? then (Reset(m), Done(EOK))
    else (Elsewhere(m, step.x), Pending)
  }

  lemma SendTakeInv(m: Mq, h: Holder, msg: seq<Byte>, urgent: bool)
    requires MqInv(m) && h !in m.s.flight
    ensures MqInv(SendTake(m, h, msg, urgent).0)
  {
    hide Ok, Linked, Housed, Counted, Filed;
    HeadFacts(m.s);
    if |msg| <= m.s.msgSize && m.s.idleHead.At? { TakeIdleOk(m.s, h, msg, urgent); }
  }

  lemma FillInv(m: Mq, h: Holder)
    requires MqInv(m) && h in m.s.flight && m.s.flight[h].Blank?
    ensures MqInv(m.(s := Fill(m.s, h)))
  {
    hide Ok, Linked, Housed, Counted, Filed;
    FillOk(m.s, h);
  }

  lemma SendLinkInv(m: Mq, h: Holder)
    requires MqInv(m) && h in m.s.flight && m.s.flight[h].Filled?
    ensures MqInv(SendLink(m, h).0)
  {
    hide Inv, CallOk, Linked, Housed, Counted, Filed, Fresh;
    if m.s.flight[h].urgent { LinkFirstOk(m.s, h); } else { LinkLastOk(m.s, h); }
    if Waiters(m) != [] { WakeFirst(m.l, m.rx, m.rx); }
  }

  lemma RecvLoopInv(m: Mq, h: Holder, size: nat, timeout: int)
    requires Shape(m) && h !in m.s.flight && (m.s.entry == 0 && timeout != 0 ==> CanBlock(m.l))
    requires Covered(m.l, m.rx, m.s.entry, 1)
    ensures MqInv(RecvLoop(m, h, size, timeout).0)
  {
    if m.s.entry == 0 { RecvBlockInv(m, h, size, timeout); } else { RecvTakeInv(m, h, size); }
  }

  lemma RecvBlockInv(m: Mq, h: Holder, size: nat, timeout: int)
    requires Shape(m) && m.s.entry == 0 && (timeout != 0 ==> CanBlock(m.l))
    ensures MqInv(RecvLoop(m, h, size, timeout).0)
  {
    hide Inv, CallOk, NodesInv;
    if timeout != 0 { Begun(m.l, m.rx, m.order, timeout > 0); }
  }

  lemma RecvTakeInv(m: Mq, h: Holder, size: nat)
    requires Shape(m) && h !in m.s.flight && m.s.entry != 0 && Covered(m.l, m.rx, m.s.entry, 1)
    ensures m.s.head.At? && MqInv(m.(s := TakeHead(m.s, h, size)))
  {
    hide Ok, Linked, Housed, Counted, Filed, Fresh;
    HeadFacts(m.s);
    TakeHeadOk(m.s, h, size);
  }

  lemma BackHere(m: Mq)
    requires Shape(m) && Back(m.l)
    ensures m.l.calls[m.l.k.current].wid == m.rx
  {
    hide Inv;
    assert CallOk(m.l, m.l.k.current);
  }

  lemma RecvAgainInv(m: Mq, h: Holder, elapsed: nat)
    requires MqInv(m) && Back(m.l) && h !in m.s.flight
    ensures MqInv(RecvAgain(m, h, elapsed).0)
  {
    hide Ok, NodesInv, RecvLoop, Fresh, Remaining;
    ResumedShape(m);
    BackHere(m);
    LeaveFresh(m.l, m.rx);
    var m1, left := Resumed(m), Remaining(m.args[m.l.k.current].timeout, elapsed);
    if m.l.k.tcbs[m.l.k.current].error == EOK {
      if m.s.entry == 0 && left == 0 { WithErrorOk(m1.l, ETIMEOUT); }
      else { RecvLoopInv(m1, h, m.args[m.l.k.current].size, left); }
    }
  }

  lemma ResetInv(m: Mq)
    requires MqInv(m)
    ensures MqInv(Reset(m))
  {
    hide Inv, CallOk, NodesOk;
    WakeAllOk(m.l, m.rx);
    ClearOk(m.s);
  }

  lemma ElsewhereInv(m: Mq, x: Step)
    requires MqInv(m) && Foreign(m.l, x)
    ensures MqInv(Elsewhere(m, x))
  {
    hide Ok, NodesInv, Foreign;
    OtherOk(m.l, x);
    OtherFresh(m.l, x, m.rx);
  }

  lemma ReleaseInv(m: Mq, h: Holder)
    requires MqInv(m) && h in m.s.flight && m.s.flight[h].Taken?
    ensures MqInv(RecvRelease(m, h).0)
  {
    hide Ok, Linked, Housed, Counted, Filed;
    ReleaseOk(m.s, h);
  }

  lemma MqStepInv(m: Mq, step: MqStep)
    requires MqInv(m) && MqEnabled(m, step)
    ensures MqInv(MqNext(m, step).0)
  {
    hide Shape, Fresh, SendTake, SendLink, RecvLoop, RecvAgain, RecvRelease, Reset, Elsewhere;
    match step {
      case SendTakeStep(h, msg, urgent) => SendTakeInv(m, h, msg, urgent);
      case FillStep(h) => FillInv(m, h);
      case SendLinkStep(h) => SendLinkInv(m, h);
      case RecvStep(h, size, timeout) => RecvLoopInv(m, h, size, timeout);
      case RecvAgainStep(h, elapsed) => RecvAgainInv(m, h, elapsed);
      case ReleaseStep(h) => ReleaseInv(m, h);
      case ResetStep => ResetInv(m);
      case ElsewhereStep(x) => ElsewhereInv(m, x);
    }
  }

  // ---------- what a step does to the messages ----------

  /** The queue of messages after a step. */
  ghost predicate ItemsAfter(m: Mq, step: MqStep, r: Outcome, m1: Mq) {
    match step
    case SendLinkStep(h) =>
      h in m.s.flight && m.s.flight[h].Filled?
      && m1.s.items == if m.s.flight[h].urgent then [m.s.flight[h].msg] + m.s.items else m.s.items + [m.s.flight[h].msg]
    case RecvStep(h, _, _) => TakenFrom(m, h, r, m1)
    case RecvAgainStep(h, _) => TakenFrom(m, h, r, m1)
    case ResetStep => m1.s.items == []
    case _ => m1.s.items == m.s.items
  }

  /** A successful receive takes the oldest message; any other leaves the queue alone. */
  ghost predicate TakenFrom(m: Mq, h: Holder, r: Outcome, m1: Mq) {
    if r.InFlight? then h in m1.s.flight && m.s.items == [m1.s.flight[h].msg] + m1.s.items
    else m1.s.items == m.s.items
  }

  /** A message on the way is not lost and not exchanged for another. */
  ghost predicate FlightsKept(m: Mq, step: MqStep, m1: Mq) {
    forall g :: g in m.s.flight && !(step.SendLinkStep? && g == step.h) && !(step.ReleaseStep? && g == step.h) ==>
      g in m1.s.flight && m1.s.flight[g].n == m.s.flight[g].n && m1.s.flight[g].msg == m.s.flight[g].msg
  }

  /** The queue is a queue of messages with two ends to send to: rt_mq_send appends, rt_mq_urgent puts in front, and a
      receive takes from the front. */
  lemma MqStepItems(m: Mq, step: MqStep)
    requires MqInv(m) && MqEnabled(m, step)
    ensures ItemsAfter(m, step, MqNext(m, step).1, MqNext(m, step).0)
    ensures FlightsKept(m, step, MqNext(m, step).0)
  {
    hide MqInv, MqEnabled, MqNext, ItemsAfter, FlightsKept;
    if step.SendTakeStep? || step.FillStep? || step.SendLinkStep? { SendItems(m, step); }
    else if step.RecvStep? || step.RecvAgainStep? { RecvItems(m, step); }
    else { RestItems(m, step); }
  }

  lemma SendItems(m: Mq, step: MqStep)
    requires MqInv(m) && MqEnabled(m, step) && (step.SendTakeStep? || step.FillStep? || step.SendLinkStep?)
    ensures ItemsAfter(m, step, MqNext(m, step).1, MqNext(m, step).0)
    ensures FlightsKept(m, step, MqNext(m, step).0)
  {
    hide Ok, Linked, Housed, Counted, Foreign, Fresh, Covered;
  }

  lemma RecvItems(m: Mq, step: MqStep)
    requires MqInv(m) && MqEnabled(m, step) && (step.RecvStep? || step.RecvAgainStep?)
    ensures ItemsAfter(m, step, MqNext(m, step).1, MqNext(m, step).0)
    ensures FlightsKept(m, step, MqNext(m, step).0)
  {
    hide Ok, NodesInv, Remaining, Fresh, Covered, RecvLoop, RecvAgain, CanBlock, Back;
    if step.RecvStep? { RecvLoopItems(m, step.h, step.size, step.timeout); } else { RecvAgainItems(m, step.h, step.elapsed); }
  }

  lemma RestItems(m: Mq, step: MqStep)
    requires MqInv(m) && MqEnabled(m, step) && (step.ReleaseStep? || step.ResetStep? || step.ElsewhereStep?)
    ensures ItemsAfter(m, step, MqNext(m, step).1, MqNext(m, step).0)
    ensures FlightsKept(m, step, MqNext(m, step).0)
  {
    hide Ok, Linked, Housed, Counted, Foreign, Fresh, Covered;
    if step.ResetStep? { ClearOk(m.s); }
  }

  lemma RecvLoopItems(m: Mq, h: Holder, size: nat, timeout: int)
    requires Shape(m) && h !in m.s.flight && (m.s.entry == 0 && timeout != 0 ==> CanBlock(m.l))
    ensures var (m1, r) := RecvLoop(m, h, size, timeout);
      TakenFrom(m, h, r, m1) && forall g :: g in m.s.flight ==> g in m1.s.flight && m1.s.flight[g] == m.s.flight[g]
  {
    hide Ok, Linked, Housed, Counted;
    EntryHead(m.s);
    HeadFacts(m.s);
  }

  lemma RecvAgainItems(m: Mq, h: Holder, elapsed: nat)
    requires MqInv(m) && h !in m.s.flight && Back(m.l)
    ensures var (m1, r) := RecvAgain(m, h, elapsed);
      TakenFrom(m, h, r, m1) && forall g :: g in m.s.flight ==> g in m1.s.flight && m1.s.flight[g] == m.s.flight[g]
  {
    hide Ok, NodesInv, RecvLoop, Remaining;
    ResumedShape(m);
    var c := m.l.k.current;
    var m1, left := Resumed(m), Remaining(m.args[c].timeout, elapsed);
    if m.l.k.tcbs[c].error == EOK && !(m.s.entry == 0 && left == 0) { RecvLoopItems(m1, h, m.args[c].size, left); }
  }

  /** A message is refused as too long, or because every node is in the queue or on the way, and for no other reason. */
  lemma SendRefusedIff(m: Mq, h: Holder, msg: seq<Byte>, urgent: bool)
    requires MqInv(m)
    ensures SendTake(m, h, msg, urgent).1 == Done(EFULL) <==>
      |msg| <= m.s.msgSize && m.s.entry + |m.s.flight| == |m.s.next|
    ensures SendTake(m, h, msg, urgent).1 == Done(ERROR) <==> |msg| > m.s.msgSize
  {
    hide Ok;
    FullIff(m.s);
  }

  // ---------- runs ----------

  /** A step from m to m1. The functions that describe steps are defined where the invariant holds; that it holds in
      every state of a run is shown, not assumed. */
  ghost predicate MqSteps(m: Mq, step: MqStep, m1: Mq) {
    MqInv(m) ==> MqEnabled(m, step) && m1 == MqNext(m, step).0
  }

  ghost predicate MqRun(ms: seq<Mq>, steps: seq<MqStep>) {
    && |ms| == |steps| + 1
    && forall i :: 0 <= i < |steps| ==> MqSteps(ms[i], steps[i], ms[i + 1])
  }

  lemma {:induction false} MqRunInv(ms: seq<Mq>, steps: seq<MqStep>, i: nat)
    requires MqRun(ms, steps) && MqInv(ms[0]) && i < |ms|
    ensures MqInv(ms[i]) && (i < |steps| ==> MqEnabled(ms[i], steps[i]))
  {
    hide MqInv, MqEnabled, MqNext;
    if i > 0 {
      MqRunInv(ms, steps, i - 1);
      MqStepInv(ms[i - 1], steps[i - 1]);
      assert MqSteps(ms[i - 1], steps[i - 1], ms[i]);
    }
    if i < |steps| { assert MqSteps(ms[i], steps[i], ms[i + 1]); }
  }

  /** The queue as rt_mq_init leaves it. */
  ghost predicate MqStart(m: Mq, k: State, rx: Wid, order: Order) {
    && Inv(k) && WaitQ(rx) in k.lists && k.lists[WaitQ(rx)] == []
    && m == Mq(Layer(k, {rx}, map[]), rx, order, m.s, map[]) && Initial(m.s)
  }

  lemma StartInv(m: Mq, k: State, rx: Wid, order: Order)
    requires MqStart(m, k, rx, order)
    ensures MqInv(m)
  {
    hide Inv, Initial;
    InitialOk(m.s);
  }

  /** Node n is on the free list, in the queue, or in the hands of one activation, and only there. */
  ghost predicate InOnePlace(s: Nodes, n: nat) {
    || (n in s.idle && n !in s.queue && forall h :: h in s.flight ==> s.flight[h].n != n)
    || (n in s.queue && n !in s.idle && forall h :: h in s.flight ==> s.flight[h].n != n)
    || (n !in s.queue && n !in s.idle && exists h :: HeldOnlyBy(s, n, h))
  }

  ghost predicate HeldOnlyBy(s: Nodes, n: nat, h: Holder) {
    forall g :: g in s.flight && s.flight[g].n == n <==> g == h
  }

  lemma EveryNodeInOnePlace(s: Nodes, n: nat)
    requires NodesOk(s) && n < |s.next|
    ensures InOnePlace(s, n)
  {
    hide Linked, Counted, Filed;
    if s.place[n].With? { assert HeldOnlyBy(s, n, s.place[n].h); }
  }

  ghost predicate QueueInOrder(m: Mq) {
    && Ok(m.l) && m.rx in m.l.ours && (Waiters(m) != [] ==> m.s.entry <= |Fresh(m.l, m.rx)|)
    && m.s.entry == |m.s.queue| && Links(m.s.next, m.s.head, m.s.queue) && NoDup(m.s.queue)
    && m.s.tail == (if m.s.queue == [] then Null else At(m.s.queue[|m.s.queue| - 1]))
    && Links(m.s.next, m.s.idleHead, m.s.idle) && NoDup(m.s.idle)
    && forall n: nat :: n < |m.s.next| ==> InOnePlace(m.s, n)
  }

  /** In every state of every run from rt_mq_init: each node is in one place, the pointers lead through the queue from
      its head to its tail, entry is the number of messages, and if receivers wait, every message in the queue is on
      offer to a receiver already woken. */
  lemma MessageQueueRuns(ms: seq<Mq>, steps: seq<MqStep>, k: State, rx: Wid, order: Order, i: nat)
    requires MqRun(ms, steps) && MqStart(ms[0], k, rx, order) && i < |ms|
    ensures QueueInOrder(ms[i])
  {
    hide CallOk, Inv, Housed, Counted, Filed, InOnePlace, Links, NoDup;
    StartInv(ms[0], k, rx, order);
    MqRunInv(ms, steps, i);
    hide MqRun, MqStart;
    var m := ms[i];
    forall n: nat | n < |m.s.next| ensures InOnePlace(m.s, n) { EveryNodeInOnePlace(m.s, n); }
  }

  // ---------- the object ----------

  class RtMessageQueue {
    const kernel: Kernel
    const rx: Wid
    const order: Order
    const msgSize: nat
    const next: array<Ptr>
    const body: array<seq<Byte>>
    var head: Ptr
    var tail: Ptr
    var idleHead: Ptr
    var entry: int
    ghost var queue: seq<nat>
    ghost var idle: seq<nat>
    ghost var items: seq<seq<Byte>>
    ghost var place: seq<Place>
    ghost var flight: map<Holder, Flight>
    ghost var calls: map<Tid, Call>
    ghost var args: map<Tid, Arg>

    ghost function Store(): Nodes
      reads this, next, body
    {
      Nodes(msgSize, next[..], body[..], head, tail, idleHead, entry, queue, idle, items, place, flight)
    }

    ghost function Abs(): Mq
      reads this, kernel, next, body
    {
      Mq(Layer(kernel.St(), {rx}, calls), rx, order, Store(), args)
    }

    /** rt_mq_init */
    constructor (kernel: Kernel, rx: Wid, order: Order, msgSize: nat, next: array<Ptr>, body: array<seq<Byte>>)
      requires Inv(kernel.St()) && WaitQ(rx) in kernel.lists && kernel.lists[WaitQ(rx)] == []
      requires next.Length == body.Length && forall n :: 0 <= n < body.Length ==> |body[n]| == msgSize
      modifies next
      ensures this.kernel == kernel && this.next == next && this.body == body
      ensures MqStart(Abs(), kernel.St(), rx, order) && MqInv(Abs())
    {
      hide Inv, MqInv, NodesInv;
      this.kernel, this.rx, this.order, this.msgSize, this.next, this.body := kernel, rx, order, msgSize, next, body;
      head, tail, idleHead, entry := Null, Null, Null, 0;
      queue, items, flight, calls, args := [], [], map[], map[], map[];
      idle, place := CountDown(next.Length), seq(next.Length, _ => Idle);
      new;
      var temp := 0;
      while temp < next.Length
        invariant temp <= next.Length && idleHead == (if temp == 0 then Null else At(temp - 1))
        invariant forall i :: 0 <= i < temp ==> next[i] == (if i == 0 then Null else At(i - 1))
        modifies next, `idleHead
      {
        next[temp] := idleHead;
        idleHead := At(temp);
        temp := temp + 1;
      }
      StartInv(Abs(), kernel.St(), rx, order);
    }

    /** rt_mq_send and rt_mq_urgent up to the copying of the message; n is their local msg. */
    method SendTakeRegion(msg: seq<Byte>, ghost urgent: bool, ghost h: Holder) returns (n: Ptr, r: Outcome)
      requires MqInv(Abs()) && h !in flight
      modifies this
      ensures (Abs(), r) == SendTake(old(Abs()), h, msg, urgent)
      ensures r.InFlight? ==> n.At? && h in flight && flight[h] == Blank(n.n, msg, urgent)
    {
      hide Ok, Linked, Housed, Counted, Filed;
      if |msg| > msgSize { return Null, Done(ERROR); }
      n := idleHead;
      if n.Null? { return n, Done(EFULL); }
      HeadFacts(Store());
      idleHead := next[n.n];
      idle, place, flight := idle[1..], place[n.n := With(h)], flight[h := Blank(n.n, msg, urgent)];
      r := InFlight;
    }

    /** The copying, interrupts enabled. */
    method CopyIn(n: nat, msg: seq<Byte>, urgent: bool, ghost h: Holder)
      requires MqInv(Abs()) && h in flight && flight[h] == Blank(n, msg, urgent)
      modifies next, body, `flight
      ensures Abs() == old(Abs()).(s := Fill(old(Store()), h))
      ensures h in flight && flight[h] == Filled(n, msg, urgent)
    {
      hide Ok, Linked, Counted;
      assert FlightOk(Store(), flight[h]);
      if !urgent { next[n] := Null; }
      body[n] := msg + body[n][|msg|..];
      flight := flight[h := Filled(n, msg, urgent)];
    }

    method ResumeHead()
      requires Ok(Abs().l)
      modifies this`calls, kernel
      ensures Abs() == WakeHead(old(Abs()))
    {
      hide CallOk;
      if kernel.lists[WaitQ(rx)] != [] {
        calls := calls[kernel.lists[WaitQ(rx)][0] := Call(rx, Woke(EOK))];
        kernel.IpcListResume(rx);
      }
    }

    /** The second region of rt_mq_send. */
    method SendRegion(n: nat, ghost h: Holder)
      requires MqInv(Abs()) && h in flight && flight[h].Filled? && !flight[h].urgent && flight[h].n == n
      modifies this, kernel, next
      ensures (Abs(), Done(EOK)) == SendLink(old(Abs()), h)
    {
      hide Inv, CallOk, NodesOk, LinkLast;
      LinkTail(n, h);
      ResumeHead();
    }

    method LinkTail(n: nat, ghost h: Holder)
      requires NodesOk(Store()) && h in flight && flight[h].Filled? && flight[h].n == n
      modifies next, `head, `tail, `entry, `queue, `items, `place, `flight
      ensures Store() == LinkLast(old(Store()), h)
    {
      hide NodesOk, LinkLast, Landed, FlightOk;
      ghost var s := Store();
      HeadFacts(s);
      FlightFacts(s, h);
      LinkLastIs(s, h);
      if tail != Null { next[tail.n] := At(n); }
      assert next[..] == if s.tail.At? then s.next[s.tail.n := At(n)] else s.next;
      tail := At(n);
      if head == Null { head := At(n); }
      entry := entry + 1;
      queue, items, place, flight := queue + [n], items + [flight[h].msg], place[n := Queued], Landed(s, h);
    }

    /** The second region of rt_mq_urgent. */
    method UrgentRegion(n: nat, ghost h: Holder)
      requires MqInv(Abs()) && h in flight && flight[h].Filled? && flight[h].urgent && flight[h].n == n
      modifies this, kernel, next
      ensures (Abs(), Done(EOK)) == SendLink(old(Abs()), h)
    {
      hide Inv, CallOk, NodesOk, LinkFirst;
      LinkFront(n, h);
      ResumeHead();
    }

    method LinkFront(n: nat, ghost h: Holder)
      requires NodesOk(Store()) && h in flight && flight[h].Filled? && flight[h].n == n
      modifies next, `head, `tail, `entry, `queue, `items, `place, `flight
      ensures Store() == LinkFirst(old(Store()), h)
    {
      hide Linked, Housed, Counted, Filed;
      ghost var s := Store();
      FlightFacts(s, h);
      next[n] := head;
      head := At(n);
      if tail == Null { tail := At(n); }
      entry := entry + 1;
      queue, items, place, flight := [n] + queue, [flight[h].msg] + items, place[n := Queued], Landed(s, h);
    }

    /** rt_mq_recv up to its first rt_schedule, or until the head is taken; n is its local msg. */
    method RecvRegion(ghost size: nat, timeout: int, ghost h: Holder) returns (n: Ptr, r: Outcome)
      requires Shape(Abs()) && (entry == 0 && timeout != 0 ==> CanBlock(Abs().l))
      modifies this, kernel
      ensures (Abs(), r) == RecvLoop(old(Abs()), h, size, timeout)
      ensures r.InFlight? ==> n.At? && h in flight && flight[h].Taken? && flight[h].n == n.n && flight[h].size == size
    {
      hide Ok, Linked, Housed, Counted, Filed;
      if entry == 0 {
        if timeout == 0 { return Null, Done(ETIMEOUT); }
        SuspendCurrent(size, timeout);
        return Null, Pending;
      }
      EntryHead(Store());
      n := UnlinkHead(size, h);
      r := InFlight;
    }

    method UnlinkHead(ghost size: nat, ghost h: Holder) returns (n: Ptr)
      requires NodesOk(Store()) && head.At?
      modifies `head, `tail, `entry, `queue, `items, `place, `flight
      ensures Store() == TakeHead(old(Store()), h, size)
      ensures n.At? && h in flight && flight[h].Taken? && flight[h].n == n.n && flight[h].size == size
    {
      hide Linked, Housed, Counted, Filed;
      HeadFacts(Store());
      n := head;
      head := next[n.n];
      if tail == n { tail := Null; }
      entry := entry - 1;
      flight := flight[h := Taken(n.n, items[0], size)];
      queue, items, place := queue[1..], items[1..], place[n.n := With(h)];
    }

    method SuspendCurrent(ghost size: nat, timeout: int)
      requires Ok(Abs().l) && CanBlock(Abs().l)
      modifies this`calls, this`args, kernel
      ensures var m := old(Abs());
        Abs() == m.(l := Begin(m.l, rx, order, timeout > 0), args := m.args[m.l.k.current := Arg(size, timeout)])
    {
      hide Inv, Lists, CallOk, Block;
      InvCurrent(kernel.St());
      calls := calls[kernel.current := Call(rx, Waits)];
      args := args[kernel.current := Arg(size, timeout)];
      kernel.BlockCurrent(rx, order, timeout > 0);
    }

    ghost method LeaveCall()
      modifies this`calls, this`args
      ensures Abs() == Resumed(old(Abs()))
    {
      calls := map t | t in calls && t != kernel.current :: calls[t];
      args := map t | t in args && t != kernel.current :: args[t];
    }

    /** What rt_mq_recv does when it is back from rt_schedule. */
    method RecvReturns(size: nat, timeout: int, elapsed: nat, ghost h: Holder) returns (n: Ptr, r: Outcome)
      requires MqInv(Abs()) && Back(Abs().l)
      requires kernel.current in args && args[kernel.current] == Arg(size, timeout)
      modifies this, kernel
      ensures (Abs(), r) == RecvAgain(old(Abs()), h, elapsed)
      ensures r.InFlight? ==> n.At? && h in flight && flight[h].Taken? && flight[h].n == n.n && flight[h].size == size
    {
      hide MqInv, RecvLoop, Ok, NodesInv;
      ResumedShape(Abs());
      LeaveCall();
      if kernel.tcbs[kernel.current].error != EOK { return Null, Done(kernel.tcbs[kernel.current].error); }
      var left := timeout;
      if left > 0 {
        left := left - elapsed;
        if left < 0 { left := 0; }
      }
      if entry == 0 && left == 0 {
        kernel.SetThreadError(kernel.current, ETIMEOUT);
        return Null, Done(ETIMEOUT);
      }
      n, r := RecvRegion(size, left, h);
    }

    /** The end of rt_mq_recv. */
    method ReleaseRegion(n: nat, size: nat, ghost h: Holder) returns (bytes: seq<Byte>)
      requires MqInv(Abs()) && h in flight && flight[h].Taken? && flight[h].n == n && flight[h].size == size
      modifies this, next
      ensures (Abs(), Delivered(bytes)) == RecvRelease(old(Abs()), h)
    {
      hide Ok, Linked, Housed, Counted;
      ghost var s := Store();
      FlightFacts(s, h);
      bytes := body[n][..if size > msgSize then msgSize else size];
      next[n] := idleHead;
      idleHead := At(n);
      idle, place, flight := [n] + idle, place[n := Idle], Landed(s, h);
    }

    method ResetRegion()
      requires MqInv(Abs())
      modifies this, kernel, next
      ensures Abs() == Reset(old(Abs())) && MqInv(Abs())
    {
      hide CallOk, Inv, Linked, Housed, Counted, Filed, Covered;
      ghost var m := Abs();
      ResetInv(m);
      calls := WakeAll(m.l, rx).calls;
      kernel.IpcListResumeAll(rx);
      DropAll();
      entry := 0;
    }

    /** The loop that releases every message. */
    method DropAll()
      requires NodesOk(Store())
      modifies next, `head, `tail, `idleHead, `queue, `idle, `items, `place
      ensures NodesOk(old(Store())) && Store().(entry := 0) == Clear(old(Store()))
    {
      hide NodesOk, DropHead, Clear;
      while head != Null
        invariant NodesOk(Store()) && Clear(Store()) == Clear(old(Store())) && flight == old(flight) && entry == old(entry)
        decreases |queue|
      {
        DropHeadOk(Store());
        DropUnfolds(Store());
        DropOne();
      }
      NothingToDrop(Store());
    }

    method DropOne()
      requires NodesOk(Store()) && head.At?
      modifies next, `head, `tail, `idleHead, `queue, `idle, `items, `place
      ensures Store() == DropHead(old(Store()))
    {
      hide NodesOk, DropHead;
      ghost var s := Store();
      HeadFacts(s);
      var n := head.n;
      head := next[n];
      if tail == At(n) { tail := Null; }
      next[n] := idleHead;
      idleHead := At(n);
      assert next[..] == s.next[n := s.idleHead];
      queue, items, idle, place := queue[1..], items[1..], [n] + idle, place[n := Idle];
      DropIs(s, Store());
    }
  }
}
