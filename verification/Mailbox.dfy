/** Mailboxes: rt_mb_send_wait, rt_mb_recv, rt_mb_control (rt-thread/src/ipc.c). */
module Mailbox {
  import opened Seqs
  import opened KernelSpec
  import opened KernelRuns
  import opened Waiting
  import opened KernelObject

  type Msg = int

  datatype Outcome = Done(error: Err) | Received(msg: Msg) | Pending

  /** The locals of a blocked call: what is being sent, and the timeout that is left. */
  datatype Arg = Arg(value: Msg, timeout: int)

  /** sent and got are the messages sent and received since the last reset. */
  datatype Mb = Mb(l: Layer, rx: Wid, tx: Wid, order: Order,
                   pool: seq<Msg>, entry: nat, inOff: nat, outOff: nat,
                   args: map<Tid, Arg>, sent: seq<Msg>, got: seq<Msg>)
  {
    function Size(): nat { |pool| }
  }

  function Waiters(m: Mb, w: Wid): seq<Tid>
    requires WaitQ(w) in m.l.k.lists
  {
    m.l.k.lists[WaitQ(w)]
  }

  // ---------- the ring ----------

  /** The slot i steps round a ring of n from off. */
  function Slot(off: nat, i: nat, n: nat): nat
    requires off < n && i <= n
  {
    if off + i < n then off + i else off + i - n
  }

  ghost predicate RingOk(m: Mb) {
    && m.entry <= m.Size()
    && (m.Size() == 0 ==> m.inOff == 0 && m.outOff == 0)
    && (m.Size() > 0 ==> m.outOff < m.Size() && m.inOff == Slot(m.outOff, m.entry, m.Size()))
  }

  /** The queue the ring stands for. */
  ghost function Contents(m: Mb): seq<Msg>
    requires RingOk(m)
  {
    seq(m.entry, i requires 0 <= i < m.entry => m.pool[Slot(m.outOff, i, m.Size())])
  }

  /** The offset after one step round the ring. */
  function Bump(offset: nat, size: nat): nat {
    if offset + 1 >= size then 0 else offset + 1
  }

  /** Storing a message, before anyone is woken. */
  function Store(m: Mb, value: Msg): Mb
    requires RingOk(m) && m.entry < m.Size()
  {
    m.(pool := m.pool[m.inOff := value], inOff := Bump(m.inOff, m.Size()), entry := m.entry + 1, sent := m.sent + [value])
  }

  function Fetch(m: Mb): Mb
    requires RingOk(m) && 0 < m.entry
  {
    m.(outOff := Bump(m.outOff, m.Size()), entry := m.entry - 1, got := m.got + [m.pool[m.outOff]])
  }

  /** The ring is a bounded FIFO queue: a message is stored at its end ... */
  lemma StoreAppends(m: Mb, value: Msg)
    requires RingOk(m) && m.entry < m.Size()
    ensures RingOk(Store(m, value)) && Contents(Store(m, value)) == Contents(m) + [value]
  {
  }

  /** ... and fetched from its front. */
  lemma FetchTakesFirst(m: Mb)
    requires RingOk(m) && 0 < m.entry
    ensures RingOk(Fetch(m)) && Contents(m) == [m.pool[m.outOff]] + Contents(Fetch(m))
  {
    var m1 := Fetch(m);
    forall i | 0 <= i < m1.entry ensures Contents(m1)[i] == Contents(m)[i + 1] {}
  }

  // ---------- invariant ----------

  ghost predicate Shape(m: Mb) {
    && Ok(m.l) && m.l.ours == {m.rx, m.tx} && m.rx != m.tx
    && RingOk(m) && m.entry <= m.Size() && m.args.Keys == m.l.calls.Keys
    && m.got + Contents(m) == m.sent
  }

  ghost predicate MbInv(m: Mb) {
    && Shape(m)
    && Covered(m.l, m.rx, m.entry, 0)
    && Covered(m.l, m.tx, m.Size() - m.entry, 0)
  }

  // ---------- the critical regions ----------

  ghost function Suspend1(m: Mb, w: Wid, arg: Arg): Mb
    requires Ok(m.l) && w in m.l.ours && CanBlock(m.l)
  {
    m.(l := Begin(m.l, w, m.order, arg.timeout > 0), args := m.args[m.l.k.current := arg])
  }

  /** rt_list_isempty and rt_ipc_list_resume at the end of a send or a receive. */
  ghost function WakeHead(m: Mb, w: Wid): Mb
    requires Ok(m.l) && w in m.l.ours
  {
    if Waiters(m, w) == [] then m else m.(l := WakeOne(m.l, w, Waiters(m, w)[0]))
  }

  /** The while loop of rt_mb_send_wait, up to its next rt_schedule or its end. */
  ghost function SendLoop(m: Mb, value: Msg, timeout: int): (Mb, Outcome)
    requires Shape(m)
    requires m.entry == m.Size() && timeout != 0 ==> CanBlock(m.l)
  {
    if m.entry == m.Size() then
      if timeout == 0 then (m, Done(EFULL)) else (Suspend1(m, m.tx, Arg(value, timeout)), Pending)
    else (WakeHead(Store(m, value), m.rx), Done(EOK))
  }

  ghost function RecvLoop(m: Mb, timeout: int): (Mb, Outcome)
    requires Shape(m)
    requires m.entry == 0 && timeout != 0 ==> CanBlock(m.l)
  {
    if m.entry == 0 then
      if timeout == 0 then (m, Done(ETIMEOUT)) else (Suspend1(m, m.rx, Arg(0, timeout)), Pending)
    else (WakeHead(Fetch(m), m.tx), Received(m.pool[m.outOff]))
  }

  /** The current thread goes on after rt_schedule. */
  ghost function Resumed(m: Mb): Mb {
    m.(l := Leave(m.l), args := map t | t in m.args && t != m.l.k.current :: m.args[t])
  }

  ghost function SendAgain(m: Mb, elapsed: nat): (Mb, Outcome)
    requires MbInv(m) && Back(m.l) && m.l.calls[m.l.k.current].wid == m.tx
  {
    ResumedShape(m);
    var c := m.l.k.current;
    if m.l.k.tcbs[c].error != EOK then (Resumed(m), Done(m.l.k.tcbs[c].error))
    else SendLoop(Resumed(m), m.args[c].value, Remaining(m.args[c].timeout, elapsed))
  }

  ghost function RecvAgain(m: Mb, elapsed: nat): (Mb, Outcome)
    requires MbInv(m) && Back(m.l) && m.l.calls[m.l.k.current].wid == m.rx
  {
    ResumedShape(m);
    var c := m.l.k.current;
    var left := Remaining(m.args[c].timeout, elapsed);
    var m1 := Resumed(m);
    if m.l.k.tcbs[c].error != EOK then (m1, Done(m.l.k.tcbs[c].error))
    else if m.entry == 0 && left == 0 then (m1.(l := WithError(m1.l, ETIMEOUT)), Done(ETIMEOUT))
    else RecvLoop(m1, left)
  }

  lemma ResumedShape(m: Mb)
    requires MbInv(m) && Back(m.l)
    ensures Shape(Resumed(m)) && CanBlock(Resumed(m).l) && m.l.k.current in m.args
  {
    hide Inv, CallOk, RingOk, Contents;
    LeaveOk(m.l);
    assert Contents(Resumed(m)) == Contents(m) by { ResumedContents(m); }
  }

  lemma ResumedContents(m: Mb)
    requires RingOk(m)
    ensures RingOk(Resumed(m)) && Contents(Resumed(m)) == Contents(m)
  {
  }

  /** rt_mb_control(RT_IPC_CMD_RESET) */
  ghost function Reset(m: Mb): Mb
    requires MbInv(m)
  {
    WakeAllOk(m.l, m.rx);
    m.(l := WakeAll(WakeAll(m.l, m.rx), m.tx), entry := 0, inOff := 0, outOff := 0, sent := [], got := [])
  }

  ghost function Elsewhere(m: Mb, x: Step): Mb
    requires MbInv(m) && Foreign(m.l, x)
  {
    m.(l := Other(m.l, x), args := map t | t in m.args && t in CallsAfter(m.l.calls, x) :: m.args[t])
  }

  // ---------- every step keeps the invariant ----------

  lemma SuspendKeeps(m: Mb, w: Wid, v: Wid, arg: Arg)
    requires Shape(m) && CanBlock(m.l) && m.l.ours == {v, w} && v != w
    ensures var m1 := Suspend1(m, w, arg);
      && Shape(m1) && Fresh(m1.l, w) == Fresh(m.l, w) && Fresh(m1.l, v) == Fresh(m.l, v)
      && Waiters(m1, v) == Waiters(m, v)
  {
    hide Inv, CallOk, Position, Lists, RingOk, Blocked, Block;
    Begun(m.l, w, m.order, arg.timeout > 0);
    BegunElsewhere(m.l, w, v, m.order, arg.timeout > 0);
    var m1 := Suspend1(m, w, arg);
    SameRing(m, m1);
    assert Fresh(m1.l, w) == Fresh(m.l, w) && Fresh(m1.l, v) == Fresh(m.l, v);
  }

  lemma BegunElsewhere(l: Layer, w: Wid, v: Wid, order: Order, timed: bool)
    requires Ok(l) && w in l.ours && v in l.ours && v != w && l.k.tcbs[l.k.current].stat == Running && l.k.current !in l.calls
    ensures var l1 := Begin(l, w, order, timed); WaitQ(v) in l1.k.lists && l1.k.lists[WaitQ(v)] == l.k.lists[WaitQ(v)]
  {
    hide Inv, CallOk, Position, Lists;
    BeginOk(l, w, order, timed);
    hide Begin;
  }

  lemma SameRing(m: Mb, m1: Mb)
    requires RingOk(m) && m1.pool == m.pool && m1.entry == m.entry && m1.inOff == m.inOff && m1.outOff == m.outOff
    ensures RingOk(m1) && Contents(m1) == Contents(m)
  {
  }

  lemma WakeHeadKeeps(m: Mb, w: Wid, v: Wid)
    requires Shape(m) && m.l.ours == {v, w} && v != w
    ensures var m1 := WakeHead(m, w);
      && Shape(m1) && (Waiters(m, w) != [] ==> |Fresh(m1.l, w)| == |Fresh(m.l, w)| + 1)
      && (Waiters(m, w) == [] ==> Waiters(m1, w) == [])
      && Fresh(m1.l, v) == Fresh(m.l, v) && Waiters(m1, v) == Waiters(m, v)
  {
    hide Inv, CallOk, RingOk, Fresh;
    if Waiters(m, w) != [] { WakeFirst(m.l, w, v); }
    SameRing(m, WakeHead(m, w));
  }

  /** A send may come from a sender that has just left the call it was woken in, which the slack stands for. */
  lemma SendLoopInv(m: Mb, value: Msg, timeout: int)
    requires Shape(m) && (m.entry == m.Size() && timeout != 0 ==> CanBlock(m.l))
    requires Covered(m.l, m.rx, m.entry, 0) && Covered(m.l, m.tx, m.Size() - m.entry, 1)
    ensures MbInv(SendLoop(m, value, timeout).0)
  {
    hide Ok, RingOk, Contents, Fresh, Store;
    if m.entry == m.Size() {
      if timeout != 0 { SuspendKeeps(m, m.tx, m.rx, Arg(value, timeout)); }
    } else {
      StoreShape(m, value);
      WakeHeadKeeps(Store(m, value), m.rx, m.tx);
    }
  }

  lemma StoreShape(m: Mb, value: Msg)
    requires Shape(m) && m.entry < m.Size()
    ensures Shape(Store(m, value)) && Store(m, value).entry == m.entry + 1 && Store(m, value).Size() == m.Size()
    ensures Store(m, value).l == m.l && Store(m, value).rx == m.rx && Store(m, value).tx == m.tx
  {
    hide Ok;
    StoreAppends(m, value);
  }

  lemma RecvLoopInv(m: Mb, timeout: int)
    requires Shape(m) && (m.entry == 0 && timeout != 0 ==> CanBlock(m.l))
    requires Covered(m.l, m.rx, m.entry, 1) && Covered(m.l, m.tx, m.Size() - m.entry, 0)
    ensures MbInv(RecvLoop(m, timeout).0)
  {
    hide Ok, RingOk, Contents, Fresh, Fetch;
    if m.entry == 0 {
      if timeout != 0 { SuspendKeeps(m, m.rx, m.tx, Arg(0, timeout)); }
    } else {
      FetchShape(m);
      WakeHeadKeeps(Fetch(m), m.tx, m.rx);
    }
  }

  lemma FetchShape(m: Mb)
    requires Shape(m) && 0 < m.entry
    ensures Shape(Fetch(m)) && Fetch(m).entry == m.entry - 1 && Fetch(m).Size() == m.Size()
    ensures Fetch(m).l == m.l && Fetch(m).rx == m.rx && Fetch(m).tx == m.tx
  {
    hide Ok;
    FetchTakesFirst(m);
  }

  lemma SendAgainInv(m: Mb, elapsed: nat)
    requires MbInv(m) && Back(m.l) && m.l.calls[m.l.k.current].wid == m.tx
    ensures MbInv(SendAgain(m, elapsed).0)
  {
    hide Ok, RingOk, Contents, SendLoop, Fresh, Remaining;
    ResumedShape(m);
    ResumedCovered(m, m.tx, m.rx);
    if m.l.k.tcbs[m.l.k.current].error == EOK {
      SendLoopInv(Resumed(m), m.args[m.l.k.current].value, Remaining(m.args[m.l.k.current].timeout, elapsed));
    }
  }

  lemma RecvAgainInv(m: Mb, elapsed: nat)
    requires MbInv(m) && Back(m.l) && m.l.calls[m.l.k.current].wid == m.rx
    ensures MbInv(RecvAgain(m, elapsed).0)
  {
    hide Ok, RingOk, Contents, RecvLoop, Fresh, Remaining;
    ResumedShape(m);
    ResumedCovered(m, m.rx, m.tx);
    var m1, left := Resumed(m), Remaining(m.args[m.l.k.current].timeout, elapsed);
    if m.l.k.tcbs[m.l.k.current].error == EOK {
      if m.entry == 0 && left == 0 { WithErrorInv(m1, ETIMEOUT); } else { RecvLoopInv(m1, left); }
    }
  }

  lemma WithErrorInv(m: Mb, e: Err)
    requires Shape(m) && m.entry == 0 && CanBlock(m.l) && Covered(m.l, m.tx, m.Size(), 0)
    ensures MbInv(m.(l := WithError(m.l, e)))
  {
    hide Ok, RingOk, Contents;
    WithErrorOk(m.l, e);
    SameRing(m, m.(l := WithError(m.l, e)));
    assert Fresh(WithError(m.l, e), m.tx) == Fresh(m.l, m.tx);
  }

  lemma ResumedCovered(m: Mb, w: Wid, v: Wid)
    requires Shape(m) && Back(m.l) && m.l.calls[m.l.k.current].wid == w && v != w && m.l.ours == {v, w}
    ensures var l1, e := Resumed(m).l, m.l.k.tcbs[m.l.k.current].error;
      && l1.k == m.l.k && Fresh(l1, v) == Fresh(m.l, v) && |Fresh(l1, w)| == |Fresh(m.l, w)| - (if e == EOK then 1 else 0)
  {
    hide Ok, RingOk, Contents;
    LeaveFresh(m.l, w);
  }

  lemma ResetInv(m: Mb)
    requires MbInv(m)
    ensures MbInv(Reset(m))
  {
    hide Inv, CallOk, Foreign;
    WakeAllOk(m.l, m.rx);
    WakeAllOk(WakeAll(m.l, m.rx), m.tx);
    hide WakeAll;
    ResetShape(m);
  }

  lemma ResetShape(m: Mb)
    requires MbInv(m) && Ok(WakeAll(m.l, m.rx)) && Ok(WakeAll(WakeAll(m.l, m.rx), m.tx))
    ensures Shape(Reset(m))
  {
    hide Ok;
  }

  lemma ElsewhereInv(m: Mb, x: Step)
    requires MbInv(m) && Foreign(m.l, x)
    ensures MbInv(Elsewhere(m, x))
  {
    hide Ok, RingOk, Contents, Foreign;
    OtherOk(m.l, x);
    var m1 := Elsewhere(m, x);
    SameRing(m, m1);
    OtherFresh(m.l, x, m.rx);
    OtherFresh(m.l, x, m.tx);
  }

  // ---------- runs ----------

  datatype MbStep =
    | SendStep(value: Msg, timeout: int)
    | SendAgainStep(elapsed: nat)
    | RecvStep(timeout: int)
    | RecvAgainStep(elapsed: nat)
    | ResetStep
    | ElsewhereStep(x: Step)

  ghost predicate MbEnabled(m: Mb, step: MbStep)
    requires MbInv(m)
  {
    match step
    case SendStep(_, timeout) => m.entry == m.Size() && timeout != 0 ==> CanBlock(m.l)
    case SendAgainStep(_) => Back(m.l) && m.l.calls[m.l.k.current].wid == m.tx
    case RecvStep(timeout) => m.entry == 0 && timeout != 0 ==> CanBlock(m.l)
    case RecvAgainStep(_) => Back(m.l) && m.l.calls[m.l.k.current].wid == m.rx
    case ResetStep => true
    case ElsewhereStep(x) => Foreign(m.l, x)
  }

  ghost function MbNext(m: Mb, step: MbStep): (Mb, Outcome)
    requires MbInv(m) && MbEnabled(m, step)
  {
    match step
    case SendStep(value, timeout) => SendLoop(m, value, timeout)
    case SendAgainStep(elapsed) => SendAgain(m, elapsed)
    case RecvStep(timeout) => RecvLoop(m, timeout)
    case RecvAgainStep(elapsed) => RecvAgain(m, elapsed)
    case ResetStep => (Reset(m), Done(EOK))
    case ElsewhereStep(x) => (Elsewhere(m, x), Pending)
  }

  lemma MbStepInv(m: Mb, step: MbStep)
    requires MbInv(m) && MbEnabled(m, step)
    ensures MbInv(MbNext(m, step).0)
  {
    hide Shape, Fresh;
    match step {
      case SendStep(value, timeout) => SendLoopInv(m, value, timeout);
      case SendAgainStep(elapsed) => SendAgainInv(m, elapsed);
      case RecvStep(timeout) => RecvLoopInv(m, timeout);
      case RecvAgainStep(elapsed) => RecvAgainInv(m, elapsed);
      case ResetStep => ResetInv(m);
      case ElsewhereStep(x) => ElsewhereInv(m, x);
    }
  }

  /** What a call returns is what it has done: a message received is the oldest one, RT_EOK from a send means that the
      caller's message was stored, and otherwise no message has moved. */
  ghost predicate Fits(m: Mb, step: MbStep, r: Outcome, m1: Mb) {
    match r
    case Received(msg) => m1.got == m.got + [msg] && m1.sent == m.sent
    case Done(EOK) =>
      && m1.got == (if step.ResetStep? then [] else m.got)
      && (step.ResetStep? ==> m1.sent == [])
      && (step.SendStep? ==> m1.sent == m.sent + [step.value])
      && (step.SendAgainStep? ==> m.l.k.current in m.args && m1.sent == m.sent + [m.args[m.l.k.current].value])
    case _ => m1.got == m.got && m1.sent == m.sent
  }

  lemma OutcomesFit(m: Mb, step: MbStep)
    requires MbInv(m) && MbEnabled(m, step)
    ensures Fits(m, step, MbNext(m, step).1, MbNext(m, step).0)
  {
    hide Ok, RingOk, Contents, Covered, Foreign, CanBlock, Remaining;
    match step {
      case SendAgainStep(_) => ResumedShape(m);
      case RecvAgainStep(_) => ResumedShape(m);
      case _ =>
    }
  }

  /** A step from m to m1. The functions that describe steps are defined where the invariant holds; that it holds in
      every state of a run is shown, not assumed. */
  ghost predicate MbSteps(m: Mb, step: MbStep, m1: Mb) {
    MbInv(m) ==> MbEnabled(m, step) && m1 == MbNext(m, step).0
  }

  ghost predicate MbRun(ms: seq<Mb>, steps: seq<MbStep>) {
    && |ms| == |steps| + 1
    && forall i :: 0 <= i < |steps| ==> MbSteps(ms[i], steps[i], ms[i + 1])
  }

  lemma {:induction false} MbRunInv(ms: seq<Mb>, steps: seq<MbStep>, i: nat)
    requires MbRun(ms, steps) && MbInv(ms[0]) && i < |ms|
    ensures MbInv(ms[i]) && (i < |steps| ==> MbEnabled(ms[i], steps[i]))
  {
    hide MbInv, MbEnabled, MbNext;
    if i > 0 {
      MbRunInv(ms, steps, i - 1);
      MbStepInv(ms[i - 1], steps[i - 1]);
      assert MbSteps(ms[i - 1], steps[i - 1], ms[i]);
    }
    if i < |steps| { assert MbSteps(ms[i], steps[i], ms[i + 1]); }
  }

  /** The mailbox as rt_mb_init leaves it. */
  ghost predicate MbStart(m: Mb, k: State, rx: Wid, tx: Wid, order: Order) {
    && Inv(k) && rx != tx && WaitQ(rx) in k.lists && WaitQ(tx) in k.lists
    && k.lists[WaitQ(rx)] == [] && k.lists[WaitQ(tx)] == []
    && m == Mb(Layer(k, {rx, tx}, map[]), rx, tx, order, m.pool, 0, 0, 0, map[], [], [])
  }

  /** In every state of every run from rt_mb_init the ring is a FIFO queue: what has been received, followed by
      what is in the ring, is what has been sent. And no wake-up is lost: if receivers wait, every message in the
      ring is on offer to a receiver already woken; if senders wait, so is every free slot. */
  lemma MailboxRuns(ms: seq<Mb>, steps: seq<MbStep>, k: State, rx: Wid, tx: Wid, order: Order, i: nat)
    requires MbRun(ms, steps) && MbStart(ms[0], k, rx, tx, order) && i < |ms|
    ensures var m := ms[i];
      && Ok(m.l) && m.rx in m.l.ours && m.tx in m.l.ours && RingOk(m) && m.got + Contents(m) == m.sent
      && (Waiters(m, m.rx) != [] ==> m.entry <= |Fresh(m.l, m.rx)|)
      && (Waiters(m, m.tx) != [] ==> m.Size() - m.entry <= |Fresh(m.l, m.tx)|)
  {
    hide Ok, CallOk;
    StartInv(ms[0], k, rx, tx, order);
    MbRunInv(ms, steps, i);
    hide MbRun, MbStart;
  }

  lemma StartInv(m: Mb, k: State, rx: Wid, tx: Wid, order: Order)
    requires MbStart(m, k, rx, tx, order)
    ensures MbInv(m)
  {
    hide Inv;
  }

  // ---------- the object ----------

  class RtMailbox {
    const kernel: Kernel
    const rx: Wid
    const tx: Wid
    const order: Order
    const pool: array<Msg>
    var entry: nat
    var inOff: nat
    var outOff: nat
    ghost var calls: map<Tid, Call>
    ghost var args: map<Tid, Arg>
    ghost var sent: seq<Msg>
    ghost var got: seq<Msg>

    ghost function Abs(): Mb
      reads this, kernel, pool
    {
      Mb(Layer(kernel.St(), {rx, tx}, calls), rx, tx, order, pool[..], entry, inOff, outOff, args, sent, got)
    }

    /** rt_mb_init */
    constructor (kernel: Kernel, rx: Wid, tx: Wid, order: Order, pool: array<Msg>)
      requires Inv(kernel.St()) && rx != tx && WaitQ(rx) in kernel.lists && WaitQ(tx) in kernel.lists
      requires kernel.lists[WaitQ(rx)] == [] && kernel.lists[WaitQ(tx)] == []
      ensures this.kernel == kernel && this.pool == pool && MbStart(Abs(), kernel.St(), rx, tx, order) && MbInv(Abs())
    {
      this.kernel, this.rx, this.tx, this.order, this.pool := kernel, rx, tx, order, pool;
      entry, inOff, outOff := 0, 0, 0;
      calls, args, sent, got := map[], map[], [], [];
      new;
      StartInv(Abs(), kernel.St(), rx, tx, order);
    }

    method SuspendCurrent(w: Wid, ghost value: Msg, timeout: int)
      requires Shape(Abs()) && CanBlock(Abs().l) && w in {rx, tx}
      modifies this`calls, this`args, kernel
      ensures Abs() == Suspend1(old(Abs()), w, Arg(value, timeout))
    {
      hide Inv, Lists, CallOk, RingOk, Contents, Block;
      InvCurrent(kernel.St());
      calls := calls[kernel.current := Call(w, Waits)];
      args := args[kernel.current := Arg(value, timeout)];
      kernel.BlockCurrent(w, order, timeout > 0);
    }

    method ResumeHead(w: Wid)
      requires Ok(Abs().l) && w in {rx, tx}
      modifies this`calls, kernel
      ensures Abs() == WakeHead(old(Abs()), w)
    {
      hide CallOk;
      if kernel.lists[WaitQ(w)] != [] {
        calls := calls[kernel.lists[WaitQ(w)][0] := Call(w, Woke(EOK))];
        kernel.IpcListResume(w);
      }
    }

    /** rt_mb_send_wait up to its first rt_schedule. */
    method SendRegion(value: Msg, timeout: int) returns (r: Outcome)
      requires Shape(Abs()) && (entry == pool.Length && timeout != 0 ==> CanBlock(Abs().l))
      modifies this, kernel, pool
      ensures (Abs(), r) == SendLoop(old(Abs()), value, timeout)
    {
      hide Ok, Contents;
      if entry == pool.Length {
        if timeout == 0 { return Done(EFULL); }
        SuspendCurrent(tx, value, timeout);
        return Pending;
      }
      ghost var m := Abs();
      pool[inOff] := value;
      inOff := inOff + 1;
      if inOff >= pool.Length { inOff := 0; }
      entry := entry + 1;
      sent := sent + [value];
      assert Abs() == Store(m, value);
      ResumeHead(rx);
      r := Done(EOK);
    }

    method RecvRegion(timeout: int) returns (r: Outcome)
      requires Shape(Abs()) && (entry == 0 && timeout != 0 ==> CanBlock(Abs().l))
      modifies this, kernel
      ensures (Abs(), r) == RecvLoop(old(Abs()), timeout)
    {
      hide Ok, Contents;
      if entry == 0 {
        if timeout == 0 { return Done(ETIMEOUT); }
        SuspendCurrent(rx, 0, timeout);
        return Pending;
      }
      ghost var m := Abs();
      var value := pool[outOff];
      outOff := outOff + 1;
      if outOff >= pool.Length { outOff := 0; }
      entry := entry - 1;
      got := got + [value];
      assert Abs() == Fetch(m);
      ResumeHead(tx);
      r := Received(value);
    }

    /** What rt_mb_send_wait does when it is back from rt_schedule; value and timeout are its locals. */
    method SendReturns(value: Msg, timeout: int, elapsed: nat) returns (r: Outcome)
      requires MbInv(Abs()) && Back(Abs().l) && calls[kernel.current] == Call(tx, calls[kernel.current].phase)
      requires kernel.current in args && args[kernel.current] == Arg(value, timeout)
      modifies this, kernel, pool
      ensures (Abs(), r) == SendAgain(old(Abs()), elapsed)
    {
      hide MbInv, SendLoop, Ok;
      ResumedShape(Abs());
      LeaveCall();
      if kernel.tcbs[kernel.current].error != EOK { return Done(kernel.tcbs[kernel.current].error); }
      var left := timeout;
      if left > 0 {
        left := left - elapsed;
        if left < 0 { left := 0; }
      }
      r := SendRegion(value, left);
    }

    method RecvReturns(timeout: int, elapsed: nat) returns (r: Outcome)
      requires MbInv(Abs()) && Back(Abs().l) && calls[kernel.current] == Call(rx, calls[kernel.current].phase)
      requires kernel.current in args && args[kernel.current].timeout == timeout
      modifies this, kernel
      ensures (Abs(), r) == RecvAgain(old(Abs()), elapsed)
    {
      hide MbInv, RecvLoop, Ok;
      ResumedShape(Abs());
      LeaveCall();
      if kernel.tcbs[kernel.current].error != EOK { return Done(kernel.tcbs[kernel.current].error); }
      var left := timeout;
      if left > 0 {
        left := left - elapsed;
        if left < 0 { left := 0; }
      }
      if entry == 0 && left == 0 {
        kernel.SetThreadError(kernel.current, ETIMEOUT);
        return Done(ETIMEOUT);
      }
      r := RecvRegion(left);
    }

    ghost method LeaveCall()
      modifies this`calls, this`args
      ensures Abs() == Resumed(old(Abs()))
    {
      calls := map t | t in calls && t != kernel.current :: calls[t];
      args := map t | t in args && t != kernel.current :: args[t];
    }

    method ResetRegion()
      requires MbInv(Abs())
      modifies this, kernel
      ensures Abs() == Reset(old(Abs())) && MbInv(Abs())
    {
      hide CallOk, Inv, RingOk, Contents, Covered;
      ghost var m := Abs();
      ResetInv(m);
      WakeAllOk(m.l, rx);
      calls := WakeAll(m.l, rx).calls;
      kernel.IpcListResumeAll(rx);
      calls := WakeAll(Layer(kernel.St(), {rx, tx}, calls), tx).calls;
      kernel.IpcListResumeAll(tx);
      entry := 0;
      inOff := 0;
      outOff := 0;
      sent, got := [], [];
    }
  }
}
