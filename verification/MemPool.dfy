/** Pools of blocks of one size: rt_mp_init, rt_mp_alloc, rt_mp_free (rt-thread/src/mempool.c). */
module MemPool {
  import opened Seqs
  import opened KernelSpec
  import opened KernelRuns
  import opened Waiting
  import opened KernelObject

  datatype Ptr = Null | At(b: nat)

  /** The word before a block: the next free block, or the pool while the block is handed out. */
  datatype Header = Link(next: Ptr) | Owner

  datatype Outcome = Done(error: Err) | Block(b: nat) | Pending

  /** The last two fields are history: the free blocks in the order of block_list, and how many threads were taken
      off the wait list by a timeout or a deletion. args holds the time left to each blocked rt_mp_alloc. */
  datatype Pool = Pool(l: Layer, wid: Wid, header: seq<Header>, blockList: Ptr, blockFreeCount: int, suspendCount: int,
                       args: map<Tid, int>, idle: seq<nat>, lapses: nat)

  function Waiters(m: Pool): seq<Tid>
    requires WaitQ(m.wid) in m.l.k.lists
  {
    m.l.k.lists[WaitQ(m.wid)]
  }

  // ---------- the blocks ----------

  /** Following the headers from p visits l and ends. */
  ghost predicate Chain(header: seq<Header>, p: Ptr, l: seq<nat>)
    decreases |l|
  {
    if l == [] then p == Null
    else p == At(l[0]) && l[0] < |header| && header[l[0]].Link? && Chain(header, header[l[0]].next, l[1..])
  }

  /** block_list holds exactly the blocks whose header is a link; the others name the pool. */
  ghost predicate BlocksOk(header: seq<Header>, blockList: Ptr, count: int, idle: seq<nat>) {
    && Chain(header, blockList, idle) && NoDup(idle) && count == |idle|
    && forall b: nat :: b < |header| ==> (b in idle <==> header[b].Link?)
  }

  lemma {:induction false} ChainFrame(header: seq<Header>, p: Ptr, l: seq<nat>, b: nat, x: Header)
    requires Chain(header, p, l) && b < |header| && b !in l
    ensures Chain(header[b := x], p, l)
    decreases |l|
  {
    if l != [] { ChainFrame(header, header[l[0]].next, l[1..], b, x); }
  }

  /** rt_mp_alloc takes the first block of the list, which then names the pool. */
  lemma TakeBlock(header: seq<Header>, blockList: Ptr, count: int, idle: seq<nat>)
    requires BlocksOk(header, blockList, count, idle) && count != 0
    ensures idle != [] && blockList == At(idle[0]) && idle[0] < |header| && header[idle[0]].Link?
    ensures BlocksOk(header[idle[0] := Owner], header[idle[0]].next, count - 1, idle[1..])
  {
    TailMembers(idle);
    ChainFrame(header, header[idle[0]].next, idle[1..], idle[0], Owner);
  }

  /** rt_mp_free puts a block that was handed out in front of the list. */
  lemma GiveBlock(header: seq<Header>, blockList: Ptr, count: int, idle: seq<nat>, b: nat)
    requires BlocksOk(header, blockList, count, idle) && b < |header| && header[b].Owner?
    ensures BlocksOk(header[b := Link(blockList)], At(b), count + 1, [b] + idle)
  {
    ChainFrame(header, blockList, idle, b, Link(blockList));
    assert ([b] + idle)[1..] == idle;
    InsertMembers(idle, 0, b);
    assert idle[..0] + [b] + idle[0..] == [b] + idle;
  }

  // ---------- invariant ----------

  ghost predicate Shape(m: Pool) {
    && Ok(m.l) && m.l.ours == {m.wid} && m.args.Keys == m.l.calls.Keys
    && BlocksOk(m.header, m.blockList, m.blockFreeCount, m.idle)
    && m.suspendCount == |Waiters(m)| + m.lapses
  }

  /** suspend_thread_count has drifted from the wait list by the waits that lapsed; and no wake-up is lost. */
  ghost predicate PoolInv(m: Pool) {
    Shape(m) && Covered(m.l, m.wid, m.blockFreeCount, 0)
  }

  // ---------- the critical regions ----------

  ghost function Take(m: Pool): Pool
    requires BlocksOk(m.header, m.blockList, m.blockFreeCount, m.idle) && m.blockFreeCount != 0
  {
    TakeBlock(m.header, m.blockList, m.blockFreeCount, m.idle);
    var b := m.blockList.b;
    m.(blockFreeCount := m.blockFreeCount - 1, blockList := m.header[b].next, header := m.header[b := Owner], idle := m.idle[1..])
  }

  /** The while loop of rt_mp_alloc, up to its next rt_schedule or its end. inThread says that no interrupt is being
      served: rt_set_errno writes to the thread only then (kservice.c:73-94). */
  ghost function AllocLoop(m: Pool, time: int, inThread: bool): (Pool, Outcome)
    requires Shape(m) && (m.blockFreeCount == 0 && inThread ==> CanBlock(m.l))
    requires m.blockFreeCount == 0 && time != 0 ==> inThread
  {
    if m.blockFreeCount == 0 then
      if time == 0 then
        (if inThread then m.(l := WithError(m.l, ETIMEOUT)) else m, Done(ETIMEOUT))
      else
        (m.(l := Begin(m.l, m.wid, Lifo, time > 0), args := m.args[m.l.k.current := time], suspendCount := m.suspendCount + 1),
         Pending)
    else
      TakeBlock(m.header, m.blockList, m.blockFreeCount, m.idle);
      (Take(m), Block(m.blockList.b))
  }

  /** The current thread goes on after rt_schedule. */
  ghost function Resumed(m: Pool): Pool {
    m.(l := Leave(m.l), args := map t | t in m.args && t != m.l.k.current :: m.args[t])
  }

  ghost function AllocAgain(m: Pool, elapsed: nat): (Pool, Outcome)
    requires PoolInv(m) && Back(m.l)
  {
    ResumedShape(m);
    var c := m.l.k.current;
    if m.l.k.tcbs[c].error != EOK then (Resumed(m), Done(m.l.k.tcbs[c].error))
    else AllocLoop(Resumed(m), Remaining(m.args[c], elapsed), true)
  }

  lemma ResumedShape(m: Pool)
    requires PoolInv(m) && Back(m.l)
    ensures Shape(Resumed(m)) && CanBlock(Resumed(m).l) && m.l.k.current in m.args
    ensures m.l.calls[m.l.k.current].wid == m.wid
  {
    hide Inv, BlocksOk;
    LeaveOk(m.l);
    assert CallOk(m.l, m.l.k.current);
  }

  ghost function Give(m: Pool, b: nat): Pool
    requires b < |m.header|
  {
    m.(blockFreeCount := m.blockFreeCount + 1, header := m.header[b := Link(m.blockList)], blockList := At(b), idle := [b] + m.idle)
  }

  /** Does rt_mp_free find a thread to resume where it looks for one? If not it takes the head of the empty wait list
      for a thread. */
  ghost predicate FindsWaiter(m: Pool)
    requires WaitQ(m.wid) in m.l.k.lists
  {
    m.suspendCount > 0 ==> Waiters(m) != []
  }

  /** rt_mp_free of a block that was handed out. */
  ghost function Free(m: Pool, b: nat): Pool
    requires PoolInv(m) && b < |m.header| && m.header[b].Owner? && FindsWaiter(m)
  {
    var m1 := Give(m, b);
    if m.suspendCount > 0 then m1.(l := WakeOne(m1.l, m.wid, Waiters(m)[0]), suspendCount := m.suspendCount - 1) else m1
  }

  ghost function Elsewhere(m: Pool, x: Step): Pool
    requires PoolInv(m) && Foreign(m.l, x)
  {
    m.(l := Other(m.l, x), args := map t | t in m.args && t in CallsAfter(m.l.calls, x) :: m.args[t],
       lapses := m.lapses + (|Waiters(m)| - |ListAfter(Waiters(m), x)|))
  }

  // ---------- every step keeps the invariant ----------

  lemma TakeInv(m: Pool, time: int, inThread: bool)
    requires Shape(m) && m.blockFreeCount != 0 && Covered(m.l, m.wid, m.blockFreeCount, 1)
    ensures PoolInv(AllocLoop(m, time, inThread).0)
  {
    hide Inv, CallOk, BlocksOk, Fresh;
    TakeBlock(m.header, m.blockList, m.blockFreeCount, m.idle);
  }

  lemma RefusedInv(m: Pool, inThread: bool)
    requires Shape(m) && m.blockFreeCount == 0 && (inThread ==> CanBlock(m.l))
    ensures PoolInv(AllocLoop(m, 0, inThread).0)
  {
    hide Inv, CallOk, BlocksOk;
    if inThread { WithErrorOk(m.l, ETIMEOUT); }
  }

  lemma WaitKeeps(m: Pool, time: int)
    requires Shape(m) && m.blockFreeCount == 0 && time != 0 && CanBlock(m.l)
    ensures PoolInv(AllocLoop(m, time, true).0)
    ensures AllocLoop(m, time, true).0.l.k.tcbs[m.l.k.current].timerOn == (time > 0)
  {
    hide CallOk, BlocksOk, Inv;
    Begun(m.l, m.wid, Lifo, time > 0);
    WaitsFirst(m, time);
    hide Begin;
  }

  /** A thread that has to wait becomes the first to be served. */
  lemma WaitsFirst(m: Pool, time: int)
    requires Shape(m) && m.blockFreeCount == 0 && time != 0 && CanBlock(m.l)
    ensures Ok(AllocLoop(m, time, true).0.l) && m.wid in AllocLoop(m, time, true).0.l.ours
    ensures Waiters(AllocLoop(m, time, true).0) == [m.l.k.current] + Waiters(m)
  {
    hide CallOk, BlocksOk, Inv, Lists;
    BeginOk(m.l, m.wid, Lifo, time > 0);
    hide Begin;
  }

  lemma AllocLoopInv(m: Pool, time: int, inThread: bool)
    requires Shape(m) && (m.blockFreeCount == 0 && inThread ==> CanBlock(m.l))
    requires m.blockFreeCount == 0 && time != 0 ==> inThread
    requires Covered(m.l, m.wid, m.blockFreeCount, 1)
    ensures PoolInv(AllocLoop(m, time, inThread).0)
  {
    hide Shape, AllocLoop, Fresh, CanBlock;
    if m.blockFreeCount != 0 { TakeInv(m, time, inThread); }
    else if time == 0 { RefusedInv(m, inThread); }
    else { WaitKeeps(m, time); }
  }

  lemma AllocAgainInv(m: Pool, elapsed: nat)
    requires PoolInv(m) && Back(m.l)
    ensures PoolInv(AllocAgain(m, elapsed).0)
  {
    hide Ok, BlocksOk, AllocLoop, Fresh, Remaining;
    ResumedShape(m);
    LeaveFresh(m.l, m.wid);
    var c := m.l.k.current;
    if m.l.k.tcbs[c].error == EOK { AllocLoopInv(Resumed(m), Remaining(m.args[c], elapsed), true); }
  }

  lemma FreeInv(m: Pool, b: nat)
    requires PoolInv(m) && b < |m.header| && m.header[b].Owner? && FindsWaiter(m)
    ensures PoolInv(Free(m, b))
  {
    hide Inv, CallOk, Fresh, BlocksOk;
    GiveBlock(m.header, m.blockList, m.blockFreeCount, m.idle, b);
    if Waiters(m) != [] {
      WakeFirst(m.l, m.wid, m.wid);
      WakeFirstShortens(m.l, m.wid);
    }
  }

  lemma WakeFirstShortens(l: Layer, w: Wid)
    requires Ok(l) && w in l.ours && l.k.lists[WaitQ(w)] != []
    ensures WakeOne(l, w, l.k.lists[WaitQ(w)][0]).k.lists[WaitQ(w)] == l.k.lists[WaitQ(w)][1..]
  {
    hide CallOk, Inv;
    var t := l.k.lists[WaitQ(w)][0];
    WakeOneOk(l, w, t);
    NoDupList(l, w);
    WithoutFirst(l.k.lists[WaitQ(w)]);
    hide WakeOne;
  }

  lemma NoDupList(l: Layer, w: Wid)
    requires Ok(l) && w in l.ours
    ensures NoDup(l.k.lists[WaitQ(w)])
  {
    hide CallOk;
    InvCurrent(l.k);
  }

  lemma ElsewhereInv(m: Pool, x: Step)
    requires PoolInv(m) && Foreign(m.l, x)
    ensures PoolInv(Elsewhere(m, x))
  {
    hide Ok, BlocksOk, Foreign;
    OtherOk(m.l, x);
    OtherFresh(m.l, x, m.wid);
  }

  // ---------- the drift of suspend_thread_count ----------

  /** rt_mp_free goes astray exactly when nobody waits and some wait has lapsed. */
  lemma FreeAstrayIff(m: Pool)
    requires PoolInv(m)
    ensures !FindsWaiter(m) <==> Waiters(m) == [] && m.lapses > 0
  {
    hide Ok, BlocksOk;
  }

  /** A wait lapses when the thread times out or is deleted, and in no other way. */
  lemma LapsesIff(m: Pool, x: Step)
    requires PoolInv(m) && Foreign(m.l, x)
    ensures Elsewhere(m, x).lapses ==
      m.lapses + (if (x.DoTimeout? || x.DoDeleteRemove?) && x.t in Waiters(m) then 1 else 0)
  {
    hide CallOk, BlocksOk, Foreign, Inv;
    NoDupList(m.l, m.wid);
    if (x.DoTimeout? || x.DoDeleteRemove?) && x.t in Waiters(m) { WithoutLength(Waiters(m), x.t); }
  }

  // ---------- runs ----------

  datatype PoolStep =
    | AllocStep(time: int, inThread: bool)
    | AllocAgainStep(elapsed: nat)
    | FreeStep(b: nat)
    | ElsewhereStep(x: Step)

  ghost predicate PoolEnabled(m: Pool, step: PoolStep)
    requires PoolInv(m)
  {
    match step
    case AllocStep(time, inThread) =>
      m.blockFreeCount == 0 ==> (inThread ==> CanBlock(m.l)) && (time != 0 ==> inThread)
    case AllocAgainStep(_) => Back(m.l)
    case FreeStep(b) => b < |m.header| && m.header[b].Owner? && FindsWaiter(m)
    case ElsewhereStep(x) => Foreign(m.l, x)
  }

  ghost function PoolNext(m: Pool, step: PoolStep): (Pool, Outcome)
    requires PoolInv(m) && PoolEnabled(m, step)
  {
    match step
    case AllocStep(time, inThread) => AllocLoop(m, time, inThread)
    case AllocAgainStep(elapsed) => AllocAgain(m, elapsed)
    case FreeStep(b) => (Free(m, b), Done(EOK))
    case ElsewhereStep(x) => (Elsewhere(m, x), Pending)
  }

  lemma PoolStepInv(m: Pool, step: PoolStep)
    requires PoolInv(m) && PoolEnabled(m, step)
    ensures PoolInv(PoolNext(m, step).0)
  {
    hide Shape, Fresh, AllocLoop, AllocAgain, Free, Elsewhere;
    match step {
      case AllocStep(time, inThread) => AllocLoopInv(m, time, inThread);
      case AllocAgainStep(elapsed) => AllocAgainInv(m, elapsed);
      case FreeStep(b) => FreeInv(m, b);
      case ElsewhereStep(x) => ElsewhereInv(m, x);
    }
  }

  /** A block handed out was free and is no longer; a block given back is free; no other block changes hands. */
  lemma BlocksHandedOver(m: Pool, step: PoolStep)
    requires PoolInv(m) && PoolEnabled(m, step)
    ensures var (m1, r) := PoolNext(m, step);
      && |m1.header| == |m.header|
      && (r.Block? ==> r.b < |m.header| && m.header[r.b].Link? && m1.header[r.b].Owner?)
      && (step.FreeStep? ==> m.header[step.b].Owner? && m1.header[step.b].Link?)
      && forall b :: 0 <= b < |m.header| && !(r.Block? && b == r.b) && !(step.FreeStep? && b == step.b) ==> m1.header[b] == m.header[b]
  {
    hide Ok, Chain, NoDup, Covered, Foreign, CanBlock, Remaining;
    match step {
      case AllocStep(_, _) => if m.blockFreeCount != 0 { TakeBlock(m.header, m.blockList, m.blockFreeCount, m.idle); }
      case AllocAgainStep(_) =>
        ResumedShape(m);
        if m.blockFreeCount != 0 { TakeBlock(m.header, m.blockList, m.blockFreeCount, m.idle); }
      case _ =>
    }
  }

  /** A step from m to m1. The functions that describe steps are defined where the invariant holds; that it holds in
      every state of a run is shown, not assumed. */
  ghost predicate PoolSteps(m: Pool, step: PoolStep, m1: Pool) {
    PoolInv(m) ==> PoolEnabled(m, step) && m1 == PoolNext(m, step).0
  }

  ghost predicate PoolRun(ms: seq<Pool>, steps: seq<PoolStep>) {
    && |ms| == |steps| + 1
    && forall i :: 0 <= i < |steps| ==> PoolSteps(ms[i], steps[i], ms[i + 1])
  }

  lemma {:induction false} PoolRunInv(ms: seq<Pool>, steps: seq<PoolStep>, i: nat)
    requires PoolRun(ms, steps) && PoolInv(ms[0]) && i < |ms|
    ensures PoolInv(ms[i]) && (i < |steps| ==> PoolEnabled(ms[i], steps[i]))
  {
    hide PoolInv, PoolEnabled, PoolNext;
    if i > 0 {
      PoolRunInv(ms, steps, i - 1);
      PoolStepInv(ms[i - 1], steps[i - 1]);
      assert PoolSteps(ms[i - 1], steps[i - 1], ms[i]);
    }
    if i < |steps| { assert PoolSteps(ms[i], steps[i], ms[i + 1]); }
  }

  /** block_list as rt_mp_init threads it through n blocks. */
  ghost predicate Threaded(header: seq<Header>) {
    forall b :: 0 <= b < |header| ==> header[b] == Link(if b + 1 < |header| then At(b + 1) else Null)
  }

  function CountUp(b: nat, n: nat): (r: seq<nat>)
    requires b <= n
    ensures |r| == n - b && forall i :: 0 <= i < |r| ==> r[i] == b + i
    decreases n - b
  {
    if b == n then [] else [b] + CountUp(b + 1, n)
  }

  /** The pool as rt_mp_init leaves it. */
  ghost predicate PoolStart(m: Pool, k: State, wid: Wid) {
    && Inv(k) && WaitQ(wid) in k.lists && k.lists[WaitQ(wid)] == []
    && Threaded(m.header) && |m.header| > 0
    && m == Pool(Layer(k, {wid}, map[]), wid, m.header, At(0), |m.header|, 0, map[], CountUp(0, |m.header|), 0)
  }

  lemma {:induction false} ThreadedChain(header: seq<Header>, b: nat)
    requires Threaded(header) && b <= |header|
    ensures Chain(header, if b < |header| then At(b) else Null, CountUp(b, |header|))
    decreases |header| - b
  {
    if b < |header| {
      ThreadedChain(header, b + 1);
      assert CountUp(b, |header|)[1..] == CountUp(b + 1, |header|);
    }
  }

  lemma StartInv(m: Pool, k: State, wid: Wid)
    requires PoolStart(m, k, wid)
    ensures PoolInv(m)
  {
    hide Inv, Chain;
    ThreadedChain(m.header, 0);
    forall b: nat | b < |m.header| ensures b in m.idle { assert m.idle[b] == b; }
  }

  /** In every state of every run from rt_mp_init: each block is either on block_list or handed out with its header
      naming the pool, block_free_count is the length of the list, suspend_thread_count is the number of waiters
      plus the waits that have lapsed, and if threads wait, every free block is on offer to a thread already woken. */
  lemma MemPoolRuns(ms: seq<Pool>, steps: seq<PoolStep>, k: State, wid: Wid, i: nat)
    requires PoolRun(ms, steps) && PoolStart(ms[0], k, wid) && i < |ms|
    ensures var m := ms[i];
      && Ok(m.l) && m.wid in m.l.ours && (Waiters(m) != [] ==> m.blockFreeCount <= |Fresh(m.l, m.wid)|)
      && Chain(m.header, m.blockList, m.idle) && NoDup(m.idle) && m.blockFreeCount == |m.idle|
      && (forall b: nat :: b < |m.header| ==> (b in m.idle <==> !m.header[b].Owner?))
      && m.suspendCount == |Waiters(m)| + m.lapses
  {
    hide CallOk, Inv, Chain, NoDup;
    StartInv(ms[0], k, wid);
    PoolRunInv(ms, steps, i);
    hide PoolRun, PoolStart;
  }

  /** The step takes no waiting thread off the list by a timeout or a deletion. */
  ghost predicate NoLapse(m: Pool, step: PoolStep)
    requires PoolInv(m)
  {
    forall t :: t in Waiters(m) ==> step != ElsewhereStep(DoTimeout(t)) && step != ElsewhereStep(DoDeleteRemove(t))
  }

  lemma StepAt(ms: seq<Pool>, steps: seq<PoolStep>, i: nat)
    requires PoolRun(ms, steps) && i < |steps| && PoolInv(ms[i])
    ensures PoolEnabled(ms[i], steps[i]) && ms[i + 1] == PoolNext(ms[i], steps[i]).0
  {
    assert PoolSteps(ms[i], steps[i], ms[i + 1]);
  }

  /** Without timeouts and deletions of waiting threads rt_mp_free never goes astray. */
  lemma {:induction false} WithoutLapses(ms: seq<Pool>, steps: seq<PoolStep>, k: State, wid: Wid, i: nat)
    requires PoolRun(ms, steps) && PoolStart(ms[0], k, wid) && i < |ms|
    requires forall j :: 0 <= j < |steps| && PoolInv(ms[j]) ==> NoLapse(ms[j], steps[j])
    ensures ms[i].lapses == 0 && WaitQ(ms[i].wid) in ms[i].l.k.lists && FindsWaiter(ms[i])
  {
    hide Ok, BlocksOk, Covered, PoolEnabled, PoolNext, PoolInv, NoLapse;
    StartInv(ms[0], k, wid);
    PoolRunInv(ms, steps, i);
    if i > 0 {
      PoolRunInv(ms, steps, i - 1);
      WithoutLapses(ms, steps, k, wid, i - 1);
      StepAt(ms, steps, i - 1);
      SameLapses(ms[i - 1], steps[i - 1]);
    }
    FreeAstrayIff(ms[i]);
    ListThere(ms[i]);
  }

  /** A waiting thread has no error yet, so that clearing it changes nothing. */
  lemma WaiterUntouched(l: Layer, w: Wid, t: Tid)
    requires Ok(l) && w in l.ours && t in l.k.lists[WaitQ(w)]
    ensures t in l.k.tcbs && SetError(l.k, t, EOK) == l.k
  {
    hide Inv;
    assert CallOk(l, t);
  }

  lemma ListThere(m: Pool)
    requires PoolInv(m)
    ensures WaitQ(m.wid) in m.l.k.lists
  {
  }

  lemma SameLapses(m: Pool, step: PoolStep)
    requires PoolInv(m) && PoolEnabled(m, step) && m.lapses == 0
    requires NoLapse(m, step)
    ensures PoolNext(m, step).0.lapses == 0
  {
    hide Ok, BlocksOk, Foreign, Covered, Remaining;
    match step {
      case ElsewhereStep(x) => LapsesIff(m, x);
      case _ =>
    }
  }

  /** With a timeout it can: one block, handed out; the thread asks for another and gives up waiting; then the count
      says that somebody waits, and nobody does. */
  lemma TimeoutLeadsAstray(m: Pool, k: State, wid: Wid, time: int)
    requires PoolStart(m, k, wid) && |m.header| == 1 && CanBlock(m.l) && time > 0
    ensures PoolInv(m) && PoolEnabled(m, AllocStep(0, true))
    ensures var m1 := PoolNext(m, AllocStep(0, true)).0; PoolInv(m1) && PoolEnabled(m1, AllocStep(time, true))
    ensures var m1 := PoolNext(m, AllocStep(0, true)).0; var m2 := PoolNext(m1, AllocStep(time, true)).0;
      PoolInv(m2) && PoolEnabled(m2, ElsewhereStep(DoTimeout(k.current)))
    ensures var m1 := PoolNext(m, AllocStep(0, true)).0; var m2 := PoolNext(m1, AllocStep(time, true)).0;
      var m3 := PoolNext(m2, ElsewhereStep(DoTimeout(k.current))).0;
      PoolInv(m3) && m3.header == [Owner] && m3.suspendCount == 1 && !FindsWaiter(m3)
  {
    hide Ok, BlocksOk, Fresh, AllocLoop, Elsewhere;
    StartInv(m, k, wid);
    var m1 := PoolNext(m, AllocStep(0, true)).0;
    FirstBlock(m, k, wid);
    PoolStepInv(m, AllocStep(0, true));
    var m2 := PoolNext(m1, AllocStep(time, true)).0;
    WaitKeeps(m1, time);
    WaitsFirst(m1, time);
    SecondBlocks(m1, time);
    PoolStepInv(m2, ElsewhereStep(DoTimeout(k.current)));
    LapsesIff(m2, DoTimeout(k.current));
    LastLapses(m2, k.current);
  }

  lemma FirstBlock(m: Pool, k: State, wid: Wid)
    requires PoolStart(m, k, wid) && PoolInv(m) && |m.header| == 1 && CanBlock(m.l)
    ensures var m1 := AllocLoop(m, 0, true).0;
      m1.header == [Owner] && m1.blockFreeCount == 0 && m1.l == m.l && m1.wid == m.wid && m1.lapses == 0
  {
    hide Ok, BlocksOk;
    TakeBlock(m.header, m.blockList, m.blockFreeCount, m.idle);
  }

  lemma SecondBlocks(m: Pool, time: int)
    requires Shape(m) && m.blockFreeCount == 0 && CanBlock(m.l) && time > 0
    ensures var m1, c := AllocLoop(m, time, true).0, m.l.k.current;
      && m1.header == m.header && m1.wid == m.wid && m1.lapses == m.lapses && m1.l.k.current == c
      && Foreign(m1.l, DoTimeout(c))
  {
    hide Inv, CallOk, BlocksOk;
    Begun(m.l, m.wid, Lifo, time > 0);
  }

  lemma LastLapses(m: Pool, t: Tid)
    requires PoolInv(m) && Waiters(m) == [t] && Foreign(m.l, DoTimeout(t)) && PoolInv(Elsewhere(m, DoTimeout(t)))
    ensures var m1 := Elsewhere(m, DoTimeout(t)); m1.header == m.header && m1.wid == m.wid && Waiters(m1) == []
  {
    hide Inv, CallOk, BlocksOk, Foreign;
    OtherOk(m.l, DoTimeout(t));
    hide Other;
  }

  // ---------- where the blocks are ----------

  /** A size rounded up to the alignment of 4. */
  function RoundUp(n: nat): (r: nat)
    ensures n <= r < n + 4 && r % 4 == 0
  {
    (n + 3) / 4 * 4
  }

  /** block_total_count for a pool of size bytes, each block preceded by a pointer. */
  function BlockCount(size: nat, blockSize: nat): nat {
    (size - size % 4) / (RoundUp(blockSize) + 4)
  }

  /** The offset from start_address of the block itself. */
  function BlockStart(b: nat, blockSize: nat): nat { b * (RoundUp(blockSize) + 4) + 4 }

  /** The blocks lie in the pool, do not overlap each other or a header, and are as large as asked for. */
  lemma BlocksFit(size: nat, blockSize: nat, a: nat, b: nat)
    requires a < b < BlockCount(size, blockSize)
    ensures BlockStart(a, blockSize) + blockSize <= BlockStart(b, blockSize) - 4
    ensures BlockStart(b, blockSize) + blockSize <= size
  {
    Spaced(size - size % 4, RoundUp(blockSize) + 4, a, b);
  }

  lemma Spaced(total: nat, w: nat, a: nat, b: nat)
    requires w > 0 && a < b < total / w
    ensures a * w + w <= b * w && b * w + w <= total
  {
    TimesAtMost(a + 1, b, w);
    TimesAtMost(b + 1, total / w, w);
    assert (a + 1) * w == a * w + w && (b + 1) * w == b * w + w;
    assert total / w * w <= total;
  }

  lemma TimesAtMost(a: nat, b: nat, w: nat)
    requires a <= b
    ensures a * w <= b * w
  {
  }

  // ---------- the object ----------

  class RtMemPool {
    const kernel: Kernel
    const wid: Wid
    const header: array<Header>
    var blockList: Ptr
    var blockFreeCount: int
    var suspendCount: int
    ghost var calls: map<Tid, Call>
    ghost var args: map<Tid, int>
    ghost var idle: seq<nat>
    ghost var lapses: nat

    ghost function Abs(): Pool
      reads this, kernel, header
    {
      Pool(Layer(kernel.St(), {wid}, calls), wid, header[..], blockList, blockFreeCount, suspendCount, args, idle, lapses)
    }

    /** rt_mp_init; with no block at all it would write in front of the pool. */
    constructor (kernel: Kernel, wid: Wid, header: array<Header>)
      requires Inv(kernel.St()) && WaitQ(wid) in kernel.lists && kernel.lists[WaitQ(wid)] == [] && header.Length > 0
      modifies header
      ensures this.kernel == kernel && this.header == header
      ensures PoolStart(Abs(), kernel.St(), wid) && PoolInv(Abs())
    {
      hide Inv, PoolInv;
      this.kernel, this.wid, this.header := kernel, wid, header;
      blockFreeCount, suspendCount, blockList := header.Length, 0, At(0);
      calls, args, idle, lapses := map[], map[], CountUp(0, header.Length), 0;
      new;
      var offset := 0;
      while offset < header.Length
        invariant offset <= header.Length
        invariant forall b :: 0 <= b < offset ==> header[b] == Link(At(b + 1))
        modifies header
      {
        header[offset] := Link(At(offset + 1));
        offset := offset + 1;
      }
      header[offset - 1] := Link(Null);
      StartInv(Abs(), kernel.St(), wid);
    }

    /** rt_mp_alloc up to its first rt_schedule. */
    method AllocRegion(time: int, inThread: bool) returns (r: Outcome)
      requires Shape(Abs()) && (blockFreeCount == 0 && inThread ==> CanBlock(Abs().l))
      requires blockFreeCount == 0 && time != 0 ==> inThread
      modifies this, kernel, header
      ensures (Abs(), r) == AllocLoop(old(Abs()), time, inThread)
    {
      hide Ok, BlocksOk;
      if blockFreeCount == 0 {
        if time == 0 {
          if inThread { kernel.SetThreadError(kernel.current, ETIMEOUT); }
          return Done(ETIMEOUT);
        }
        SuspendCurrent(time);
        return Pending;
      }
      TakeBlock(header[..], blockList, blockFreeCount, idle);
      blockFreeCount := blockFreeCount - 1;
      var b := blockList.b;
      blockList := header[b].next;
      header[b] := Owner;
      idle := idle[1..];
      r := Block(b);
    }

    method SuspendCurrent(time: int)
      requires Ok(Abs().l) && CanBlock(Abs().l)
      modifies this`calls, this`args, this`suspendCount, kernel
      ensures var m := old(Abs());
        Abs() == m.(l := Begin(m.l, wid, Lifo, time > 0), args := m.args[m.l.k.current := time], suspendCount := m.suspendCount + 1)
    {
      hide Inv, Lists, CallOk, KernelSpec.Block;
      InvCurrent(kernel.St());
      calls := calls[kernel.current := Call(wid, Waits)];
      args := args[kernel.current := time];
      kernel.BlockCurrent(wid, Lifo, time > 0);
      suspendCount := suspendCount + 1;
    }

    ghost method LeaveCall()
      modifies this`calls, this`args
      ensures Abs() == Resumed(old(Abs()))
    {
      calls := map t | t in calls && t != kernel.current :: calls[t];
      args := map t | t in args && t != kernel.current :: args[t];
    }

    /** What rt_mp_alloc does when it is back from rt_schedule. */
    method AllocReturns(time: int, elapsed: nat) returns (r: Outcome)
      requires PoolInv(Abs()) && Back(Abs().l) && kernel.current in args && args[kernel.current] == time
      modifies this, kernel, header
      ensures (Abs(), r) == AllocAgain(old(Abs()), elapsed)
    {
      hide PoolInv, AllocLoop, Ok, BlocksOk;
      ResumedShape(Abs());
      LeaveCall();
      if kernel.tcbs[kernel.current].error != EOK { return Done(kernel.tcbs[kernel.current].error); }
      var left := time;
      if left > 0 {
        left := left - elapsed;
        if left < 0 { left := 0; }
      }
      r := AllocRegion(left, true);
    }

    /** rt_mp_free of block b. */
    method FreeBlock(b: nat)
      requires PoolInv(Abs()) && b < header.Length && header[b].Owner? && FindsWaiter(Abs())
      modifies this, kernel, header
      ensures Abs() == Free(old(Abs()), b) && PoolInv(Abs())
    {
      hide Inv, CallOk, BlocksOk, Fresh, WakeOne;
      ghost var m := Abs();
      FreeInv(m, b);
      blockFreeCount := blockFreeCount + 1;
      header[b] := Link(blockList);
      blockList := At(b);
      idle := [b] + idle;
      if suspendCount > 0 {
        ResumeHead();
        suspendCount := suspendCount - 1;
      }
    }

    method ResumeHead()
      requires Ok(Abs().l) && kernel.lists[WaitQ(wid)] != []
      modifies this`calls, kernel
      ensures Abs() == old(Abs()).(l := WakeOne(old(Abs()).l, wid, old(kernel.lists[WaitQ(wid)])[0]))
    {
      hide Inv;
      var thread := kernel.lists[WaitQ(wid)][0];
      WaiterUntouched(Abs().l, wid, thread);
      hide CallOk;
      calls := calls[thread := Call(wid, Woke(EOK))];
      kernel.SetThreadError(thread, EOK);
      kernel.IpcListResume(wid);
    }
  }
}
