/** Threads, ready queues, wait lists and the scheduler: rt-thread/src/thread.c, scheduler.c and
    the list helpers at the top of ipc.c, for one processor. Each function below is the effect of
    one interrupt-disabled region. */
module KernelSpec {
  import opened Seqs
  import opened ReadyBitmap

  type Tid = nat   // a thread control block
  type Wid = nat   // a wait list: an IPC object's suspend_thread or suspend_sender_thread

  datatype Stat = Init | Ready | Suspend | Running | Close
  datatype Err = EOK | ERROR | ETIMEOUT | EFULL
  datatype Order = Fifo | Prio | Lifo   // RT_IPC_FLAG_FIFO, RT_IPC_FLAG_PRIO; mempool.c inserts at the front
  datatype EventInfo = EventInfo(all: bool, any: bool, clear: bool)

  datatype Tcb = Tcb(
    stat: Stat, prio: nat, initPrio: nat, attr: Attr, error: Err,
    timerOn: bool,                             // thread_timer is in the timer list
    eventSet: bv32, eventInfo: EventInfo)

  /** The lists a thread's tlist node can be linked into. */
  datatype Queue = ReadyQ(prio: nat) | WaitQ(wid: Wid) | Defunct

  /** How far a rt_thread_delete in progress has got: past rt_schedule_remove_thread, past rt_timer_detach, past the
      assignment of RT_THREAD_CLOSE. */
  datatype Deletion = Unlisted | Untimed | Closed

  /** The calls of rt_thread_resume that have passed their test of thread->stat and those past their first region, and
      the calls of rt_thread_suspend that have passed theirs. */
  datatype Underway = Underway(resumeTested: multiset<Tid>, resumes: multiset<Tid>, suspendTested: multiset<Tid>)

  datatype State = State(
    tcbs: map<Tid, Tcb>,
    bits: Bitmap,                              // rt_thread_ready_priority_group, rt_thread_ready_table
    lists: map<Queue, seq<Tid>>,               // rt_thread_priority_table, wait lists, rt_thread_defunct
    current: Tid,                              // rt_current_thread
    lockNest: nat,                             // rt_scheduler_lock_nest
    deletions: map<Tid, Deletion>,             // the calls of rt_thread_delete in progress
    pending: Underway)

  // ---------- invariants ----------

  ghost predicate Lists(k: State) {
    && Defunct in k.lists
    && (forall p: nat :: ReadyQ(p) in k.lists <==> p < k.bits.Levels())
    && (forall q :: q in k.lists ==> NoDup(k.lists[q]))
    && (forall q, u :: q in k.lists && u in k.lists[q] ==> u in k.tcbs)
  }

  predicate Started(c: Tcb) { c.stat in {Ready, Suspend, Running} }

  /** Priorities in range with their attributes up to date. */
  ghost predicate Priorities(k: State) {
    && (forall u :: u in k.tcbs ==> k.tcbs[u].prio < k.bits.Levels() && k.tcbs[u].initPrio < k.bits.Levels())
    && (forall u :: u in k.tcbs && Started(k.tcbs[u]) ==> k.tcbs[u].attr == k.bits.AttrOf(k.tcbs[u].prio))
  }

  /** A priority bit is set iff the queue of that priority is non-empty. */
  ghost predicate BitmapExact(k: State)
    requires Lists(k)
  {
    k.bits.Valid() && forall p: nat :: p < k.bits.Levels() ==> (k.bits.Marked(p) <==> k.lists[ReadyQ(p)] != [])
  }

  ghost predicate Base(k: State) {
    Lists(k) && Priorities(k) && BitmapExact(k)
  }

  /** May a thread in this state be linked into list q? */
  predicate Fits(c: Tcb, q: Queue) {
    match q
    case ReadyQ(p) => c.stat == Ready && p == c.prio
    case WaitQ(_) => c.stat == Suspend
    case Defunct => c.stat == Close
  }

  /** One thread: READY iff in the queue of its current priority, on at most one list, RUNNING only if
      current, and its timer active only while suspended. A thread under deletion may be READY off its queue. */
  ghost predicate Placed(k: State, u: Tid)
    requires u in k.tcbs
  {
    var c := k.tcbs[u];
    && (forall q :: q in k.lists && u in k.lists[q] ==> Fits(c, q))
    && (forall v, w :: WaitQ(v) in k.lists && WaitQ(w) in k.lists && u in k.lists[WaitQ(v)] && u in k.lists[WaitQ(w)] ==> v == w)
    && (c.stat == Ready && u !in k.deletions ==> ReadyQ(c.prio) in k.lists && u in k.lists[ReadyQ(c.prio)])
    && (c.stat == Running ==> u == k.current)
    && (c.timerOn ==> c.stat == Suspend)
  }

  ghost predicate Off(k: State, t: Tid) {
    forall q :: q in k.lists ==> t !in k.lists[q]
  }

  /** On no list and with its timer stopped. */
  ghost predicate Loose(k: State, t: Tid)
    requires t in k.tcbs
  {
    Off(k, t) && !k.tcbs[t].timerOn
  }

  ghost predicate Placement(k: State) {
    Base(k) && forall u :: u in k.tcbs ==> Placed(k, u)
  }

  ghost predicate CurrentOk(k: State) {
    k.current in k.tcbs && k.tcbs[k.current].stat in {Running, Suspend, Close}
  }

  ghost predicate Inv(k: State) {
    Placement(k) && CurrentOk(k)
  }

  /** Inv but for thread t, which is unlinked and in transit. */
  ghost predicate InTransit(k: State, t: Tid) {
    && Base(k) && t in k.tcbs && Off(k, t)
    && forall u :: u in k.tcbs && u != t ==> Placed(k, u)
  }

  // ---------- list surgery ----------

  /** rt_list_remove(&t->tlist) */
  function Unlink(k: State, t: Tid): State {
    k.(lists := map q | q in k.lists :: Without(k.lists[q], t))
  }

  /** rt_list_insert_*(list, &t->tlist) at position i of a list other than a ready queue. */
  function LinkAt(k: State, q: Queue, i: nat, t: Tid): State
    requires q in k.lists && i <= |k.lists[q]|
  {
    k.(lists := k.lists[q := k.lists[q][..i] + [t] + k.lists[q][i..]])
  }

  /** What rt_schedule_insert_thread and rt_schedule_remove_thread rely on. */
  ghost predicate Known(k: State, t: Tid) {
    && t in k.tcbs && ReadyQ(k.tcbs[t].prio) in k.lists
    && (k.bits.TwoLevel? ==> k.tcbs[t].attr.number < |k.bits.table|)
  }

  /** rt_schedule_insert_thread */
  function InsertThread(k: State, t: Tid): State
    requires Known(k, t)
  {
    var c := k.tcbs[t];
    if t == k.current then k.(tcbs := k.tcbs[t := c.(stat := Running)])
    else
      var q := ReadyQ(c.prio);
      k.(tcbs := k.tcbs[t := c.(stat := Ready)], lists := k.lists[q := k.lists[q] + [t]], bits := k.bits.Mark(c.attr))
  }

  /** rt_schedule_remove_thread */
  function RemoveThread(k: State, t: Tid): State
    requires Known(k, t)
  {
    var c := k.tcbs[t];
    var k1 := Unlink(k, t);
    if k1.lists[ReadyQ(c.prio)] == [] then k1.(bits := k.bits.Unmark(c.attr)) else k1
  }

  lemma UnlinkLists(k: State, t: Tid)
    requires Lists(k)
    ensures var k1 := Unlink(k, t); Lists(k1) && Off(k1, t)
    ensures var k1 := Unlink(k, t); forall u :: u in k.tcbs && u != t && Placed(k, u) ==> Placed(k1, u)
    ensures var k1 := Unlink(k, t); forall q :: q in k.lists && t !in k.lists[q] ==> k1.lists[q] == k.lists[q]
  {
  }

  /** Removing a thread from wherever it is keeps every other thread in place and the bitmap exact. */
  lemma RemoveThreadInv(k: State, t: Tid)
    requires Placement(k) && t in k.tcbs && Started(k.tcbs[t])
    ensures Known(k, t) && InTransit(RemoveThread(k, t), t)
  {
    var p := k.tcbs[t].prio;
    UnlinkLists(k, t);
    assert Placed(k, t);
    RemoveThreadBits(k, t);
    var k1 := RemoveThread(k, t);
    forall u | u in k.tcbs && u != t ensures Placed(k1, u) { assert Placed(Unlink(k, t), u); }
  }

  lemma RemoveThreadBits(k: State, t: Tid)
    requires Base(k) && t in k.tcbs && Started(k.tcbs[t]) && Lists(Unlink(k, t))
    requires forall q :: q in k.lists && q != ReadyQ(k.tcbs[t].prio) && q.ReadyQ? ==> t !in k.lists[q]
    ensures Known(k, t) && Base(RemoveThread(k, t))
  {
    k.bits.UnmarkClearsOneBit(k.tcbs[t].prio);
  }

  /** A thread that is not READY is on no ready queue, so unlinking it alone keeps the bitmap exact. */
  lemma UnlinkInv(k: State, t: Tid)
    requires Placement(k) && t in k.tcbs && k.tcbs[t].stat != Ready
    ensures InTransit(Unlink(k, t), t)
  {
    assert Placed(k, t);
    UnlinkLists(k, t);
  }

  /** Linking an unlinked thread into one list where its state allows it to be. */
  lemma LinkLists(k: State, k1: State, t: Tid, q: Queue, l: seq<Tid>)
    requires Lists(k) && t in k.tcbs && Off(k, t) && q in k.lists
    requires k1.lists == k.lists[q := l] && NoDup(l) && forall u :: u in l <==> u in k.lists[q] || u == t
    requires k1.bits.Levels() == k.bits.Levels() && k1.current == k.current && k1.deletions == k.deletions
    requires k1.tcbs.Keys == k.tcbs.Keys && forall u :: u in k.tcbs && u != t ==> k1.tcbs[u] == k.tcbs[u]
    requires Fits(k1.tcbs[t], q) && (k1.tcbs[t].timerOn ==> k1.tcbs[t].stat == Suspend)
    ensures Lists(k1) && Placed(k1, t)
    ensures forall u :: u in k.tcbs && u != t && Placed(k, u) ==> Placed(k1, u)
  {
    forall r, u | r in k1.lists && u in k1.lists[r] && u != t ensures r in k.lists && u in k.lists[r] {}
    forall u | u in k.tcbs && u != t && Placed(k, u) ensures Placed(k1, u) {
      assert forall r :: r in k.lists && u in k.lists[r] ==> u in k1.lists[r];
    }
  }

  lemma InsertThreadBits(k: State, t: Tid)
    requires Base(k) && t in k.tcbs && Started(k.tcbs[t]) && t != k.current
    requires Known(k, t) && Lists(InsertThread(k, t))
    ensures Base(InsertThread(k, t))
  {
    k.bits.MarkSetsOneBit(k.tcbs[t].prio);
  }

  lemma InsertThreadInv(k: State, t: Tid)
    requires InTransit(k, t) && Started(k.tcbs[t]) && !k.tcbs[t].timerOn
    ensures Known(k, t) && Placement(InsertThread(k, t))
  {
    if t == k.current {
      var k1 := InsertThread(k, t);
      forall u | u in k1.tcbs && u != t ensures Placed(k1, u) { assert Placed(k, u); }
    } else {
      InsertReadyInv(k, t);
    }
  }

  lemma InsertReadyInv(k: State, t: Tid)
    requires InTransit(k, t) && Started(k.tcbs[t]) && !k.tcbs[t].timerOn && t != k.current
    ensures Known(k, t) && Placement(InsertThread(k, t))
  {
    k.bits.MarkSetsOneBit(k.tcbs[t].prio);
    var k1 := InsertThread(k, t);
    var q := ReadyQ(k.tcbs[t].prio);
    LinkLists(k, k1, t, q, k.lists[q] + [t]);
    InsertThreadBits(k, t);
  }

  /** The facts about one thread, and about the current one, that Inv gives. */
  lemma InvPlaces(k: State, u: Tid)
    requires Inv(k) && u in k.tcbs
    ensures Base(k) && Placed(k, u)
  {
  }

  lemma InvCurrent(k: State)
    requires Inv(k)
    ensures Base(k) && k.current in k.tcbs && k.tcbs[k.current].stat in {Running, Suspend, Close} && Placed(k, k.current)
  {
  }

  lemma SetTcbInTransit(k: State, t: Tid, c: Tcb)
    requires InTransit(k, t) && c.prio < k.bits.Levels() && c.initPrio < k.bits.Levels()
    requires Started(c) ==> c.attr == k.bits.AttrOf(c.prio)
    ensures InTransit(SetTcb(k, t, c), t)
  {
    var k1 := SetTcb(k, t, c);
    forall u | u in k1.tcbs && u != t ensures Placed(k1, u) { assert Placed(k, u); }
  }

  /** A thread in transit may settle on no list, unless it is READY and not under deletion. */
  lemma SettleInv(k: State, t: Tid)
    requires InTransit(k, t) && (k.tcbs[t].stat == Ready ==> t in k.deletions)
    requires (k.tcbs[t].stat == Running ==> t == k.current) && (k.tcbs[t].timerOn ==> k.tcbs[t].stat == Suspend)
    ensures Placement(k)
  {
  }

  // ---------- thread.c ----------

  function SetTcb(k: State, t: Tid, c: Tcb): State {
    k.(tcbs := k.tcbs[t := c])
  }

  function SetError(k: State, t: Tid, e: Err): State
    requires t in k.tcbs
  {
    SetTcb(k, t, k.tcbs[t].(error := e))
  }

  /** thread->event_set and thread->event_info */
  function SetEventFields(k: State, t: Tid, bits: bv32, info: EventInfo): State
    requires t in k.tcbs
  {
    SetTcb(k, t, k.tcbs[t].(eventSet := bits, eventInfo := info))
  }

  /** rt_thread_suspend: refused unless the thread is READY or RUNNING. */
  function SuspendThread(k: State, t: Tid): State
    requires Known(k, t)
  {
    if k.tcbs[t].stat !in {Ready, Running} then k
    else SetTcb(RemoveThread(k, t), t, k.tcbs[t].(stat := Suspend, timerOn := false))
  }

  /** Out of any list, timer off, and into the ready queue. */
  function Wake(k: State, t: Tid, e: Err): State
    requires Known(k, t)
  {
    InsertThread(SetTcb(Unlink(k, t), t, k.tcbs[t].(error := e, timerOn := false)), t)
  }

  /** rt_thread_resume: refused unless the thread is SUSPENDed; leaves any wait list and stops its timer. */
  function ResumeThread(k: State, t: Tid): State
    requires Known(k, t)
  {
    if k.tcbs[t].stat != Suspend then k
    else Wake(k, t, k.tcbs[t].error)
  }

  /** rt_thread_timeout as called by rt_timer_check, which then clears ACTIVATED. */
  function Timeout(k: State, t: Tid): State
    requires Known(k, t)
  {
    Wake(k, t, ETIMEOUT)
  }

  /** rt_thread_control(RT_THREAD_CTRL_CHANGE_PRIORITY) */
  function ChangePriority(k: State, t: Tid, p: nat): State
    requires Known(k, t) && ReadyQ(p) in k.lists
    requires k.bits.TwoLevel? ==> p / 8 < |k.bits.table|
  {
    var c := k.tcbs[t].(prio := p, attr := k.bits.AttrOf(p));
    if k.tcbs[t].stat == Ready then InsertThread(SetTcb(RemoveThread(k, t), t, c), t)
    else SetTcb(k, t, c)
  }

  /** rt_thread_resume found the thread SUSPENDed. */
  function ResumeTest(k: State, t: Tid): State {
    k.(pending := k.pending.(resumeTested := k.pending.resumeTested + multiset{t}))
  }

  /** rt_thread_resume, first region: the thread, whatever it is by now, leaves its list and its timer stops. */
  function ResumeUnlink(k: State, t: Tid): State
    requires t in k.tcbs
  {
    SetTcb(Unlink(k, t), t, k.tcbs[t].(timerOn := false))
    .(pending := k.pending.(resumeTested := k.pending.resumeTested - multiset{t}, resumes := k.pending.resumes + multiset{t}))
  }

  /** rt_thread_resume, second region: rt_schedule_insert_thread. */
  function ResumeInsert(k: State, t: Tid): State
    requires Known(k, t)
  {
    InsertThread(k, t).(pending := k.pending.(resumes := k.pending.resumes - multiset{t}))
  }

  /** rt_thread_suspend found the thread READY or RUNNING. */
  function SuspendTest(k: State, t: Tid): State {
    k.(pending := k.pending.(suspendTested := k.pending.suspendTested + multiset{t}))
  }

  /** The region of rt_thread_suspend: the thread, whatever it is by now, leaves its list, suspended and its timer
      stopped. */
  function SuspendTake(k: State, t: Tid): State
    requires Known(k, t)
  {
    SetTcb(RemoveThread(k, t), t, k.tcbs[t].(stat := Suspend, timerOn := false))
    .(pending := k.pending.(suspendTested := k.pending.suspendTested - multiset{t}))
  }

  /** rt_thread_startup up to its rt_thread_resume. */
  function Prepare(k: State, t: Tid): State
    requires t in k.tcbs
  {
    var p := k.tcbs[t].initPrio;
    SetTcb(k, t, k.tcbs[t].(prio := p, attr := k.bits.AttrOf(p), stat := Suspend))
  }

  /** rt_thread_startup up to its rt_schedule, not interrupted. */
  function Startup(k: State, t: Tid): State
    requires t in k.tcbs && ReadyQ(k.tcbs[t].initPrio) in k.lists
    requires k.bits.TwoLevel? ==> k.tcbs[t].initPrio / 8 < |k.bits.table|
  {
    ResumeThread(Prepare(k, t), t)
  }

  /** rt_thread_delete, first region: rt_schedule_remove_thread, unless the thread was never started. */
  function DeleteRemove(k: State, t: Tid): State
    requires t in k.tcbs && (k.tcbs[t].stat != Init ==> Known(k, t))
  {
    (if k.tcbs[t].stat != Init then RemoveThread(k, t) else k).(deletions := k.deletions[t := Unlisted])
  }

  /** rt_thread_delete, second region: rt_timer_detach. */
  function DeleteTimer(k: State, t: Tid): State
    requires t in k.tcbs
  {
    SetTcb(k, t, k.tcbs[t].(timerOn := false)).(deletions := k.deletions[t := Untimed])
  }

  /** rt_thread_delete, with interrupts enabled: the thread is marked CLOSE wherever it is. */
  function DeleteClose(k: State, t: Tid): State
    requires t in k.tcbs
  {
    SetTcb(k, t, k.tcbs[t].(stat := Close)).(deletions := k.deletions[t := Closed])
  }

  /** rt_thread_delete, last region: into the defunct list. */
  function DeleteBury(k: State, t: Tid): State
    requires Defunct in k.lists
  {
    LinkAt(k, Defunct, 0, t).(deletions := k.deletions - {t})
  }

  ghost predicate Deletable(k: State, t: Tid) {
    t in k.tcbs && Defunct in k.lists && (k.tcbs[t].stat != Init ==> Known(k, t))
  }

  /** rt_thread_delete, not interrupted. */
  ghost function Delete(k: State, t: Tid): State
    requires Deletable(k, t)
  {
    DeleteBury(DeleteClose(DeleteTimer(DeleteRemove(k, t), t), t), t)
  }

  /** rt_thread_exit, one region: the same on the current thread, which a static thread without a cleanup function
      survives on no list. */
  function Exit(k: State, bury: bool): State
    requires Known(k, k.current) && Defunct in k.lists
  {
    var t := k.current;
    var k1 := SetTcb(RemoveThread(k, t), t, k.tcbs[t].(stat := Close, timerOn := false));
    if bury then LinkAt(k1, Defunct, 0, t) else k1
  }

  // ---------- the list helpers of ipc.c ----------

  /** Where RT_IPC_FLAG_PRIO inserts: before the first strictly less urgent waiter. */
  function PrioPosition(tcbs: map<Tid, Tcb>, l: seq<Tid>, p: nat): (i: nat)
    requires forall u :: u in l ==> u in tcbs
    ensures i <= |l| && (forall j :: 0 <= j < i ==> tcbs[l[j]].prio <= p) && (i < |l| ==> p < tcbs[l[i]].prio)
  {
    if l == [] || p < tcbs[l[0]].prio then 0
    else 1 + PrioPosition(tcbs, l[1..], p)
  }

  function Position(tcbs: map<Tid, Tcb>, l: seq<Tid>, p: nat, order: Order): (i: nat)
    requires forall u :: u in l ==> u in tcbs
    ensures i <= |l|
  {
    match order
    case Fifo => |l|
    case Prio => PrioPosition(tcbs, l, p)
    case Lifo => 0
  }

  /** rt_ipc_list_suspend */
  function ListSuspend(k: State, w: Wid, t: Tid, order: Order): State
    requires Known(k, t) && WaitQ(w) in k.lists && Lists(k)
  {
    var k1 := SuspendThread(k, t);
    var l := k1.lists[WaitQ(w)];
    var i := Position(k1.tcbs, l, k1.tcbs[t].prio, order);
    LinkAt(k1, WaitQ(w), i, t)
  }

  /** What a blocking call does to the current thread: error reset, rt_ipc_list_suspend, and its timer. */
  function Block(k: State, w: Wid, order: Order, timed: bool): State
    requires Known(k, k.current) && WaitQ(w) in k.lists && Lists(k)
  {
    var t := k.current;
    var k1 := ListSuspend(SetError(k, t, EOK), w, t, order);
    SetTcb(k1, t, k1.tcbs[t].(timerOn := timed))
  }

  lemma ReadyKnown(k: State, t: Tid)
    requires Base(k) && t in k.tcbs && Started(k.tcbs[t])
    ensures Known(k, t)
  {
  }

  lemma SuspendThreadInv(k: State, t: Tid)
    requires Inv(k) && t in k.tcbs && k.tcbs[t].stat in {Ready, Running}
    ensures Known(k, t)
    ensures var k1 := SuspendThread(k, t); Inv(k1) && InTransit(k1, t)
    ensures var k1 := SuspendThread(k, t); forall w :: WaitQ(w) in k.lists ==> k1.lists[WaitQ(w)] == k.lists[WaitQ(w)]
  {
    hide Inv, InTransit, Placement, Placed, Lists, BitmapExact, Dropped, Loose;
    InvPlaces(k, t);
    InvCurrent(k);
    PlacementOf(k);
    NotWaiting(k, t);
    RemoveThreadInv(k, t);
    var c := k.tcbs[t].(stat := Suspend, timerOn := false);
    SetTcbInTransit(RemoveThread(k, t), t, c);
    SettleInv(SuspendThread(k, t), t);
    SuspendRunningEffect(k, t);
    hide SuspendThread, RemoveThread;
    InvOf(SuspendThread(k, t));
  }

  lemma NotWaiting(k: State, t: Tid)
    requires Inv(k) && t in k.tcbs && k.tcbs[t].stat in {Ready, Running}
    ensures forall w :: WaitQ(w) in k.lists ==> t !in k.lists[WaitQ(w)]
  {
    InvPlaces(k, t);
  }

  lemma ResumeThreadInv(k: State, t: Tid)
    requires Inv(k) && t in k.tcbs && k.tcbs[t].stat == Suspend
    ensures Known(k, t) && Inv(ResumeThread(k, t))
    ensures Woken(k, ResumeThread(k, t), t, k.tcbs[t].error)
  {
    WakeInv(k, t, k.tcbs[t].error);
  }

  lemma TimeoutInv(k: State, t: Tid)
    requires Inv(k) && t in k.tcbs && k.tcbs[t].timerOn
    ensures Known(k, t) && Inv(Timeout(k, t))
    ensures Woken(k, Timeout(k, t), t, ETIMEOUT)
  {
    assert Placed(k, t);
    WakeInv(k, t, ETIMEOUT);
  }

  /** The full effect of a wake-up on thread t: it leaves every wait list, its timer is off, and it is
      RUNNING if still current, READY otherwise; nothing else about any thread changes. */
  ghost predicate Woken(k: State, k1: State, t: Tid, e: Err)
    requires t in k.tcbs
  {
    && k1.tcbs == k.tcbs[t := k.tcbs[t].(timerOn := false, error := e, stat := if t == k.current then Running else Ready)]
    && k1.current == k.current && k1.lockNest == k.lockNest && k1.lists.Keys == k.lists.Keys
    && forall w :: WaitQ(w) in k.lists ==> k1.lists[WaitQ(w)] == Without(k.lists[WaitQ(w)], t)
  }

  lemma WakeEffect(k: State, t: Tid, e: Err)
    requires Known(k, t)
    ensures Woken(k, Wake(k, t, e), t, e)
  {
  }

  lemma WakePlacement(k: State, t: Tid, e: Err)
    requires Placement(k) && t in k.tcbs && k.tcbs[t].stat == Suspend
    ensures Known(k, t) && Placement(Wake(k, t, e)) && Woken(k, Wake(k, t, e), t, e)
  {
    UnlinkInv(k, t);
    WakeEffect(k, t, e);
    var c := k.tcbs[t].(error := e, timerOn := false);
    SetTcbInTransit(Unlink(k, t), t, c);
    InsertThreadInv(SetTcb(Unlink(k, t), t, c), t);
  }

  lemma WakeInv(k: State, t: Tid, e: Err)
    requires Inv(k) && t in k.tcbs && k.tcbs[t].stat == Suspend
    ensures Known(k, t) && Inv(Wake(k, t, e)) && Woken(k, Wake(k, t, e), t, e)
  {
    WakePlacement(k, t, e);
    hide Placement, Wake;
  }

  lemma BlockInv(k: State, w: Wid, order: Order, timed: bool)
    requires Inv(k) && WaitQ(w) in k.lists && k.tcbs[k.current].stat == Running
    ensures Known(k, k.current) && Inv(Block(k, w, order, timed)) && Blocked(k, Block(k, w, order, timed), w, order, timed)
  {
    var t := k.current;
    var k0 := SetError(k, t, EOK);
    SetErrorInv(k, t, EOK);
    SuspendThreadInv(k0, t);
    var k1 := SuspendThread(k0, t);
    WaitInv(k1, w, Position(k1.tcbs, k1.lists[WaitQ(w)], k1.tcbs[t].prio, order), t, timed);
    assert Placed(k, t);
    BlockEffect(k, w, order, timed);
  }

  lemma BlockEffect(k: State, w: Wid, order: Order, timed: bool)
    requires Known(k, k.current) && WaitQ(w) in k.lists && Lists(k) && k.tcbs[k.current].stat == Running
    requires forall v :: WaitQ(v) in k.lists ==> k.current !in k.lists[WaitQ(v)]
    ensures Blocked(k, Block(k, w, order, timed), w, order, timed)
  {
    var t := k.current;
    var k0 := SetError(k, t, EOK);
    var k1 := SuspendThread(k0, t);
    SuspendRunningEffect(k0, t);
    hide SuspendThread, Lists;
    var l := k.lists[WaitQ(w)];
    PositionFrame(k, k1.tcbs, l, order, k.tcbs[t].prio);
    hide Position;
    var c := k.tcbs[t].(error := EOK);
    SetTwice(k.tcbs, t, c, c.(stat := Suspend, timerOn := false), c.(stat := Suspend, timerOn := timed));
  }

  lemma SetTwice(tcbs: map<Tid, Tcb>, t: Tid, c: Tcb, d: Tcb, e: Tcb)
    ensures tcbs[t := c][t := d][t := e] == tcbs[t := e]
  {
  }

  lemma SuspendRunningEffect(k: State, t: Tid)
    requires Known(k, t) && k.tcbs[t].stat in {Ready, Running}
    requires forall v :: WaitQ(v) in k.lists ==> t !in k.lists[WaitQ(v)]
    ensures var k1 := SuspendThread(k, t);
      && k1.tcbs == k.tcbs[t := k.tcbs[t].(stat := Suspend, timerOn := false)]
      && k1.current == k.current && k1.lockNest == k.lockNest && k1.lists.Keys == k.lists.Keys
      && forall v :: WaitQ(v) in k.lists ==> k1.lists[WaitQ(v)] == k.lists[WaitQ(v)]
  {
  }

  lemma LinkAtInv(k: State, q: Queue, i: nat, t: Tid)
    requires InTransit(k, t) && q in k.lists && i <= |k.lists[q]| && !q.ReadyQ?
    requires Fits(k.tcbs[t], q) && (k.tcbs[t].timerOn ==> k.tcbs[t].stat == Suspend)
    ensures Placement(LinkAt(k, q, i, t))
  {
    var k1 := LinkAt(k, q, i, t);
    InsertMembers(k.lists[q], i, t);
    LinkLists(k, k1, t, q, k1.lists[q]);
    assert BitmapExact(k1);
  }

  lemma WaitInv(k: State, w: Wid, i: nat, t: Tid, timed: bool)
    requires InTransit(k, t) && CurrentOk(k) && k.tcbs[t].stat == Suspend && WaitQ(w) in k.lists && i <= |k.lists[WaitQ(w)]|
    ensures var k1 := LinkAt(k, WaitQ(w), i, t); Inv(SetTcb(k1, t, k.tcbs[t].(timerOn := timed)))
  {
    hide Placement, Placed, Lists, BitmapExact;
    LinkAtInv(k, WaitQ(w), i, t);
    var k1 := LinkAt(k, WaitQ(w), i, t);
    PlacementPlaces(k1, t);
    TimerPlaced(k1, t, timed);
    SetTcbInv(k1, t, k.tcbs[t].(timerOn := timed));
    InvOf(SetTcb(k1, t, k.tcbs[t].(timerOn := timed)));
  }

  lemma PlacementPlaces(k: State, t: Tid)
    requires Placement(k) && t in k.tcbs
    ensures Base(k) && Placed(k, t)
  {
  }

  /** The timer of a suspended thread may run or not. */
  lemma TimerPlaced(k: State, t: Tid, timed: bool)
    requires t in k.tcbs && Placed(k, t) && k.tcbs[t].stat == Suspend
    ensures Placed(SetTcb(k, t, k.tcbs[t].(timerOn := timed)), t)
  {
  }

  /** The full effect of a blocking call on the current thread t. */
  ghost predicate Blocked(k: State, k1: State, w: Wid, order: Order, timed: bool)
    requires k.current in k.tcbs && WaitQ(w) in k.lists && Lists(k)
  {
    var t := k.current;
    var l := k.lists[WaitQ(w)];
    var i := Position(k.tcbs, l, k.tcbs[t].prio, order);
    && k1.tcbs == k.tcbs[t := k.tcbs[t].(error := EOK, stat := Suspend, timerOn := timed)]
    && k1.current == t && k1.lockNest == k.lockNest && k1.lists.Keys == k.lists.Keys
    && k1.lists[WaitQ(w)] == l[..i] + [t] + l[i..]
    && forall v :: WaitQ(v) in k.lists && v != w ==> k1.lists[WaitQ(v)] == k.lists[WaitQ(v)]
  }

  lemma PositionFrame(k: State, tcbs: map<Tid, Tcb>, l: seq<Tid>, order: Order, p: nat)
    requires forall u :: u in l ==> u in k.tcbs && u in tcbs && tcbs[u].prio == k.tcbs[u].prio
    ensures Position(tcbs, l, p, order) == Position(k.tcbs, l, p, order)
  {
    if order == Prio { PrioPositionFrame(k.tcbs, tcbs, l, p); }
  }

  lemma PrioPositionFrame(tcbs: map<Tid, Tcb>, tcbs1: map<Tid, Tcb>, l: seq<Tid>, p: nat)
    requires forall u :: u in l ==> u in tcbs && u in tcbs1 && tcbs[u].prio == tcbs1[u].prio
    ensures PrioPosition(tcbs, l, p) == PrioPosition(tcbs1, l, p)
  {
  }

  /** A thread's record may be replaced by any record that fits where the thread is linked. */
  lemma SetTcbInv(k: State, t: Tid, c: Tcb)
    requires Placement(k) && t in k.tcbs && c.prio < k.bits.Levels() && c.initPrio < k.bits.Levels()
    requires Started(c) ==> c.attr == k.bits.AttrOf(c.prio)
    requires Placed(SetTcb(k, t, c), t)
    ensures Placement(SetTcb(k, t, c))
  {
    hide Placed, Lists, BitmapExact;
    var k1 := SetTcb(k, t, c);
    SetTcbBase(k, t, c);
    hide Base;
    forall u | u in k1.tcbs && u != t ensures Placed(k1, u) { SetOtherTcb(k, t, c, u); }
  }

  lemma SetTcbBase(k: State, t: Tid, c: Tcb)
    requires Base(k) && t in k.tcbs && c.prio < k.bits.Levels() && c.initPrio < k.bits.Levels()
    requires Started(c) ==> c.attr == k.bits.AttrOf(c.prio)
    ensures Base(SetTcb(k, t, c))
  {
    var k1 := SetTcb(k, t, c);
    assert Lists(k1) && Priorities(k1) && BitmapExact(k1);
  }

  lemma SetOtherTcb(k: State, t: Tid, c: Tcb, u: Tid)
    requires u in k.tcbs && u != t && Placed(k, u)
    ensures Placed(SetTcb(k, t, c), u)
  {
  }

  /** Fields that say nothing about where the thread is linked may be set at any time. */
  lemma FieldsInv(k: State, t: Tid, c: Tcb)
    requires Inv(k) && t in k.tcbs
    requires c == k.tcbs[t].(error := c.error, eventSet := c.eventSet, eventInfo := c.eventInfo)
    ensures Inv(SetTcb(k, t, c))
  {
    hide Inv, Lists, BitmapExact, Placed;
    InvPlaces(k, t);
    SamePlace(k, t, c);
    PlacementOf(k);
    SetTcbInv(k, t, c);
    InvCurrent(k);
    FieldsCurrent(k, t, c);
  }

  lemma FieldsCurrent(k: State, t: Tid, c: Tcb)
    requires Placement(SetTcb(k, t, c)) && t in k.tcbs && c.stat == k.tcbs[t].stat
    requires k.current in k.tcbs && k.tcbs[k.current].stat in {Running, Suspend, Close}
    ensures Inv(SetTcb(k, t, c))
  {
    hide Placement;
  }

  lemma SamePlace(k: State, t: Tid, c: Tcb)
    requires t in k.tcbs && Placed(k, t) && c.stat == k.tcbs[t].stat && c.prio == k.tcbs[t].prio && c.timerOn == k.tcbs[t].timerOn
    ensures Placed(SetTcb(k, t, c), t)
  {
  }

  lemma SetErrorInv(k: State, t: Tid, e: Err)
    requires Inv(k) && t in k.tcbs
    ensures Inv(SetError(k, t, e))
  {
    hide Inv;
    FieldsInv(k, t, k.tcbs[t].(error := e));
  }

  lemma SetEventFieldsInv(k: State, t: Tid, bits: bv32, info: EventInfo)
    requires Inv(k) && t in k.tcbs
    ensures Inv(SetEventFields(k, t, bits, info))
  {
    hide Inv;
    FieldsInv(k, t, k.tcbs[t].(eventSet := bits, eventInfo := info));
  }

  lemma ChangePriorityInv(k: State, t: Tid, p: nat)
    requires Inv(k) && t in k.tcbs && Started(k.tcbs[t]) && p < k.bits.Levels()
    ensures Known(k, t) && Inv(ChangePriority(k, t, p))
    ensures PriorityChanged(k, ChangePriority(k, t, p), t, p)
  {
    hide Inv, Placement, PriorityChanged;
    InvPlaces(k, t);
    InvCurrent(k);
    if k.tcbs[t].stat == Ready { ChangeReadyInv(k, t, p); } else { ChangeOtherInv(k, t, p); }
    ChangePriorityEffect(k, t, p);
  }

  lemma ChangeReadyInv(k: State, t: Tid, p: nat)
    requires Inv(k) && t in k.tcbs && k.tcbs[t].stat == Ready && p < k.bits.Levels()
    ensures Known(k, t) && Inv(ChangePriority(k, t, p))
  {
    hide Placement, InTransit;
    var c := k.tcbs[t].(prio := p, attr := k.bits.AttrOf(p));
    InvPlaces(k, t);
    RemoveThreadInv(k, t);
    SetTcbInTransit(RemoveThread(k, t), t, c);
    InsertThreadInv(SetTcb(RemoveThread(k, t), t, c), t);
  }

  lemma ChangeOtherInv(k: State, t: Tid, p: nat)
    requires Inv(k) && t in k.tcbs && k.tcbs[t].stat in {Suspend, Running} && p < k.bits.Levels()
    ensures Known(k, t) && Inv(ChangePriority(k, t, p))
  {
    hide Placement;
    InvPlaces(k, t);
    SetTcbInv(k, t, k.tcbs[t].(prio := p, attr := k.bits.AttrOf(p)));
  }

  ghost predicate PriorityChanged(k: State, k1: State, t: Tid, p: nat)
    requires t in k.tcbs
  {
    && k1.tcbs == k.tcbs[t := k.tcbs[t].(prio := p, attr := k.bits.AttrOf(p))]
    && k1.current == k.current && k1.lockNest == k.lockNest && k1.lists.Keys == k.lists.Keys
    && forall w :: WaitQ(w) in k.lists ==> k1.lists[WaitQ(w)] == k.lists[WaitQ(w)]
  }

  lemma ChangePriorityEffect(k: State, t: Tid, p: nat)
    requires Known(k, t) && ReadyQ(p) in k.lists && (k.bits.TwoLevel? ==> p / 8 < |k.bits.table|)
    requires k.tcbs[t].stat == Ready ==> t != k.current && forall w :: WaitQ(w) in k.lists ==> t !in k.lists[WaitQ(w)]
    ensures PriorityChanged(k, ChangePriority(k, t, p), t, p)
  {
  }

  lemma PreparePlacement(k: State, t: Tid)
    requires Placement(k) && t in k.tcbs && k.tcbs[t].stat == Init
    ensures Placement(Prepare(k, t)) && ReadyQ(k.tcbs[t].initPrio) in k.lists
    ensures k.bits.TwoLevel? ==> k.tcbs[t].initPrio / 8 < |k.bits.table|
  {
    var p := k.tcbs[t].initPrio;
    var c := k.tcbs[t].(prio := p, attr := k.bits.AttrOf(p), stat := Suspend);
    assert Placed(k, t);
    SetTcbInv(k, t, c);
  }

  lemma PrepareInv(k: State, t: Tid)
    requires Inv(k) && t in k.tcbs && k.tcbs[t].stat == Init
    ensures Inv(Prepare(k, t))
  {
    PreparePlacement(k, t);
    hide Placement;
  }

  lemma StartupPlacement(k: State, t: Tid)
    requires Placement(k) && t in k.tcbs && k.tcbs[t].stat == Init
    ensures ReadyQ(k.tcbs[t].initPrio) in k.lists && (k.bits.TwoLevel? ==> k.tcbs[t].initPrio / 8 < |k.bits.table|)
    ensures Placement(Startup(k, t)) && Known(Prepare(k, t), t)
    ensures Woken(Prepare(k, t), Startup(k, t), t, k.tcbs[t].error)
  {
    PreparePlacement(k, t);
    hide Placement, Wake;
    WakePlacement(Prepare(k, t), t, k.tcbs[t].error);
  }

  lemma StartupInv(k: State, t: Tid)
    requires Inv(k) && t in k.tcbs && k.tcbs[t].stat == Init
    ensures ReadyQ(k.tcbs[t].initPrio) in k.lists && (k.bits.TwoLevel? ==> k.tcbs[t].initPrio / 8 < |k.bits.table|)
    ensures Inv(Startup(k, t))
  {
    hide Placement, ResumeThread, Woken;
    StartupPlacement(k, t);
    StartupCurrent(k, t);
  }

  lemma StartupCurrent(k: State, t: Tid)
    requires CurrentOk(k) && t in k.tcbs && k.tcbs[t].stat == Init && Known(Prepare(k, t), t)
    requires ReadyQ(k.tcbs[t].initPrio) in k.lists && (k.bits.TwoLevel? ==> k.tcbs[t].initPrio / 8 < |k.bits.table|)
    ensures CurrentOk(Startup(k, t))
  {
    hide Wake;
    WakeEffect(Prepare(k, t), t, k.tcbs[t].error);
  }

  /** Taking thread t off its list without a look at the bitmap does no harm: it is in no ready queue, or it is under
      deletion and not alone there. */
  ghost predicate Takeable(k: State, t: Tid) {
    forall p: nat :: ReadyQ(p) in k.lists && t in k.lists[ReadyQ(p)] ==> t in k.deletions && |k.lists[ReadyQ(p)]| > 1
  }

  lemma UnlinkTakeable(k: State, t: Tid)
    requires Placement(k) && t in k.tcbs && Takeable(k, t)
    ensures InTransit(Unlink(k, t), t) && (k.tcbs[t].stat == Ready ==> t in k.deletions)
  {
    assert Placed(k, t);
    UnlinkLists(k, t);
    var k1 := Unlink(k, t);
    forall p: nat | p < k.bits.Levels() ensures k1.lists[ReadyQ(p)] == [] <==> k.lists[ReadyQ(p)] == [] {
      if t in k.lists[ReadyQ(p)] { WithoutLength(k.lists[ReadyQ(p)], t); }
    }
  }

  lemma ResumeUnlinkInv(k: State, t: Tid)
    requires Inv(k) && t in k.tcbs && Takeable(k, t)
    ensures Inv(ResumeUnlink(k, t)) && Loose(ResumeUnlink(k, t), t)
    ensures Dropped(k, ResumeUnlink(k, t), t, k.tcbs[t].(timerOn := false))
  {
    hide Placement, InTransit, Placed, Lists, BitmapExact, Loose, Dropped, Takeable;
    var c := k.tcbs[t].(timerOn := false);
    var k0 := SetTcb(Unlink(k, t), t, c);
    InvPlaces(k, t);
    RunningIsCurrent(k, t);
    UnlinkTakeable(k, t);
    SetTcbInTransit(Unlink(k, t), t, c);
    SettleInv(k0, t);
    CallsInv(k0, k0.deletions, ResumeUnlink(k, t).pending);
    ResumeUnlinkEffect(k, t);
  }

  lemma RunningIsCurrent(k: State, t: Tid)
    requires Inv(k) && t in k.tcbs
    ensures k.tcbs[t].stat == Running ==> t == k.current
  {
    InvPlaces(k, t);
  }

  lemma ResumeUnlinkEffect(k: State, t: Tid)
    requires t in k.tcbs && InTransit(SetTcb(Unlink(k, t), t, k.tcbs[t].(timerOn := false)), t)
    ensures Dropped(k, ResumeUnlink(k, t), t, k.tcbs[t].(timerOn := false)) && Loose(ResumeUnlink(k, t), t)
  {
  }

  lemma ResumeInsertInv(k: State, t: Tid)
    requires Inv(k) && t in k.tcbs && Started(k.tcbs[t]) && Loose(k, t)
    ensures Known(k, t) && Inv(ResumeInsert(k, t))
    ensures var k1 := ResumeInsert(k, t);
      && k1.tcbs == k.tcbs[t := k.tcbs[t].(stat := if t == k.current then Running else Ready)]
      && k1.current == k.current && k1.lockNest == k.lockNest && k1.lists.Keys == k.lists.Keys
      && forall w :: WaitQ(w) in k.lists ==> k1.lists[WaitQ(w)] == k.lists[WaitQ(w)]
  {
    hide Placement, Placed, Lists, BitmapExact;
    InsertLooseInv(k, t);
    var k0 := InsertThread(k, t);
    CallsInv(k0, k0.deletions, ResumeInsert(k, t).pending);
  }

  lemma InsertLooseInv(k: State, t: Tid)
    requires Inv(k) && t in k.tcbs && Started(k.tcbs[t]) && Loose(k, t)
    ensures Known(k, t) && Placement(InsertThread(k, t))
  {
    hide Placed, Lists, BitmapExact, Priorities;
    assert InTransit(k, t);
    InsertThreadInv(k, t);
  }

  /** Thread t has left its list and has record c; nothing else about any thread has changed. */
  ghost predicate Dropped(k: State, k1: State, t: Tid, c: Tcb) {
    && k1.tcbs == k.tcbs[t := c] && k1.current == k.current && k1.lockNest == k.lockNest && k1.lists.Keys == k.lists.Keys
    && forall w :: WaitQ(w) in k.lists ==> k1.lists[WaitQ(w)] == Without(k.lists[WaitQ(w)], t)
  }

  lemma PendingInv(k: State, pending: Underway)
    requires Inv(k)
    ensures Inv(k.(pending := pending))
  {
    CallsInv(k, k.deletions, pending);
    hide Placement;
  }

  lemma SuspendTakeInv(k: State, t: Tid)
    requires Inv(k) && t in k.tcbs && Started(k.tcbs[t])
    ensures Known(k, t) && Inv(SuspendTake(k, t)) && Loose(SuspendTake(k, t), t)
    ensures Dropped(k, SuspendTake(k, t), t, k.tcbs[t].(stat := Suspend, timerOn := false))
  {
    hide Placement, InTransit, Placed, Lists, BitmapExact, Dropped, Loose;
    var c := k.tcbs[t].(stat := Suspend, timerOn := false);
    InvPlaces(k, t);
    ReadyKnown(k, t);
    var k0 := SetTcb(RemoveThread(k, t), t, c);
    RemoveThreadInv(k, t);
    SetTcbInTransit(RemoveThread(k, t), t, c);
    SettleInv(k0, t);
    CallsInv(k0, k0.deletions, SuspendTake(k, t).pending);
    SuspendTakeEffect(k, t);
  }

  lemma SuspendTakeEffect(k: State, t: Tid)
    requires Known(k, t)
    ensures Dropped(k, SuspendTake(k, t), t, k.tcbs[t].(stat := Suspend, timerOn := false)) && Loose(SuspendTake(k, t), t)
  {
    RemoveThreadEffect(k, t);
    hide RemoveThread;
    assert k.tcbs[t := k.tcbs[t]] == k.tcbs;
  }

  /** Placement does not depend on the calls in progress. */
  lemma CallsInv(k: State, deletions: map<Tid, Deletion>, pending: Underway)
    requires Placement(k) && forall u :: u in k.tcbs && k.tcbs[u].stat == Ready && u in k.deletions ==> u in deletions
    ensures Placement(k.(deletions := deletions, pending := pending))
  {
    var k1 := k.(deletions := deletions, pending := pending);
    assert Lists(k1) && Priorities(k1) && BitmapExact(k1);
    forall u | u in k1.tcbs ensures Placed(k1, u) { assert Placed(k, u); }
  }

  lemma DeleteRemoveInv(k: State, t: Tid)
    requires Inv(k) && t in k.tcbs && k.tcbs[t].stat != Close
    ensures k.tcbs[t].stat != Init ==> Known(k, t)
    ensures Inv(DeleteRemove(k, t)) && Off(DeleteRemove(k, t), t) && Dropped(k, DeleteRemove(k, t), t, k.tcbs[t])
  {
    hide Placement, InTransit, Placed, Lists, BitmapExact, Off, Dropped;
    DeletePlaced(k, t);
    if k.tcbs[t].stat != Init {
      RemoveThreadInv(k, t);
      RemoveThreadEffect(k, t);
      UnlistedInv(RemoveThread(k, t), t);
    } else {
      CallsInv(k, k.deletions[t := Unlisted], k.pending);
    }
    DeleteRemoveEffect(k, t);
  }

  /** CLOSE, on the defunct list and on no other. */
  ghost predicate Buried(k: State, t: Tid) {
    && t in k.tcbs && k.tcbs[t].stat == Close && Defunct in k.lists && t in k.lists[Defunct]
    && forall q :: q in k.lists && t in k.lists[q] ==> q == Defunct
  }

  /** A deletion that nothing interrupts leaves the thread on the defunct list alone, with its timer stopped. */
  lemma DeleteInv(k: State, t: Tid)
    requires Inv(k) && t in k.tcbs && k.tcbs[t].stat != Close
    ensures Deletable(k, t) && Inv(Delete(k, t)) && Buried(Delete(k, t), t)
    ensures Delete(k, t).tcbs == k.tcbs[t := k.tcbs[t].(stat := Close, timerOn := false)]
    ensures Delete(k, t).deletions == k.deletions - {t}
  {
    hide Inv, Off, Buried;
    InvDefunct(k);
    DeleteRemoveInv(k, t);
    var k1 := DeleteRemove(k, t);
    DeleteTimerInv(k1, t);
    var k2 := DeleteTimer(k1, t);
    OffFrame(k1, k2, t);
    DeleteCloseInv(k2, t);
    var k3 := DeleteClose(k2, t);
    DeleteBuryInv(k3, t);
    BuriedThen(k3, t);
    DeleteRecords(k, t);
  }

  lemma OffFrame(k: State, k1: State, t: Tid)
    requires Off(k, t) && k1.lists == k.lists
    ensures Off(k1, t)
  {
  }

  lemma BuriedThen(k: State, t: Tid)
    requires Defunct in k.lists && t in k.tcbs && k.tcbs[t].stat == Close && Off(k, t)
    ensures Buried(DeleteBury(k, t), t)
  {
  }

  lemma DeleteRecords(k: State, t: Tid)
    requires Deletable(k, t) && DeleteRemove(k, t).tcbs == k.tcbs
    ensures Delete(k, t).tcbs == k.tcbs[t := k.tcbs[t].(stat := Close, timerOn := false)]
    ensures Delete(k, t).deletions == k.deletions - {t}
  {
    var c := k.tcbs[t].(timerOn := false);
    assert k.tcbs[t := c][t := c.(stat := Close)] == k.tcbs[t := c.(stat := Close)];
    assert k.deletions[t := Unlisted][t := Untimed][t := Closed] - {t} == k.deletions - {t};
  }

  lemma DeletePlaced(k: State, t: Tid)
    requires Inv(k) && t in k.tcbs
    ensures k.tcbs[t].stat == Init ==> Off(k, t)
    ensures (k.tcbs[t].stat == Running ==> t == k.current) && (k.tcbs[t].timerOn ==> k.tcbs[t].stat == Suspend)
  {
    InvPlaces(k, t);
  }

  lemma RemoveThreadEffect(k: State, t: Tid)
    requires Known(k, t)
    ensures Off(RemoveThread(k, t), t) && Dropped(k, RemoveThread(k, t), t, k.tcbs[t])
    ensures RemoveThread(k, t).deletions == k.deletions
  {
    assert k.tcbs[t := k.tcbs[t]] == k.tcbs;
  }

  lemma DeleteRemoveEffect(k: State, t: Tid)
    requires t in k.tcbs && (if k.tcbs[t].stat != Init then Known(k, t) else Off(k, t))
    ensures Off(DeleteRemove(k, t), t) && Dropped(k, DeleteRemove(k, t), t, k.tcbs[t])
  {
    assert k.tcbs[t := k.tcbs[t]] == k.tcbs;
    if k.tcbs[t].stat != Init { RemoveThreadEffect(k, t); hide RemoveThread; }
  }

  lemma UnlistedInv(k: State, t: Tid)
    requires InTransit(k, t) && (k.tcbs[t].stat == Running ==> t == k.current) && (k.tcbs[t].timerOn ==> k.tcbs[t].stat == Suspend)
    ensures Placement(k.(deletions := k.deletions[t := Unlisted]))
  {
    var k1 := k.(deletions := k.deletions[t := Unlisted]);
    assert Lists(k1) && Priorities(k1) && BitmapExact(k1);
    forall u | u in k1.tcbs ensures Placed(k1, u) { if u != t { assert Placed(k, u); } }
  }

  lemma DeleteTimerInv(k: State, t: Tid)
    requires Inv(k) && t in k.tcbs
    ensures Inv(DeleteTimer(k, t))
  {
    hide Placement, InTransit, Lists, BitmapExact;
    var c := k.tcbs[t].(timerOn := false);
    InvPlaces(k, t);
    SetTcbInv(k, t, c);
    CallsInv(SetTcb(k, t, c), k.deletions[t := Untimed], k.pending);
  }

  lemma DeleteCloseInv(k: State, t: Tid)
    requires Inv(k) && t in k.tcbs && Loose(k, t)
    ensures Inv(DeleteClose(k, t)) && Loose(DeleteClose(k, t), t)
  {
    hide Placement, InTransit, Lists, BitmapExact;
    var c := k.tcbs[t].(stat := Close);
    InvPlaces(k, t);
    SetTcbInv(k, t, c);
    CallsInv(SetTcb(k, t, c), k.deletions[t := Closed], k.pending);
  }

  lemma DeleteBuryInv(k: State, t: Tid)
    requires Inv(k) && t in k.tcbs && k.tcbs[t].stat == Close && Off(k, t)
    ensures Inv(DeleteBury(k, t))
  {
    hide Inv, Placement, InTransit, Off, Lists, BitmapExact;
    InvDefunct(k);
    InvPlaces(k, t);
    InvCurrent(k);
    PlacementOf(k);
    TransitOf(k, t);
    LinkAtInv(k, Defunct, 0, t);
    var k0 := LinkAt(k, Defunct, 0, t);
    hide Placed, Base;
    CallsInv(k0, k.deletions - {t}, k.pending);
    InvOf(DeleteBury(k, t));
  }

  lemma ExitInv(k: State, bury: bool)
    requires Inv(k) && k.tcbs[k.current].stat == Running
    ensures Known(k, k.current) && Defunct in k.lists && Inv(Exit(k, bury))
    ensures Dropped(k, Exit(k, bury), k.current, k.tcbs[k.current].(stat := Close, timerOn := false))
  {
    hide Placement, InTransit, Placed, Lists, BitmapExact, Dropped;
    var t := k.current;
    var c := k.tcbs[t].(stat := Close, timerOn := false);
    InvPlaces(k, t);
    ReadyKnown(k, t);
    RemoveThreadInv(k, t);
    SetTcbInTransit(RemoveThread(k, t), t, c);
    var k1 := SetTcb(RemoveThread(k, t), t, c);
    InvDefunct(k);
    if bury { LinkAtInv(k1, Defunct, 0, t); } else { SettleInv(k1, t); }
    ExitEffect(k, bury);
  }

  lemma InvDefunct(k: State)
    requires Inv(k)
    ensures Defunct in k.lists
  {
  }

  lemma ExitEffect(k: State, bury: bool)
    requires Known(k, k.current) && Defunct in k.lists
    ensures Dropped(k, Exit(k, bury), k.current, k.tcbs[k.current].(stat := Close, timerOn := false))
  {
    RemoveThreadEffect(k, k.current);
    hide RemoveThread;
    assert k.tcbs[k.current := k.tcbs[k.current]] == k.tcbs;
  }

  /** A thread on a wait list is SUSPENDed and on no other list. */
  lemma WaiterInv(k: State, w: Wid, t: Tid)
    requires Inv(k) && WaitQ(w) in k.lists && t in k.lists[WaitQ(w)]
    ensures t in k.tcbs && k.tcbs[t].stat == Suspend && Known(k, t)
    ensures forall v :: WaitQ(v) in k.lists && v != w ==> t !in k.lists[WaitQ(v)]
  {
    assert Placed(k, t);
    forall v | WaitQ(v) in k.lists && v != w ensures t !in k.lists[WaitQ(v)] { assert WaitQ(v) != WaitQ(w); }
  }

  /** One round of rt_ipc_list_resume_all. */
  function ResumeFirstWithError(k: State, w: Wid): State
    requires Inv(k) && WaitQ(w) in k.lists && k.lists[WaitQ(w)] != []
  {
    var t := k.lists[WaitQ(w)][0];
    WaiterInv(k, w, t);
    ResumeThread(SetError(k, t, ERROR), t)
  }

  lemma ResumeFirstInv(k: State, w: Wid)
    requires Inv(k) && WaitQ(w) in k.lists && k.lists[WaitQ(w)] != []
    ensures var k1 := ResumeFirstWithError(k, w); var l := k.lists[WaitQ(w)];
      Inv(k1) && l[0] in k.tcbs && Woken(k, k1, l[0], ERROR) && k1.lists[WaitQ(w)] == l[1..]
  {
    var t := k.lists[WaitQ(w)][0];
    WaiterInv(k, w, t);
    SetErrorInv(k, t, ERROR);
    ResumeThreadInv(SetError(k, t, ERROR), t);
    WokenAfterError(k, ResumeFirstWithError(k, w), t, ERROR);
    WithoutFirst(k.lists[WaitQ(w)]);
  }

  lemma WokenAfterError(k: State, k1: State, t: Tid, e: Err)
    requires t in k.tcbs && Woken(SetError(k, t, e), k1, t, e)
    ensures Woken(k, k1, t, e)
  {
    assert k.tcbs[t := k.tcbs[t].(error := e)][t := k1.tcbs[t]] == k.tcbs[t := k1.tcbs[t]];
  }

  /** rt_ipc_list_resume_all: every waiter is woken with an error. */
  function ResumeAll(k: State, w: Wid): State
    requires Inv(k) && WaitQ(w) in k.lists
    decreases |k.lists[WaitQ(w)]|
  {
    if k.lists[WaitQ(w)] == [] then k
    else
      ResumeFirstInv(k, w);
      ResumeAll(ResumeFirstWithError(k, w), w)
  }

  /** What rt_ipc_list_resume_all does, all at once. */
  ghost predicate AllWoken(k: State, k1: State, w: Wid)
    requires WaitQ(w) in k.lists
  {
    var l := k.lists[WaitQ(w)];
    && k1.tcbs.Keys == k.tcbs.Keys && k1.current == k.current && k1.lockNest == k.lockNest && k1.lists.Keys == k.lists.Keys
    && k1.lists[WaitQ(w)] == []
    && (forall v :: WaitQ(v) in k.lists && v != w ==> k1.lists[WaitQ(v)] == k.lists[WaitQ(v)])
    && (forall u :: u in k.tcbs && u !in l ==> k1.tcbs[u] == k.tcbs[u])
    && (forall u :: u in k.tcbs && u in l ==>
          k1.tcbs[u] == k.tcbs[u].(error := ERROR, timerOn := false, stat := if u == k.current then Running else Ready))
  }

  lemma ResumeAllInv(k: State, w: Wid)
    requires Inv(k) && WaitQ(w) in k.lists
    ensures Inv(ResumeAll(k, w)) && AllWoken(k, ResumeAll(k, w), w)
    decreases |k.lists[WaitQ(w)]|
  {
    if k.lists[WaitQ(w)] != [] {
      var k1 := ResumeFirstWithError(k, w);
      ResumeFirstInv(k, w);
      WaiterInv(k, w, k.lists[WaitQ(w)][0]);
      ResumeAllInv(k1, w);
      AllWokenStep(k, k1, ResumeAll(k1, w), w);
    }
  }

  lemma AllWokenStep(k: State, k1: State, k2: State, w: Wid)
    requires WaitQ(w) in k.lists && k.lists[WaitQ(w)] != [] && k.lists[WaitQ(w)][0] in k.tcbs
    requires var l := k.lists[WaitQ(w)]; NoDup(l) && Woken(k, k1, l[0], ERROR) && k1.lists[WaitQ(w)] == l[1..]
    requires forall v :: WaitQ(v) in k.lists && v != w ==> k.lists[WaitQ(w)][0] !in k.lists[WaitQ(v)]
    requires AllWoken(k1, k2, w)
    ensures AllWoken(k, k2, w)
  {
    var l := k.lists[WaitQ(w)];
    assert forall u :: u in l <==> u == l[0] || u in l[1..];
    assert l[0] !in l[1..];
  }

  // ---------- rt_schedule ----------

  lemma HighestKnown(k: State)
    requires Base(k) && k.bits.group != 0
    ensures HighestOf(k) < k.bits.Levels() && k.lists[ReadyQ(HighestOf(k))] != []
    ensures forall p: nat :: p < HighestOf(k) ==> k.lists[ReadyQ(p)] == []
  {
    k.bits.HighestIsLeastMarked();
    var h: nat := k.bits.Highest();
    assert k.bits.Marked(h);
    forall p: nat | p < h ensures k.lists[ReadyQ(p)] == [] { assert !k.bits.Marked(p); }
  }

  /** highest_ready_priority */
  function HighestOf(k: State): nat
    requires Base(k) && k.bits.group != 0
  {
    k.bits.HighestIsLeastMarked();
    k.bits.Highest()
  }

  /** The context switch of rt_schedule to a READY thread: a current thread that is still RUNNING goes
      to the tail of its own queue first. */
  function SwitchTo(k: State, to: Tid): State
    requires Known(k, to) && to != k.current && k.current in k.tcbs
    requires k.tcbs[k.current].stat == Running ==> Known(k, k.current)
  {
    var from := k.current;
    var k1 := k.(current := to);
    var k2 := if k.tcbs[from].stat == Running then InsertThread(k1, from) else k1;
    var k3 := RemoveThread(k2, to);
    SetTcb(k3, to, k3.tcbs[to].(stat := Running))
  }

  /** rt_schedule */
  function Schedule(k: State): State
    requires Inv(k)
  {
    if k.lockNest != 0 || k.bits.group == 0 then k
    else
      HighestKnown(k);
      var highest := HighestOf(k);
      var to := k.lists[ReadyQ(highest)][0];
      var c := k.tcbs[k.current];
      FrontIsReady(k, highest);
      ReadyKnown(k, to);
      assert c.stat == Running ==> Known(k, k.current);
      if c.stat == Running && c.prio < highest then
        SetTcb(RemoveThread(k, k.current), k.current, c.(stat := Running))
      else SwitchTo(k, to)
  }

  lemma FrontIsReady(k: State, p: nat)
    requires Inv(k) && ReadyQ(p) in k.lists && k.lists[ReadyQ(p)] != []
    ensures var t := k.lists[ReadyQ(p)][0]; t in k.tcbs && k.tcbs[t].stat == Ready && k.tcbs[t].prio == p && t != k.current
  {
    assert Placed(k, k.lists[ReadyQ(p)][0]);
  }

  /** Taking the current thread off its queue and marking it RUNNING. */
  lemma RunCurrentInv(k: State, t: Tid)
    requires Placement(k) && t == k.current && t in k.tcbs && k.tcbs[t].stat in {Ready, Running}
    ensures Known(k, t) && Inv(SetTcb(RemoveThread(k, t), t, k.tcbs[t].(stat := Running)))
  {
    assert Placed(k, t);
    RemoveThreadInv(k, t);
    SetTcbInTransit(RemoveThread(k, t), t, k.tcbs[t].(stat := Running));
    RunningInv(SetTcb(RemoveThread(k, t), t, k.tcbs[t].(stat := Running)), t);
  }

  lemma RunningInv(k: State, t: Tid)
    requires InTransit(k, t) && t == k.current && k.tcbs[t].stat == Running && !k.tcbs[t].timerOn
    ensures Inv(k)
  {
  }

  lemma SwitchToInv(k: State, to: Tid)
    requires Inv(k) && to in k.tcbs && k.tcbs[to].stat == Ready
    ensures Known(k, to) && to != k.current && (k.tcbs[k.current].stat == Running ==> Known(k, k.current))
    ensures Inv(SwitchTo(k, to))
  {
    hide Inv, Placement, InTransit;
    InvCurrent(k);
    InvPlaces(k, to);
    ReadyKnown(k, to);
    if k.tcbs[k.current].stat == Running { ReadyKnown(k, k.current); }
    var from := k.current;
    var k1 := k.(current := to);
    SwitchedCurrent(k, to);
    if k.tcbs[from].stat == Running {
      InsertThreadInv(k1, from);
      RunCurrentInv(InsertThread(k1, from), to);
    } else {
      RunCurrentInv(k1, to);
    }
  }

  /** Once rt_current_thread is overwritten, only the thread it named may be out of place. */
  lemma SwitchedCurrent(k: State, to: Tid)
    requires Inv(k) && to in k.tcbs
    ensures var k1 := k.(current := to);
      if k.tcbs[k.current].stat == Running then InTransit(k1, k.current) else Placement(k1)
  {
    var k1 := k.(current := to);
    RunningNowhere(k);
    hide Base, Off;
    SameBase(k, to);
    forall u | u in k.tcbs && (u != k.current || k.tcbs[u].stat != Running) ensures Placed(k1, u) { ElsewherePlaced(k, to, u); }
    hide Placed;
  }

  lemma RunningNowhere(k: State)
    requires Inv(k)
    ensures k.current in k.tcbs && (k.tcbs[k.current].stat == Running ==> Off(k, k.current))
  {
    InvPlaces(k, k.current);
  }

  lemma SameBase(k: State, to: Tid)
    requires Base(k)
    ensures Base(k.(current := to))
  {
    assert Lists(k.(current := to)) && Priorities(k.(current := to)) && BitmapExact(k.(current := to));
  }

  lemma ElsewherePlaced(k: State, to: Tid, u: Tid)
    requires u in k.tcbs && Placed(k, u) && (u != k.current || k.tcbs[u].stat != Running)
    ensures Placed(k.(current := to), u)
  {
  }

  lemma InvOf(k: State)
    requires Placement(k) && k.current in k.tcbs && k.tcbs[k.current].stat in {Running, Suspend, Close}
    ensures Inv(k)
  {
  }

  lemma TransitOf(k: State, t: Tid)
    requires Placement(k) && t in k.tcbs && Off(k, t)
    ensures InTransit(k, t)
  {
  }

  lemma PlacementOf(k: State)
    requires Inv(k)
    ensures Placement(k)
  {
  }

  lemma ScheduleInv(k: State)
    requires Inv(k)
    ensures Inv(Schedule(k))
  {
    hide Inv, Placement, SwitchTo, RemoveThread;
    InvCurrent(k);
    if k.lockNest == 0 && k.bits.group != 0 {
      HighestKnown(k);
      var highest := HighestOf(k);
      var c := k.tcbs[k.current];
      FrontIsReady(k, highest);
      if c.stat == Running && c.prio < highest {
        PlacementOf(k);
        RunCurrentInv(k, k.current);
      } else {
        SwitchToInv(k, k.lists[ReadyQ(highest)][0]);
      }
    }
  }
}
