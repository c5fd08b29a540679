/** Whole runs of the kernel: the ready-queue invariants, the scheduler's choice, and round robin. */
module KernelRuns {
  import opened Seqs
  import opened ReadyBitmap
  import opened KernelSpec

  /** One interrupt-disabled region of thread.c, scheduler.c or of an IPC call, or one of the assignments in between,
      by any context. */
  datatype Step =
    | DoSchedule
    | EnterCritical
    | ExitCritical                                   // without the rt_schedule that follows it
    | DoStartup(t: Tid)                              // up to its rt_thread_resume
    | DoChangePriority(t: Tid, p: nat)
    | DoTimeout(t: Tid)
    | DoSuspend(t: Tid)                              // rt_thread_suspend by a caller with interrupts disabled
    | DoSuspendTest(t: Tid)                          // the test and the region of any other rt_thread_suspend
    | DoSuspendTake(t: Tid)
    | DoResume(t: Tid)                               // rt_thread_resume by a caller with interrupts disabled
    | DoResumeTest(t: Tid)                           // the test and the two regions of any other rt_thread_resume
    | DoResumeUnlink(t: Tid)
    | DoResumeInsert(t: Tid)
    | DoDeleteRemove(t: Tid)                         // the regions of rt_thread_delete
    | DoDeleteTimer(t: Tid)
    | DoDeleteClose(t: Tid)
    | DoDeleteBury(t: Tid)
    | DoExit(bury: bool)
    | DoSleep
    | DoBlock(w: Wid, order: Order, timed: bool)
    | DoResumeAll(w: Wid)
    | DoSetError(t: Tid, e: Err)
    | DoSetEvents(t: Tid, bits: bv32, info: EventInfo)

  /** The rt_thread_delete of thread t has come as far as d. */
  ghost predicate Deleting(k: State, t: Tid, d: Deletion) {
    t in k.tcbs && t in k.deletions && k.deletions[t] == d
  }

  /** May step s be taken? A run ends where rt_thread_delete would close, or rt_thread_resume insert, a thread that
      something else has linked into a list or whose timer runs again; where rt_thread_resume would take a thread off a
      ready queue; and where the thread to insert or to suspend has been closed. */
  ghost predicate Enabled(k: State, s: Step) {
    match s
    case DoSchedule => true
    case EnterCritical => true
    case ExitCritical => true
    case DoStartup(t) => t in k.tcbs && k.tcbs[t].stat == Init
    case DoChangePriority(t, p) => t in k.tcbs && Started(k.tcbs[t]) && p < k.bits.Levels()
    case DoTimeout(t) => t in k.tcbs && k.tcbs[t].timerOn
    case DoSuspend(t) => t in k.tcbs && k.tcbs[t].stat in {Ready, Running}
    case DoResume(t) => t in k.tcbs && k.tcbs[t].stat == Suspend
    case DoSuspendTest(t) => t in k.tcbs && k.tcbs[t].stat in {Ready, Running}
    case DoSuspendTake(t) => t in k.tcbs && t in k.pending.suspendTested && Started(k.tcbs[t])
    case DoResumeTest(t) => t in k.tcbs && k.tcbs[t].stat == Suspend
    case DoResumeUnlink(t) => t in k.tcbs && t in k.pending.resumeTested && Takeable(k, t)
    case DoResumeInsert(t) => t in k.tcbs && t in k.pending.resumes && Started(k.tcbs[t]) && Loose(k, t)
    case DoDeleteRemove(t) => t in k.tcbs && t !in k.deletions && k.tcbs[t].stat != Close
    case DoDeleteTimer(t) => Deleting(k, t, Unlisted)
    case DoDeleteClose(t) => Deleting(k, t, Untimed) && Loose(k, t)
    case DoDeleteBury(t) => Deleting(k, t, Closed) && k.tcbs[t].stat == Close && Off(k, t)
    case DoExit(_) => k.current in k.tcbs && k.tcbs[k.current].stat == Running
    case DoSleep => k.current in k.tcbs && k.tcbs[k.current].stat == Running
    case DoBlock(w, _, _) => WaitQ(w) in k.lists && k.current in k.tcbs && k.tcbs[k.current].stat == Running
    case DoResumeAll(w) => WaitQ(w) in k.lists
    case DoSetError(t, _) => t in k.tcbs
    case DoSetEvents(t, _, _) => t in k.tcbs
  }

  /** rt_thread_sleep */
  function Sleep(k: State): State
    requires Known(k, k.current)
  {
    var k1 := SuspendThread(k, k.current);
    SetTcb(k1, k.current, k1.tcbs[k.current].(timerOn := true))
  }

  ghost function Apply(k: State, s: Step): (k1: State)
    requires Inv(k) && Enabled(k, s)
    ensures Inv(k1)
  {
    hide Inv, Off, Loose, Takeable, InTransit, Woken, Blocked, AllWoken, PriorityChanged, Dropped, Asleep;
    match s
    case DoSchedule => ScheduleInv(k); Schedule(k)
    case EnterCritical => LockInv(k, k.lockNest + 1); k.(lockNest := k.lockNest + 1)
    case ExitCritical =>
      var n := if k.lockNest <= 1 then 0 else k.lockNest - 1;
      LockInv(k, n); k.(lockNest := n)
    case DoStartup(t) => PrepareInv(k, t); Prepare(k, t)
    case DoChangePriority(t, p) => InvTables(k); ChangePriorityInv(k, t, p); ChangePriority(k, t, p)
    case DoTimeout(t) => TimeoutInv(k, t); Timeout(k, t)
    case DoSuspend(t) => SuspendThreadInv(k, t); SuspendThread(k, t)
    case DoResume(t) => ResumeThreadInv(k, t); ResumeThread(k, t)
    case DoSuspendTest(t) => PendingInv(k, SuspendTest(k, t).pending); SuspendTest(k, t)
    case DoSuspendTake(t) => SuspendTakeInv(k, t); SuspendTake(k, t)
    case DoResumeTest(t) => PendingInv(k, ResumeTest(k, t).pending); ResumeTest(k, t)
    case DoResumeUnlink(t) => ResumeUnlinkInv(k, t); ResumeUnlink(k, t)
    case DoResumeInsert(t) => ResumeInsertInv(k, t); ResumeInsert(k, t)
    case DoDeleteRemove(t) => DeleteRemoveInv(k, t); DeleteRemove(k, t)
    case DoDeleteTimer(t) => DeleteTimerInv(k, t); DeleteTimer(k, t)
    case DoDeleteClose(t) => DeleteCloseInv(k, t); DeleteClose(k, t)
    case DoDeleteBury(t) => DeleteBuryInv(k, t); InvTables(k); DeleteBury(k, t)
    case DoExit(bury) => ExitInv(k, bury); Exit(k, bury)
    case DoSleep => SleepInv(k); Sleep(k)
    case DoBlock(w, order, timed) => InvTables(k); BlockInv(k, w, order, timed); Block(k, w, order, timed)
    case DoResumeAll(w) => ResumeAllInv(k, w); ResumeAll(k, w)
    case DoSetError(t, e) => SetErrorInv(k, t, e); SetError(k, t, e)
    case DoSetEvents(t, bits, info) => SetEventFieldsInv(k, t, bits, info); SetEventFields(k, t, bits, info)
  }

  lemma InvTables(k: State)
    requires Inv(k)
    ensures Lists(k) && Defunct in k.lists
    ensures forall p: nat :: p < k.bits.Levels() ==> ReadyQ(p) in k.lists && (k.bits.TwoLevel? ==> p / 8 < |k.bits.table|)
  {
  }

  ghost predicate Asleep(k: State, k1: State)
    requires k.current in k.tcbs
  {
    && k1.tcbs == k.tcbs[k.current := k.tcbs[k.current].(stat := Suspend, timerOn := true)]
    && k1.current == k.current && k1.lockNest == k.lockNest && k1.lists.Keys == k.lists.Keys
    && forall w :: WaitQ(w) in k.lists ==> k1.lists[WaitQ(w)] == k.lists[WaitQ(w)]
  }

  lemma SleepEffect(k: State)
    requires Known(k, k.current) && k.tcbs[k.current].stat == Running
    requires forall w :: WaitQ(w) in k.lists ==> k.current !in k.lists[WaitQ(w)]
    ensures Asleep(k, Sleep(k))
  {
  }

  lemma SleepInv(k: State)
    requires Inv(k) && k.tcbs[k.current].stat == Running
    ensures Known(k, k.current) && Inv(Sleep(k)) && Asleep(k, Sleep(k))
  {
    var t := k.current;
    assert Placed(k, t);
    SuspendThreadInv(k, t);
    SleepEffect(k);
    TimerOnInv(SuspendThread(k, t), t);
  }

  lemma TimerOnInv(k: State, t: Tid)
    requires Inv(k) && t in k.tcbs && k.tcbs[t].stat == Suspend
    ensures Inv(SetTcb(k, t, k.tcbs[t].(timerOn := true)))
  {
    hide Inv, Placement, Placed, Lists, BitmapExact;
    InvPlaces(k, t);
    PlacementOf(k);
    InvCurrent(k);
    TimerPlaced(k, t, true);
    SetTcbInv(k, t, k.tcbs[t].(timerOn := true));
    InvOf(SetTcb(k, t, k.tcbs[t].(timerOn := true)));
  }

  lemma LockInv(k: State, n: nat)
    requires Inv(k)
    ensures Inv(k.(lockNest := n))
  {
    var k1 := k.(lockNest := n);
    forall u | u in k1.tcbs ensures Placed(k1, u) { assert Placed(k, u); }
  }

  /** A step from k to k1. The functions that describe steps are defined where the invariant holds; that it holds in
      every state of a run is shown, not assumed. */
  ghost predicate Steps(k: State, step: Step, k1: State) {
    Inv(k) ==> Enabled(k, step) && k1 == Apply(k, step)
  }

  /** ks is the sequence of states of a run that takes the given steps. */
  ghost predicate Run(ks: seq<State>, steps: seq<Step>) {
    && |ks| == |steps| + 1
    && forall i :: 0 <= i < |steps| ==> Steps(ks[i], steps[i], ks[i + 1])
  }

  lemma {:induction false} RunInv(ks: seq<State>, steps: seq<Step>, i: nat)
    requires Run(ks, steps) && Inv(ks[0]) && i < |ks|
    ensures Inv(ks[i])
  {
    hide Inv, Apply, Enabled;
    if i > 0 {
      RunInv(ks, steps, i - 1);
      assert Steps(ks[i - 1], steps[i - 1], ks[i]);
    }
  }

  // ---------- the first thread ----------

  /** Before any thread is started: rt_current_thread names no thread. */
  ghost predicate Bare(k: State) {
    && k.bits.Valid() && k.bits.group == 0 && k.lockNest == 0
    && k.current !in k.tcbs
    && (forall u :: u in k.tcbs ==> k.tcbs[u].stat == Init && !k.tcbs[u].timerOn)
    && Priorities(k)
    && Defunct in k.lists && (forall p: nat :: ReadyQ(p) in k.lists <==> p < k.bits.Levels())
    && (forall q :: q in k.lists ==> k.lists[q] == [])
    && k.deletions == map[] && k.pending == Underway(multiset{}, multiset{}, multiset{})
  }

  /** While rtthread_startup starts threads. */
  ghost predicate Booting(k: State) {
    && Placement(k) && k.current !in k.tcbs && k.lockNest == 0 && k.deletions == map[]
    && forall u :: u in k.tcbs ==> k.tcbs[u].stat in {Init, Ready}
  }

  lemma StartOne(k: State, t: Tid)
    requires Booting(k) && t in k.tcbs && k.tcbs[t].stat == Init
    ensures ReadyQ(k.tcbs[t].initPrio) in k.lists && (k.bits.TwoLevel? ==> k.tcbs[t].initPrio / 8 < |k.bits.table|)
    ensures var k1 := Startup(k, t);
      && Booting(k1) && k1.tcbs.Keys == k.tcbs.Keys && (forall u :: u in k.tcbs && u != t ==> k1.tcbs[u] == k.tcbs[u])
      && k1.tcbs[t].stat == Ready && k1.tcbs[t].prio == k.tcbs[t].initPrio
  {
    hide Placement, Startup;
    StartupPlacement(k, t);
    StartupCalls(k, t);
  }

  lemma StartupCalls(k: State, t: Tid)
    requires t in k.tcbs && ReadyQ(k.tcbs[t].initPrio) in k.lists
    requires k.bits.TwoLevel? ==> k.tcbs[t].initPrio / 8 < |k.bits.table|
    ensures Startup(k, t).deletions == k.deletions
  {
  }

  /** The threads ts are started, one after the other. */
  ghost function StartAll(k: State, ts: seq<Tid>): State
    requires Booting(k) && NoDup(ts) && forall t :: t in ts ==> t in k.tcbs && k.tcbs[t].stat == Init
    decreases |ts|
  {
    hide Booting, Startup;
    if ts == [] then k
    else
      StartOne(k, ts[0]);
      FirstApart(ts);
      StartAll(Startup(k, ts[0]), ts[1..])
  }

  lemma FirstApart(ts: seq<Tid>)
    requires NoDup(ts) && ts != []
    ensures ts[0] !in ts[1..] && NoDup(ts[1..]) && forall u :: u in ts <==> u == ts[0] || u in ts[1..]
  {
  }

  lemma {:induction false} StartAllReady(k: State, ts: seq<Tid>)
    requires Booting(k) && NoDup(ts) && forall t :: t in ts ==> t in k.tcbs && k.tcbs[t].stat == Init
    ensures var k1 := StartAll(k, ts);
      && Booting(k1) && k1.tcbs.Keys == k.tcbs.Keys
      && (forall u :: u in ts ==> u in k1.tcbs && k1.tcbs[u].stat == Ready && k1.tcbs[u].prio == k.tcbs[u].initPrio)
      && (forall u :: u in k.tcbs && u !in ts ==> k1.tcbs[u] == k.tcbs[u])
    decreases |ts|
  {
    hide Booting, Startup;
    if ts != [] {
      StartOne(k, ts[0]);
      FirstApart(ts);
      StartAllReady(Startup(k, ts[0]), ts[1..]);
    }
  }

  /** _get_highest_priority_thread */
  ghost function Front(k: State): (t: Tid)
    requires Placement(k) && k.bits.group != 0
    ensures t in k.tcbs && k.tcbs[t].stat == Ready && k.tcbs[t].prio == HighestOf(k)
  {
    HighestKnown(k);
    FrontReady(k, HighestOf(k));
    k.lists[ReadyQ(HighestOf(k))][0]
  }

  lemma FrontReady(k: State, p: nat)
    requires Placement(k) && ReadyQ(p) in k.lists && k.lists[ReadyQ(p)] != []
    ensures var t := k.lists[ReadyQ(p)][0]; t in k.tcbs && k.tcbs[t].stat == Ready && k.tcbs[t].prio == p
  {
    assert Placed(k, k.lists[ReadyQ(p)][0]);
  }

  /** rt_system_scheduler_start */
  ghost function FirstSwitch(k: State): State
    requires Booting(k) && k.bits.group != 0
  {
    var to := Front(k);
    ReadyKnown(k, to);
    var k1 := k.(current := to);
    SetTcb(RemoveThread(k1, to), to, k1.tcbs[to].(stat := Running))
  }

  lemma BareBoots(k: State)
    requires Bare(k)
    ensures Booting(k)
  {
    k.bits.HighestIsLeastMarked();
  }

  /** The threads ts, one of them at least, were started from a bare kernel, and then the scheduler was. */
  ghost predicate BootedFrom(k0: State, ts: seq<Tid>, k: State) {
    && Bare(k0) && ts != [] && NoDup(ts) && (forall t :: t in ts ==> t in k0.tcbs)
    && Booting(k0) && Booting(StartAll(k0, ts)) && StartAll(k0, ts).bits.group != 0 && k == FirstSwitch(StartAll(k0, ts))
  }

  ghost predicate Booted(k: State) {
    exists k0, ts :: BootedFrom(k0, ts, k)
  }

  /** From any bare kernel and any threads the boot goes through: there is a thread to switch to. */
  lemma BootGoesThrough(k0: State, ts: seq<Tid>)
    requires Bare(k0) && ts != [] && NoDup(ts) && forall t :: t in ts ==> t in k0.tcbs
    ensures Booting(k0) && Booting(StartAll(k0, ts)) && StartAll(k0, ts).bits.group != 0
    ensures Booted(FirstSwitch(StartAll(k0, ts)))
  {
    BareBoots(k0);
    StartAllReady(k0, ts);
    var k := StartAll(k0, ts);
    SomethingReady(k, ts[0]);
    assert BootedFrom(k0, ts, FirstSwitch(k));
  }

  lemma SomethingReady(k: State, t: Tid)
    requires Placement(k) && t in k.tcbs && k.tcbs[t].stat == Ready && t !in k.deletions
    ensures k.bits.group != 0
  {
    assert Placed(k, t);
    assert k.bits.Marked(k.tcbs[t].prio);
    k.bits.HighestIsLeastMarked();
  }

  /** The scheduler starts with a most urgent one of the threads started before it, and in order. */
  lemma BootedInv(k0: State, ts: seq<Tid>, k: State)
    requires BootedFrom(k0, ts, k)
    ensures Inv(k) && k.current in ts && k.tcbs[k.current].stat == Running
    ensures forall t :: t in ts ==> t in k0.tcbs && k0.tcbs[k.current].initPrio <= k0.tcbs[t].initPrio
    ensures forall t :: t in ts && t != k.current ==> t in k.tcbs && k.tcbs[t].stat == Ready
    ensures forall t :: t in k0.tcbs && t !in ts ==> t in k.tcbs && k.tcbs[t].stat == Init
  {
    hide Inv, Placement, FirstSwitch, StartAll, Front;
    BareInit(k0);
    hide Bare;
    StartAllReady(k0, ts);
    var k1 := StartAll(k0, ts);
    FirstSwitchInv(k1);
    hide Booting;
    forall t | t in ts ensures k0.tcbs[Front(k1)].initPrio <= k0.tcbs[t].initPrio { MoreUrgent(k1, t); }
  }

  lemma BareInit(k: State)
    requires Bare(k)
    ensures forall t :: t in k.tcbs ==> k.tcbs[t].stat == Init
  {
  }

  /** Every READY thread is at most as urgent as the first of the highest queue. */
  lemma MoreUrgent(k: State, t: Tid)
    requires Booting(k) && k.bits.group != 0 && t in k.tcbs && k.tcbs[t].stat == Ready
    ensures HighestOf(k) <= k.tcbs[t].prio
  {
    HighestKnown(k);
    assert Placed(k, t);
  }

  lemma FirstSwitchInv(k: State)
    requires Booting(k) && k.bits.group != 0
    ensures var to, k1 := Front(k), FirstSwitch(k);
      Inv(k1) && k1.current == to && k1.tcbs == k.tcbs[to := k.tcbs[to].(stat := Running)]
  {
    hide Inv, Front, Placed, Lists, BitmapExact, Priorities;
    var to := Front(k);
    FirstCurrent(k, to);
    ReadyKnown(k, to);
    hide Placement;
    RunCurrentInv(k.(current := to), to);
  }

  lemma FirstCurrent(k: State, to: Tid)
    requires Booting(k) && to in k.tcbs && k.tcbs[to].stat == Ready
    ensures Placement(k.(current := to))
  {
    var k1 := k.(current := to);
    assert Lists(k1) && Priorities(k1) && BitmapExact(k1);
    forall u | u in k1.tcbs ensures Placed(k1, u) { assert Placed(k, u); }
  }

  /** In every state of every run: a priority bit, in either bitmap form, is set iff its queue is non-empty; a
      thread is READY iff it is in the queue of its current priority, except that a thread under deletion may be READY
      off its queue; no thread is on two lists; the current thread is on no ready queue; and an active thread timer
      belongs to a suspended thread. */
  lemma ReadyQueuesInEveryRun(ks: seq<State>, steps: seq<Step>, i: nat, u: Tid)
    requires Run(ks, steps) && Booted(ks[0]) && i < |ks| && u in ks[i].tcbs
    ensures var k := ks[i];
      && Inv(k)
      && (forall p: nat :: p < k.bits.Levels() ==> ReadyQ(p) in k.lists && (k.bits.Marked(p) <==> k.lists[ReadyQ(p)] != []))
      && (k.tcbs[u].stat == Ready && u !in k.deletions ==> u in k.lists[ReadyQ(k.tcbs[u].prio)])
      && (forall p: nat :: ReadyQ(p) in k.lists && u in k.lists[ReadyQ(p)] ==> k.tcbs[u].stat == Ready && k.tcbs[u].prio == p)
      && (forall q, r :: q in k.lists && r in k.lists && u in k.lists[q] && u in k.lists[r] ==> q == r)
      && (forall p: nat :: p < k.bits.Levels() ==> k.current !in k.lists[ReadyQ(p)])
      && (k.tcbs[u].timerOn ==> k.tcbs[u].stat == Suspend)
  {
    hide Inv, Apply, Enabled, Run, BootedFrom;
    var k0, ts :| BootedFrom(k0, ts, ks[0]);
    BootedInv(k0, ts, ks[0]);
    RunInv(ks, steps, i);
    InvPlaces(ks[i], u);
    InvCurrent(ks[i]);
    QueuesAt(ks[i], u);
    hide Placed;
  }

  lemma QueuesAt(k: State, u: Tid)
    requires Base(k) && u in k.tcbs && Placed(k, u) && k.current in k.tcbs && Placed(k, k.current) && k.tcbs[k.current].stat != Ready
    ensures forall p: nat :: p < k.bits.Levels() ==> ReadyQ(p) in k.lists && (k.bits.Marked(p) <==> k.lists[ReadyQ(p)] != [])
    ensures k.tcbs[u].stat == Ready && u !in k.deletions ==> ReadyQ(k.tcbs[u].prio) in k.lists && u in k.lists[ReadyQ(k.tcbs[u].prio)]
    ensures forall p: nat :: ReadyQ(p) in k.lists && u in k.lists[ReadyQ(p)] ==> k.tcbs[u].stat == Ready && k.tcbs[u].prio == p
    ensures forall q, r :: q in k.lists && r in k.lists && u in k.lists[q] && u in k.lists[r] ==> q == r
    ensures forall p: nat :: p < k.bits.Levels() ==> k.current !in k.lists[ReadyQ(p)]
    ensures k.tcbs[u].timerOn ==> k.tcbs[u].stat == Suspend
  {
  }

  // ---------- the choice rt_schedule makes ----------

  /** The first non-empty ready queue at or below priority p, by a search that uses no bitmap. */
  ghost function LinearHighest(k: State, p: nat): nat
    requires Base(k) && p <= k.bits.Levels()
    decreases k.bits.Levels() - p
  {
    if p == k.bits.Levels() || k.lists[ReadyQ(p)] != [] then p else LinearHighest(k, p + 1)
  }

  lemma LinearFinds(k: State, p: nat, h: nat)
    requires Base(k) && p <= h < k.bits.Levels() && k.lists[ReadyQ(h)] != []
    requires forall q: nat :: p <= q < h ==> k.lists[ReadyQ(q)] == []
    ensures LinearHighest(k, p) == h
    decreases h - p
  {
  }

  /** Bitmap plus __rt_ffs equals a linear search of the priority table. */
  lemma BitmapEqualsLinearSearch(k: State)
    requires Base(k)
    ensures k.bits.group == 0 ==> LinearHighest(k, 0) == k.bits.Levels()
    ensures k.bits.group != 0 ==> HighestOf(k) == LinearHighest(k, 0)
  {
    if k.bits.group != 0 {
      HighestKnown(k);
      LinearFinds(k, 0, HighestOf(k));
    } else {
      k.bits.HighestIsLeastMarked();
      NothingReady(k, 0);
    }
  }

  lemma NothingReady(k: State, p: nat)
    requires Base(k) && p <= k.bits.Levels() && k.bits.group == 0
    ensures LinearHighest(k, p) == k.bits.Levels()
    decreases k.bits.Levels() - p
  {
    k.bits.HighestIsLeastMarked();
    if p < k.bits.Levels() { assert !k.bits.Marked(p); NothingReady(k, p + 1); }
  }

  /** The threads rt_schedule chooses from; a thread under deletion is READY for it only if something queued it again. */
  ghost predicate Candidate(k: State, t: Tid) {
    t in k.tcbs && match k.tcbs[t].stat
                   case Ready => t in k.deletions ==> ReadyQ(k.tcbs[t].prio) in k.lists && t in k.lists[ReadyQ(k.tcbs[t].prio)]
                   case Running => t == k.current
                   case _ => false
  }

  /** The thread rt_schedule leaves current. */
  ghost function Choice(k: State): Tid
    requires Inv(k)
  {
    if k.lockNest != 0 || k.bits.group == 0 then k.current
    else
      HighestKnown(k);
      var c := k.tcbs[k.current];
      if c.stat == Running && c.prio < HighestOf(k) then k.current else k.lists[ReadyQ(HighestOf(k))][0]
  }

  /** The full effect of rt_schedule on the threads. */
  ghost predicate Scheduled(k: State, k1: State, to: Tid)
    requires k.current in k.tcbs && to in k.tcbs
  {
    var from := k.current;
    && k1.current == to && k1.lockNest == k.lockNest && k1.lists.Keys == k.lists.Keys
    && (to != from ==> k.tcbs[to].stat == Ready)
    && k1.tcbs == (if to == from then k.tcbs
                   else k.tcbs[from := k.tcbs[from].(stat := if k.tcbs[from].stat == Running then Ready else k.tcbs[from].stat)]
                              [to := k.tcbs[to].(stat := Running)])
    && forall w :: WaitQ(w) in k.lists ==> k1.lists[WaitQ(w)] == k.lists[WaitQ(w)]
  }

  lemma ScheduleEffect(k: State)
    requires Inv(k)
    ensures Choice(k) in k.tcbs && Scheduled(k, Schedule(k), Choice(k))
  {
    assert Placed(k, k.current);
    if k.lockNest == 0 && k.bits.group != 0 {
      HighestKnown(k);
      FrontIsReady(k, HighestOf(k));
      var to := k.lists[ReadyQ(HighestOf(k))][0];
      assert Placed(k, to);
      assert forall w :: WaitQ(w) in k.lists ==> to !in k.lists[WaitQ(w)] && (k.tcbs[k.current].stat == Running ==> k.current !in k.lists[WaitQ(w)]);
      if Choice(k) == k.current {
        ReadyKnown(k, k.current);
        KeepEffect(k);
      } else {
        SwitchToInv(k, to);
        SwitchEffect(k, to);
      }
    }
  }

  lemma KeepEffect(k: State)
    requires Known(k, k.current) && k.tcbs[k.current].stat == Running
    requires forall w :: WaitQ(w) in k.lists ==> k.current !in k.lists[WaitQ(w)]
    ensures Scheduled(k, SetTcb(RemoveThread(k, k.current), k.current, k.tcbs[k.current].(stat := Running)), k.current)
  {
    assert k.tcbs[k.current := k.tcbs[k.current]] == k.tcbs;
  }

  lemma SwitchEffect(k: State, to: Tid)
    requires Known(k, to) && to != k.current && k.current in k.tcbs && k.tcbs[to].stat == Ready
    requires k.tcbs[k.current].stat == Running ==> Known(k, k.current)
    requires forall w :: WaitQ(w) in k.lists ==> to !in k.lists[WaitQ(w)]
    ensures Scheduled(k, SwitchTo(k, to), to)
  {
    hide Known;
    SwitchLists(k, to);
    SwitchTcbs(k, to);
    hide SwitchTo;
  }

  lemma SwitchLists(k: State, to: Tid)
    requires Known(k, to) && to != k.current && k.current in k.tcbs && (k.tcbs[k.current].stat == Running ==> Known(k, k.current))
    requires forall w :: WaitQ(w) in k.lists ==> to !in k.lists[WaitQ(w)]
    ensures var k1 := SwitchTo(k, to); k1.lists.Keys == k.lists.Keys && forall w :: WaitQ(w) in k.lists ==> k1.lists[WaitQ(w)] == k.lists[WaitQ(w)]
  {
  }

  lemma SwitchTcbs(k: State, to: Tid)
    requires Known(k, to) && to != k.current && k.current in k.tcbs && (k.tcbs[k.current].stat == Running ==> Known(k, k.current))
    ensures var k1, from := SwitchTo(k, to), k.current;
      && k1.current == to && k1.lockNest == k.lockNest
      && k1.tcbs == k.tcbs[from := k.tcbs[from].(stat := if k.tcbs[from].stat == Running then Ready else k.tcbs[from].stat)]
                          [to := k.tcbs[to].(stat := Running)]
  {
    hide InsertThread, RemoveThread;
    var from := k.current;
    var k1 := k.(current := to);
    if k.tcbs[from].stat == Running {
      InsertedRecord(k1, from);
      RemovedRecord(InsertThread(k1, from), to);
    } else {
      RemovedRecord(k1, to);
      assert k.tcbs[from := k.tcbs[from].(stat := k.tcbs[from].stat)] == k.tcbs;
    }
  }

  lemma InsertedRecord(k: State, t: Tid)
    requires Known(k, t) && t != k.current
    ensures var k1 := InsertThread(k, t);
      && k1.tcbs == k.tcbs[t := k.tcbs[t].(stat := Ready)] && k1.current == k.current && k1.lockNest == k.lockNest
      && forall u :: u in k.tcbs && Known(k, u) ==> Known(k1, u)
  {
  }

  lemma RemovedRecord(k: State, t: Tid)
    requires Known(k, t)
    ensures var k1 := RemoveThread(k, t); k1.tcbs == k.tcbs && k1.current == k.current && k1.lockNest == k.lockNest
  {
  }

  /** With the scheduler unlocked, rt_schedule leaves running a most urgent candidate; among equals a READY thread
      is preferred to the one running, and the longest queued of them is taken. */
  lemma ScheduleRunsMostUrgent(k: State, t: Tid)
    requires Inv(k) && k.lockNest == 0 && Candidate(k, t)
    ensures var k1 := Schedule(k);
      && Candidate(k, k1.current) && k1.current in k1.tcbs && k1.tcbs[k1.current].stat == Running
      && k.tcbs[k1.current].prio <= k.tcbs[t].prio
      && (k1.current == k.current && t != k.current ==> k.tcbs[k1.current].prio < k.tcbs[t].prio)
      && (k1.current != k.current ==>
            var q := ReadyQ(k.tcbs[k1.current].prio);
            q in k.lists && k.lists[q] != [] && k.lists[q][0] == k1.current)
  {
    ScheduleEffect(k);
    ChoiceIsMostUrgent(k, t);
  }

  lemma ChoiceIsMostUrgent(k: State, t: Tid)
    requires Inv(k) && k.lockNest == 0 && Candidate(k, t)
    ensures var c := Choice(k);
      && Candidate(k, c) && k.tcbs[c].prio <= k.tcbs[t].prio
      && (c == k.current && t != k.current ==> k.tcbs[c].prio < k.tcbs[t].prio)
      && (c == k.current ==> k.tcbs[c].stat == Running)
      && (c != k.current ==> var q := ReadyQ(k.tcbs[c].prio); q in k.lists && k.lists[q] != [] && k.lists[q][0] == c)
  {
    assert Placed(k, t);
    if k.tcbs[t].stat == Ready { assert k.bits.Marked(k.tcbs[t].prio); }
    if k.bits.group == 0 {
      k.bits.HighestIsLeastMarked();
    } else {
      HighestKnown(k);
      FrontIsReady(k, HighestOf(k));
    }
  }

  // ---------- round robin ----------

  /** k with the ring of equally urgent threads turned so that ring[0] runs and the rest queue in order. */
  ghost function Turned(k: State, ring: seq<Tid>, p: nat): State
    requires ring != []
  {
    k.(current := ring[0],
       lists := k.lists[ReadyQ(p) := ring[1..]],
       tcbs := map t | t in k.tcbs ::
         if t == ring[0] then k.tcbs[t].(stat := Running)
         else if t in ring then k.tcbs[t].(stat := Ready) else k.tcbs[t])
  }

  ghost function Times(k: State, n: nat): State
    requires Inv(k)
    ensures Inv(Times(k, n))
  {
    if n == 0 then k else ScheduleInv(Times(k, n - 1)); Schedule(Times(k, n - 1))
  }

  /** The running thread and the READY threads of its priority, which is the most urgent there is. */
  ghost predicate Ring(k: State, ring: seq<Tid>, p: nat) {
    && Inv(k) && k.lockNest == 0 && p < k.bits.Levels() && ring != []
    && k.tcbs[k.current].stat == Running && k.tcbs[k.current].prio == p
    && ring == [k.current] + k.lists[ReadyQ(p)]
    && forall q: nat :: q < p ==> k.lists[ReadyQ(q)] == []
  }

  lemma TurnNothing(k: State, ring: seq<Tid>, p: nat)
    requires Ring(k, ring, p)
    ensures Turned(k, ring, p) == k
  {
    hide Base, BitmapExact, Priorities;
    InvTables(k);
    assert ring[1..] == k.lists[ReadyQ(p)];
    forall t | t in k.tcbs && t in ring ensures k.tcbs[t].stat == if t == ring[0] then Running else Ready {
      assert Placed(k, t);
    }
  }

  lemma RingMember(k: State, ring: seq<Tid>, p: nat, t: Tid)
    requires Ring(k, ring, p) && t in ring
    ensures t in k.tcbs && k.tcbs[t].prio == p
  {
    if t != k.current { assert t in k.lists[ReadyQ(p)] && Placed(k, t); }
  }

  lemma RingTurned(k: State, ring: seq<Tid>, ring1: seq<Tid>, p: nat)
    requires Ring(k, ring, p) && ring1 != [] && forall t :: t in ring1 <==> t in ring
    requires Inv(Turned(k, ring1, p))
    ensures Ring(Turned(k, ring1, p), ring1, p)
  {
    hide Inv;
    InvCurrent(k);
    var k1 := Turned(k, ring1, p);
    assert ring1[0] in ring && (ring1[0] == k.current || ring1[0] in k.lists[ReadyQ(p)]);
    RingMember(k, ring, p, ring1[0]);
    InvPlaces(k, ring1[0]);
    assert ring1 == [ring1[0]] + ring1[1..];
  }

  /** One rt_schedule turns the ring by one. */
  lemma ScheduleTurns(k: State, ring: seq<Tid>, p: nat)
    requires Ring(k, ring, p)
    ensures var ring1 := ring[1..] + [ring[0]]; Schedule(k) == Turned(k, ring1, p) && Ring(Schedule(k), ring1, p)
  {
    var ring1 := ring[1..] + [ring[0]];
    if |ring| == 1 {
      AloneInRing(k, ring, p);
      TurnNothing(k, ring, p);
      assert ring1 == ring;
    } else {
      NotAlone(k, ring, p);
    }
    ScheduleInv(k);
    assert forall t :: t in ring1 <==> t in ring by { assert ring == [ring[0]] + ring[1..]; }
    RingTurned(k, ring, ring1, p);
  }

  /** The running thread is on no list, so taking it off changes nothing. */
  lemma RemoveRunning(k: State)
    requires Inv(k) && k.tcbs[k.current].stat == Running && k.lists[ReadyQ(k.tcbs[k.current].prio)] == []
    ensures Known(k, k.current) && RemoveThread(k, k.current) == k
  {
    hide Placement;
    InvCurrent(k);
    ReadyKnown(k, k.current);
    assert Unlink(k, k.current).lists == k.lists;
    k.bits.NoChange(k.tcbs[k.current].prio);
  }

  lemma LessUrgent(k: State, ring: seq<Tid>, p: nat)
    requires Ring(k, ring, p) && |ring| == 1 && k.bits.group != 0
    ensures Base(k) && HighestOf(k) > p
  {
    hide Placement;
    InvCurrent(k);
    HighestKnown(k);
    assert k.lists[ReadyQ(HighestOf(k))] != [];
    hide HighestOf;
  }

  lemma AloneInRing(k: State, ring: seq<Tid>, p: nat)
    requires Ring(k, ring, p) && |ring| == 1
    ensures Schedule(k) == k
  {
    if k.bits.group != 0 {
      LessUrgent(k, ring, p);
      RemoveRunning(k);
      hide Inv, Base, RemoveThread, SwitchTo, HighestOf;
      assert k.tcbs[k.current := k.tcbs[k.current]] == k.tcbs;
    }
  }

  lemma NotAlone(k: State, ring: seq<Tid>, p: nat)
    requires Ring(k, ring, p) && |ring| > 1
    ensures Schedule(k) == Turned(k, ring[1..] + [ring[0]], p)
  {
    var to, q := ring[1], k.lists[ReadyQ(p)];
    hide Inv, Schedule, SwitchTo, Placed, Priorities, BitmapExact;
    InvCurrent(k);
    assert q == ring[1..] && q[0] == to;
    ScheduleSwitches(k, p, q);
    MarkedAlready(k, p);
    NoDupCurrent(k, p);
    SwitchInRing(k, p, q);
    WaitsNowhere(k, to);
    SwitchEffect(k, to);
    TurnedTcbs(k, SwitchTo(k, to), ring, p);
    SwitchRest(k, to);
    hide Base;
    TurnedTail(ring);
  }

  lemma TurnedTail(ring: seq<Tid>)
    requires |ring| > 1
    ensures (ring[1..] + [ring[0]])[1..] == ring[1..][1..] + [ring[0]]
  {
  }

  lemma NoDupCurrent(k: State, p: nat)
    requires Inv(k) && ReadyQ(p) in k.lists
    ensures NoDup(k.lists[ReadyQ(p)]) && k.current !in k.lists[ReadyQ(p)]
  {
    InvPlaces(k, k.current);
  }

  lemma WaitsNowhere(k: State, t: Tid)
    requires Inv(k) && t in k.tcbs && k.tcbs[t].stat != Suspend
    ensures forall w :: WaitQ(w) in k.lists ==> t !in k.lists[WaitQ(w)]
  {
    InvPlaces(k, t);
  }

  lemma SwitchRest(k: State, to: Tid)
    requires Known(k, to) && to != k.current && k.current in k.tcbs && (k.tcbs[k.current].stat == Running ==> Known(k, k.current))
    ensures SwitchTo(k, to).deletions == k.deletions && SwitchTo(k, to).pending == k.pending
  {
    hide Without;
  }

  lemma MarkedAlready(k: State, p: nat)
    requires Base(k) && p < k.bits.Levels() && k.lists[ReadyQ(p)] != []
    ensures k.bits.Mark(k.bits.AttrOf(p)) == k.bits
  {
    k.bits.NoChange(p);
    assert k.bits.Marked(p);
  }

  lemma ScheduleSwitches(k: State, p: nat, q: seq<Tid>)
    requires Inv(k) && k.lockNest == 0 && p < k.bits.Levels() && q == k.lists[ReadyQ(p)] && q != []
    requires k.tcbs[k.current].stat == Running && k.tcbs[k.current].prio == p
    requires forall r: nat :: r < p ==> k.lists[ReadyQ(r)] == []
    ensures q[0] in k.tcbs && k.tcbs[q[0]].stat == Ready && k.tcbs[q[0]].prio == p && q[0] != k.current
    ensures Known(k, q[0]) && Known(k, k.current) && Schedule(k) == SwitchTo(k, q[0])
    ensures forall r :: r in k.lists && r != ReadyQ(p) ==> q[0] !in k.lists[r]
  {
    hide Inv;
    InvCurrent(k);
    FrontIsReady(k, p);
    InvPlaces(k, q[0]);
    LinearFinds(k, 0, p);
    BitmapEqualsLinearSearch(k);
    ReadyKnown(k, k.current);
    ReadyKnown(k, q[0]);
  }

  lemma TurnedTcbs(k: State, k1: State, ring: seq<Tid>, p: nat)
    requires Ring(k, ring, p) && |ring| > 1 && ring[1] in k.tcbs && ring[1] != ring[0] && Scheduled(k, k1, ring[1])
    ensures k1.tcbs == Turned(k, ring[1..] + [ring[0]], p).tcbs
  {
    hide Inv;
    InvTables(k);
    InvCurrent(k);
    hide Lists, Base;
    forall t | t in ring && t != ring[0] ensures t in k.tcbs && k.tcbs[t].stat == Ready { QueuedReady(k, p, t); }
    assert forall t :: t in ring[1..] + [ring[0]] <==> t in ring by { assert ring == [ring[0]] + ring[1..]; }
  }

  lemma QueuedReady(k: State, p: nat, t: Tid)
    requires Inv(k) && ReadyQ(p) in k.lists && t in k.lists[ReadyQ(p)]
    ensures t in k.tcbs && k.tcbs[t].stat == Ready
  {
    InvTables(k);
    InvPlaces(k, t);
  }

  lemma SwitchInRing(k: State, p: nat, q: seq<Tid>)
    requires q != [] && Known(k, q[0]) && Known(k, k.current) && q[0] != k.current && NoDup(q) && k.current !in q
    requires ReadyQ(p) in k.lists && q == k.lists[ReadyQ(p)] && k.tcbs[k.current].stat == Running
    requires k.tcbs[k.current].prio == p && k.tcbs[q[0]].prio == p
    requires k.bits.Mark(k.tcbs[k.current].attr) == k.bits
    requires forall r :: r in k.lists && r != ReadyQ(p) ==> q[0] !in k.lists[r]
    ensures var k1 := SwitchTo(k, q[0]); k1.lists == k.lists[ReadyQ(p) := q[1..] + [k.current]] && k1.bits == k.bits
  {
    var from, to := k.current, q[0];
    var k2 := InsertThread(k.(current := to), from);
    assert k2.lists[ReadyQ(p)] == q + [from] && k2.bits == k.bits;
    WithoutFirst(q);
    WithoutConcat(q, [from], to);
    assert Without([from], to) == [from];
    assert Unlink(k2, to).lists == k.lists[ReadyQ(p) := q[1..] + [from]];
  }

  /** Turning twice is turning to the last arrangement. */
  lemma TurnedTwice(k: State, r1: seq<Tid>, r2: seq<Tid>, p: nat)
    requires r1 != [] && r2 != [] && forall t :: t in r1 <==> t in r2
    ensures Turned(Turned(k, r1, p), r2, p) == Turned(k, r2, p)
  {
    assert Turned(Turned(k, r1, p), r2, p).tcbs == Turned(k, r2, p).tcbs;
  }

  /** The ring after n turns. */
  function Rotate(ring: seq<Tid>, n: nat): seq<Tid>
    requires n <= |ring|
  {
    ring[n..] + ring[..n]
  }

  lemma RotateStep(ring: seq<Tid>, n: nat)
    requires 0 < n <= |ring|
    ensures var r0 := Rotate(ring, n - 1); r0 != [] && r0[1..] + [r0[0]] == Rotate(ring, n)
  {
  }

  lemma {:induction false} TimesTurns(k: State, ring: seq<Tid>, p: nat, n: nat)
    requires Inv(k) && Ring(k, ring, p) && n <= |ring|
    ensures Rotate(ring, n) != [] && Ring(Times(k, n), Rotate(ring, n), p) && Times(k, n) == Turned(k, Rotate(ring, n), p)
  {
    if n == 0 {
      assert Rotate(ring, 0) == ring;
      TurnNothing(k, ring, p);
    } else {
      hide Inv, Turned, Ring, Rotate;
      TimesTurns(k, ring, p, n - 1);
      RotateStep(ring, n);
      TurnStep(k, Times(k, n - 1), Rotate(ring, n - 1), p);
    }
  }

  lemma TurnStep(k: State, k1: State, r0: seq<Tid>, p: nat)
    requires Ring(k1, r0, p) && k1 == Turned(k, r0, p)
    ensures var r := r0[1..] + [r0[0]]; Ring(Schedule(k1), r, p) && Schedule(k1) == Turned(k, r, p)
  {
    var r := r0[1..] + [r0[0]];
    ScheduleTurns(k1, r0, p);
    assert forall t :: t in r0 <==> t in r by { assert r0 == [r0[0]] + r0[1..]; }
    TurnedTwice(k, r0, r, p);
  }

  /** k equally urgent threads take turns: after i calls the i-th of them runs, and after k calls the running
      thread, the queue order and everything else are as they were. */
  lemma RoundRobin(k: State, ring: seq<Tid>, p: nat, i: nat)
    requires Ring(k, ring, p) && i <= |ring|
    ensures i < |ring| ==> Times(k, i).current == ring[i]
    ensures Times(k, |ring|) == k
  {
    TimesTurns(k, ring, p, i);
    TimesTurns(k, ring, p, |ring|);
    assert Rotate(ring, |ring|) == ring;
    TurnNothing(k, ring, p);
  }
}
