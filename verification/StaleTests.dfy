/** rt_thread_resume (rt-thread/src/thread.c:706-740) and rt_thread_suspend (thread.c:658-695) test thread->stat before
    they disable interrupts. Exactly when the region that follows still does what it should, for any state it finds and
    over any run since the test, and what happens when it does not. */
module StaleTests {
  import opened Seqs
  import opened Events
  import opened ReadyBitmap
  import opened KernelSpec
  import opened KernelRuns
  import opened ThreadSteps
  import opened ThreadCalls

  // ---------- the region of rt_thread_resume, from any state ----------

  /** Whatever has become of the thread since the test, the first region of rt_thread_resume keeps the kernel in order
      iff the thread is in no ready queue, or is under deletion and not alone there. */
  lemma ResumeUnlinkIff(k: State, t: Tid)
    requires Inv(k) && t in k.tcbs
    ensures Inv(ResumeUnlink(k, t)) <==> Takeable(k, t)
  {
    hide Inv, Takeable, ResumeUnlink;
    if Takeable(k, t) { ResumeUnlinkInv(k, t); } else { TakenAstray(k, t); }
  }

  lemma TakenAstray(k: State, t: Tid)
    requires Inv(k) && t in k.tcbs && !Takeable(k, t)
    ensures !Inv(ResumeUnlink(k, t))
  {
    hide Inv;
    var p: nat :| ReadyQ(p) in k.lists && t in k.lists[ReadyQ(p)] && !(t in k.deletions && |k.lists[ReadyQ(p)]| > 1);
    InvPlaces(k, t);
    var k1 := ResumeUnlink(k, t);
    if t !in k.deletions { ReadyAstray(k1, t); } else { MarkedAstray(k1, p); }
  }

  lemma ReadyAstray(k: State, t: Tid)
    requires t in k.tcbs && k.tcbs[t].stat == Ready && t !in k.deletions && Off(k, t)
    ensures !Inv(k)
  {
  }

  lemma MarkedAstray(k: State, p: nat)
    requires p < k.bits.Levels() && k.bits.Valid() && k.bits.Marked(p) && ReadyQ(p) in k.lists && k.lists[ReadyQ(p)] == []
    ensures !Inv(k)
  {
  }

  // ---------- the region of rt_thread_suspend, from any state ----------

  /** The invariant is kept, a thread that has ended stays so, and nobody is taken off a wait list. */
  ghost predicate SuspendsWell(k: State, k1: State, t: Tid)
    requires t in k.tcbs
  {
    && Inv(k1) && t in k1.tcbs && (k.tcbs[t].stat == Close ==> k1.tcbs[t].stat == Close)
    && forall w :: WaitQ(w) in k.lists ==> WaitQ(w) in k1.lists && k1.lists[WaitQ(w)] == k.lists[WaitQ(w)]
  }

  /** Suspended on some wait list. */
  ghost predicate OnWaitList(k: State, t: Tid)
    requires t in k.tcbs
  {
    k.tcbs[t].stat == Suspend && !Off(k, t)
  }

  /** Whatever has become of the thread since the test, the region of rt_thread_suspend ends well iff the thread is on
      no wait list and has not been closed. */
  lemma SuspendTakeIff(k: State, t: Tid)
    requires Inv(k) && Known(k, t) && k.tcbs[t].stat != Init
    ensures SuspendsWell(k, SuspendTake(k, t), t) <==> k.tcbs[t].stat != Close && !OnWaitList(k, t)
  {
    hide Inv, RemoveThread, Off, Loose;
    SuspendTakeEffect(k, t);
    WaitListOf(k, t);
    if k.tcbs[t].stat != Close { SuspendTakeInv(k, t); }
    hide SuspendTake;
  }

  lemma WaitListOf(k: State, t: Tid)
    requires Inv(k) && t in k.tcbs
    ensures OnWaitList(k, t) <==> exists w :: WaitQ(w) in k.lists && t in k.lists[WaitQ(w)]
  {
    hide Base;
    InvPlaces(k, t);
    if OnWaitList(k, t) {
      var q :| q in k.lists && t in k.lists[q];
      assert Fits(k.tcbs[t], q);
      assert WaitQ(q.wid) in k.lists;
    }
  }

  // ---------- over whole runs ----------

  ghost predicate OnReadyQueue(k: State, t: Tid)
    requires t in k.tcbs
  {
    k.tcbs[t].stat == Ready && !Off(k, t)
  }

  /** The steps after which thread t is in a ready queue whatever it was in before. */
  ghost predicate Queues(k: State, s: Step, t: Tid)
    requires Inv(k) && t in k.tcbs
  {
    match s
    case DoTimeout(u) => u == t && t != k.current
    case DoResume(u) => u == t && t != k.current
    case DoResumeInsert(u) => u == t && t != k.current
    case DoResumeAll(w) => t != k.current && WaitQ(w) in k.lists && t in k.lists[WaitQ(w)]
    case DoChangePriority(u, _) => u == t && k.tcbs[t].stat == Ready
    case DoSchedule => t == k.current && k.tcbs[t].stat == Running && Choice(k) != t
    case _ => false
  }

  /** The steps after which it is in none. */
  ghost predicate Unqueues(k: State, s: Step, t: Tid)
    requires Inv(k) && t in k.tcbs
  {
    match s
    case DoSuspend(u) => u == t
    case DoSuspendTake(u) => u == t
    case DoResumeUnlink(u) => u == t
    case DoDeleteRemove(u) => u == t
    case DoSchedule => t != k.current && Choice(k) == t
    case _ => false
  }

  lemma ReadyQueueStep(k: State, s: Step, t: Tid)
    requires Inv(k) && Enabled(k, s) && t in k.tcbs
    ensures t in Apply(k, s).tcbs
    ensures OnReadyQueue(Apply(k, s), t) <==> (OnReadyQueue(k, t) && !Unqueues(k, s, t)) || Queues(k, s, t)
    ensures !(Queues(k, s, t) && Unqueues(k, s, t))
  {
    hide Inv, Apply, Choice, Off, Takeable, Enabled, RecordAfter, Links, Unlinks, Queues, Unqueues;
    RecordStep(k, s, t);
    OffStep(k, s, t);
    if s.DoSchedule? { ScheduleQueues(k, t); } else { OtherQueues(k, s, t); }
  }

  lemma ScheduleQueues(k: State, t: Tid)
    requires Inv(k) && t in k.tcbs
    ensures var s := DoSchedule;
      (RecordAfter(k, s, t).stat == Ready && (!Off(k, t) || Links(k, s, t)) && !Unlinks(k, s, t))
      <==> (OnReadyQueue(k, t) && !Unqueues(k, s, t)) || Queues(k, s, t)
    ensures !(Queues(k, DoSchedule, t) && Unqueues(k, DoSchedule, t))
  {
    hide Inv, Choice, Off, Base;
    InvCurrent(k);
    ChoiceStarted(k);
  }

  lemma OtherQueues(k: State, s: Step, t: Tid)
    requires Inv(k) && Enabled(k, s) && t in k.tcbs && !s.DoSchedule?
    ensures (RecordAfter(k, s, t).stat == Ready && (!Off(k, t) || Links(k, s, t)) && !Unlinks(k, s, t))
      <==> (OnReadyQueue(k, t) && !Unqueues(k, s, t)) || Queues(k, s, t)
    ensures !(Queues(k, s, t) && Unqueues(k, s, t))
  {
    hide Inv, Choice, Off, Base, Takeable;
    InvPlaces(k, t);
    InvCurrent(k);
    hide Placed;
    if s.DoResumeAll? && t in k.lists[WaitQ(s.w)] { WaiterSuspended(k, s, t); }
  }

  lemma WaiterSuspended(k: State, s: Step, t: Tid)
    requires Inv(k) && t in k.tcbs && s.DoResumeAll? && WaitQ(s.w) in k.lists && t in k.lists[WaitQ(s.w)]
    ensures k.tcbs[t].stat == Suspend && !Off(k, t)
  {
    InvPlaces(k, t);
  }

  /** The steps that leave thread t on a wait list, and those that leave it on none. */
  ghost predicate Blocks(k: State, s: Step, t: Tid) {
    s.DoBlock? && t == k.current
  }

  ghost predicate Leaves(k: State, s: Step, t: Tid) {
    match s
    case DoTimeout(u) => u == t
    case DoResume(u) => u == t
    case DoResumeUnlink(u) => u == t
    case DoResumeAll(w) => WaitQ(w) in k.lists && t in k.lists[WaitQ(w)]
    case DoSuspendTake(u) => u == t
    case DoDeleteRemove(u) => u == t
    case _ => false
  }

  lemma WaitListStep(k: State, s: Step, t: Tid)
    requires Inv(k) && Enabled(k, s) && t in k.tcbs
    ensures t in Apply(k, s).tcbs
    ensures OnWaitList(Apply(k, s), t) <==> (OnWaitList(k, t) && !Leaves(k, s, t)) || Blocks(k, s, t)
    ensures !(Blocks(k, s, t) && Leaves(k, s, t))
  {
    hide Inv, Apply, Choice, Off, Takeable, Enabled, RecordAfter, Links, Unlinks, Blocks, Leaves;
    RecordStep(k, s, t);
    OffStep(k, s, t);
    if s.DoSchedule? { ScheduleWaits(k, t); } else { OtherWaits(k, s, t); }
  }

  lemma ScheduleWaits(k: State, t: Tid)
    requires Inv(k) && t in k.tcbs
    ensures var s := DoSchedule;
      (RecordAfter(k, s, t).stat == Suspend && (!Off(k, t) || Links(k, s, t)) && !Unlinks(k, s, t))
      <==> (OnWaitList(k, t) && !Leaves(k, s, t)) || Blocks(k, s, t)
    ensures !Leaves(k, DoSchedule, t)
  {
    hide Inv, Choice, Off, Base;
    InvCurrent(k);
    ChoiceStarted(k);
  }

  lemma OtherWaits(k: State, s: Step, t: Tid)
    requires Inv(k) && Enabled(k, s) && t in k.tcbs && !s.DoSchedule?
    ensures (RecordAfter(k, s, t).stat == Suspend && (!Off(k, t) || Links(k, s, t)) && !Unlinks(k, s, t))
      <==> (OnWaitList(k, t) && !Leaves(k, s, t)) || Blocks(k, s, t)
    ensures !(Blocks(k, s, t) && Leaves(k, s, t))
  {
    hide Inv, Choice, Off, Base, Takeable;
    InvPlaces(k, t);
    InvCurrent(k);
    if k.tcbs[t].stat in {Init, Running} { InitOff(k, t); }
    hide Placed;
    if s.DoResumeAll? && t in k.lists[WaitQ(s.w)] { WaiterSuspended(k, s, t); }
  }

  lemma InitOff(k: State, t: Tid)
    requires Inv(k) && t in k.tcbs && k.tcbs[t].stat in {Init, Running}
    ensures Off(k, t)
  {
    InvPlaces(k, t);
  }

  ghost function QueueEvents(ks: seq<State>, steps: seq<Step>, t: Tid): seq<bool>
    requires |ks| == |steps| + 1
  {
    seq(|steps|, m requires 0 <= m < |steps| => Inv(ks[m]) && t in ks[m].tcbs && Queues(ks[m], steps[m], t))
  }

  ghost function UnqueueEvents(ks: seq<State>, steps: seq<Step>, t: Tid): seq<bool>
    requires |ks| == |steps| + 1
  {
    seq(|steps|, m requires 0 <= m < |steps| => Inv(ks[m]) && t in ks[m].tcbs && Unqueues(ks[m], steps[m], t))
  }

  ghost function BlockEvents(ks: seq<State>, steps: seq<Step>, t: Tid): seq<bool>
    requires |ks| == |steps| + 1
  {
    seq(|steps|, m requires 0 <= m < |steps| => Blocks(ks[m], steps[m], t))
  }

  ghost function LeaveEvents(ks: seq<State>, steps: seq<Step>, t: Tid): seq<bool>
    requires |ks| == |steps| + 1
  {
    seq(|steps|, m requires 0 <= m < |steps| => Leaves(ks[m], steps[m], t))
  }

  lemma QueuedOverRun(ks: seq<State>, steps: seq<Step>, lo: nat, hi: nat, t: Tid)
    requires Run(ks, steps) && Inv(ks[0]) && lo <= hi < |ks| && t in ks[lo].tcbs && !OnReadyQueue(ks[lo], t)
    ensures t in ks[hi].tcbs
    ensures !OnReadyQueue(ks[hi], t) <==> Undone(QueueEvents(ks, steps, t), UnqueueEvents(ks, steps, t), lo, hi)
  {
    hide Steps, Inv, Enabled, Apply, Undone, OnReadyQueue, Queues, Unqueues;
    var up, down := QueueEvents(ks, steps, t), UnqueueEvents(ks, steps, t);
    var flag := seq(|ks|, m requires 0 <= m < |ks| => t in ks[m].tcbs && OnReadyQueue(ks[m], t));
    forall m: nat | lo <= m < hi
      ensures (flag[m + 1] <==> ((flag[m] && !down[m]) || up[m])) && !(up[m] && down[m])
    {
      ThreadStays(ks, steps, lo, m, t);
      RunStep(ks, steps, m, t);
      ReadyQueueStep(ks[m], steps[m], t);
    }
    ThreadStays(ks, steps, lo, hi, t);
    FlagUndone(flag, up, down, lo, hi);
  }

  lemma WaitingOverRun(ks: seq<State>, steps: seq<Step>, lo: nat, hi: nat, t: Tid)
    requires Run(ks, steps) && Inv(ks[0]) && lo <= hi < |ks| && t in ks[lo].tcbs && !OnWaitList(ks[lo], t)
    ensures t in ks[hi].tcbs
    ensures !OnWaitList(ks[hi], t) <==> Undone(BlockEvents(ks, steps, t), LeaveEvents(ks, steps, t), lo, hi)
  {
    hide Steps, Inv, Enabled, Apply, Undone, OnWaitList, Blocks, Leaves;
    var up, down := BlockEvents(ks, steps, t), LeaveEvents(ks, steps, t);
    var flag := seq(|ks|, m requires 0 <= m < |ks| => t in ks[m].tcbs && OnWaitList(ks[m], t));
    forall m: nat | lo <= m < hi
      ensures (flag[m + 1] <==> ((flag[m] && !down[m]) || up[m])) && !(up[m] && down[m])
    {
      ThreadStays(ks, steps, lo, m, t);
      RunStep(ks, steps, m, t);
      WaitListStep(ks[m], steps[m], t);
    }
    ThreadStays(ks, steps, lo, hi, t);
    FlagUndone(flag, up, down, lo, hi);
  }

  /** In any run, the first region of rt_thread_resume ends well iff everything that put the thread into a ready queue
      since its test was undone, unless the thread is under deletion and shares its queue. */
  lemma ResumeTestEndsWell(ks: seq<State>, steps: seq<Step>, i: nat, j: nat, t: Tid)
    requires Run(ks, steps) && Inv(ks[0]) && i < j <= |steps| && steps[i] == DoResumeTest(t)
    ensures t in ks[j].tcbs
    ensures Inv(ResumeUnlink(ks[j], t)) <==>
      || Undone(QueueEvents(ks, steps, t), UnqueueEvents(ks, steps, t), i + 1, j)
      || (t in ks[j].deletions && ReadyQ(ks[j].tcbs[t].prio) in ks[j].lists && |ks[j].lists[ReadyQ(ks[j].tcbs[t].prio)]| > 1)
  {
    hide Steps, Inv, Apply, Undone, ResumeUnlink, OnReadyQueue, QueueEvents, UnqueueEvents;
    RunInv(ks, steps, i);
    EnabledAt(ks, steps, i);
    RunStep(ks, steps, i, t);
    TestedForResume(ks[i], t);
    QueuedOverRun(ks, steps, i + 1, j, t);
    RunInv(ks, steps, j);
    ResumeUnlinkIff(ks[j], t);
    TakeableIff(ks[j], t);
  }

  lemma TestedForResume(k: State, t: Tid)
    requires Inv(k) && Enabled(k, DoResumeTest(t))
    ensures var k1 := Apply(k, DoResumeTest(t)); t in k1.tcbs && !OnReadyQueue(k1, t)
  {
    hide Inv;
  }

  lemma TakeableIff(k: State, t: Tid)
    requires Inv(k) && t in k.tcbs
    ensures Takeable(k, t) <==>
      || !OnReadyQueue(k, t)
      || (t in k.deletions && ReadyQ(k.tcbs[t].prio) in k.lists && |k.lists[ReadyQ(k.tcbs[t].prio)]| > 1)
  {
    hide Base;
    InvPlaces(k, t);
    if OnReadyQueue(k, t) {
      var q :| q in k.lists && t in k.lists[q];
      assert Fits(k.tcbs[t], q);
    }
  }

  /** In any run, the region of rt_thread_suspend ends well iff the thread has left every wait list it has come onto
      since the test, and has not been closed. */
  lemma SuspendTestEndsWell(ks: seq<State>, steps: seq<Step>, i: nat, j: nat, t: Tid)
    requires Run(ks, steps) && Inv(ks[0]) && i < j <= |steps| && steps[i] == DoSuspendTest(t)
    ensures t in ks[j].tcbs && (Started(ks[j].tcbs[t]) ==> Known(ks[j], t))
    ensures Known(ks[j], t) ==>
      (SuspendsWell(ks[j], SuspendTake(ks[j], t), t) <==>
        && Undone(BlockEvents(ks, steps, t), LeaveEvents(ks, steps, t), i + 1, j)
        && forall m :: i < m < j ==> !Closes(ks[m], steps[m], t))
  {
    hide Steps, Inv, Apply, Undone, SuspendTake, OnWaitList, BlockEvents, LeaveEvents, SuspendsWell, Closes;
    RunInv(ks, steps, i);
    EnabledAt(ks, steps, i);
    RunStep(ks, steps, i, t);
    TestedForSuspend(ks[i], t);
    WaitingOverRun(ks, steps, i + 1, j, t);
    ClosedOverRun(ks, steps, i + 1, j, t);
    RunInv(ks, steps, j);
    if Started(ks[j].tcbs[t]) { KnownStarted(ks[j], t); }
    if Known(ks[j], t) { SuspendTakeIff(ks[j], t); }
  }

  lemma TestedForSuspend(k: State, t: Tid)
    requires Inv(k) && Enabled(k, DoSuspendTest(t))
    ensures var k1 := Apply(k, DoSuspendTest(t)); t in k1.tcbs && Started(k1.tcbs[t]) && !OnWaitList(k1, t)
  {
    hide Inv;
  }

  /** A started thread is CLOSE later on iff some step has closed it; it is never INIT again. */
  lemma {:induction false} ClosedOverRun(ks: seq<State>, steps: seq<Step>, lo: nat, hi: nat, t: Tid)
    requires Run(ks, steps) && Inv(ks[0]) && lo <= hi < |ks| && t in ks[lo].tcbs && Started(ks[lo].tcbs[t])
    ensures t in ks[hi].tcbs && ks[hi].tcbs[t].stat != Init
    ensures ks[hi].tcbs[t].stat == Close <==> exists m :: lo <= m < hi && Closes(ks[m], steps[m], t)
  {
    hide Steps, Inv, Enabled, Apply, Closes;
    if lo < hi {
      ClosedOverRun(ks, steps, lo, hi - 1, t);
      RunStep(ks, steps, hi - 1, t);
      LifeFrames(ks[hi - 1], steps[hi - 1], t);
      if Closes(ks[hi - 1], steps[hi - 1], t) { ClosingStep(ks[hi - 1], steps[hi - 1], t); }
    }
  }

  lemma ClosingStep(k: State, s: Step, t: Tid)
    requires Inv(k) && Enabled(k, s) && t in k.tcbs && Closes(k, s, t)
    ensures var k1 := Apply(k, s); t in k1.tcbs && k1.tcbs[t].stat == Close
  {
    hide Inv, Apply, Choice, Loose;
    RecordStep(k, s, t);
  }

  // ---------- how the tests go stale ----------

  /** The test of rt_thread_resume, and a tick that ends the sleep before the region. */
  function TickSteps(t: Tid): seq<Step> {
    [DoResumeTest(t), DoTimeout(t)]
  }

  /** From any state with a suspended thread whose timer runs and whose ready queue is empty: the priority bit outlives
      the queue. */
  lemma TimeoutAfterTest(k: State, t: Tid)
    requires Inv(k) && t in k.tcbs && k.tcbs[t].timerOn && t != k.current && t !in k.deletions
    requires ReadyQ(k.tcbs[t].prio) in k.lists && k.lists[ReadyQ(k.tcbs[t].prio)] == []
    ensures exists ks: seq<State> :: Run(ks, TickSteps(t)) && ks[0] == k && t in ks[2].tcbs && BitOutlives(ResumeUnlink(ks[2], t), k.tcbs[t].prio)
  {
    hide Inv, Apply;
    var p := k.tcbs[t].prio;
    TestsSleeper(k, t);
    var k1 := Apply(k, DoResumeTest(t));
    WakesAlone(k1, t);
    var k2 := Apply(k1, DoTimeout(t));
    TakenAlone(k2, t);
    var ks := [k, k1, k2];
    hide BitOutlives, ResumeUnlink;
    assert Run(ks, TickSteps(t)) && ks[0] == k && t in ks[2].tcbs && BitOutlives(ResumeUnlink(ks[2], t), p);
  }

  ghost predicate BitOutlives(k: State, p: nat) {
    p < k.bits.Levels() && k.bits.Valid() && k.bits.Marked(p) && ReadyQ(p) in k.lists && k.lists[ReadyQ(p)] == [] && !Inv(k)
  }

  lemma TestsSleeper(k: State, t: Tid)
    requires Inv(k) && t in k.tcbs && (k.tcbs[t].timerOn || k.tcbs[t].stat == Suspend)
    ensures Enabled(k, DoResumeTest(t))
    ensures Apply(k, DoResumeTest(t)) == k.(pending := k.pending.(resumeTested := k.pending.resumeTested + multiset{t}))
  {
    hide Inv, Base;
    InvPlaces(k, t);
  }

  lemma WakesAlone(k: State, t: Tid)
    requires Inv(k) && t in k.tcbs && k.tcbs[t].timerOn && t != k.current && t !in k.deletions
    requires ReadyQ(k.tcbs[t].prio) in k.lists && k.lists[ReadyQ(k.tcbs[t].prio)] == []
    ensures Enabled(k, DoTimeout(t))
    ensures var k1, p := Apply(k, DoTimeout(t)), k.tcbs[t].prio;
      t in k1.tcbs && k1.tcbs[t].prio == p && ReadyQ(p) in k1.lists && k1.lists[ReadyQ(p)] == [t]
  {
    hide Inv;
    TimeoutInv(k, t);
  }

  lemma TakenAlone(k: State, t: Tid)
    requires Inv(k) && t in k.tcbs && ReadyQ(k.tcbs[t].prio) in k.lists && k.lists[ReadyQ(k.tcbs[t].prio)] == [t]
    ensures BitOutlives(ResumeUnlink(k, t), k.tcbs[t].prio)
  {
    MarkedAstray(ResumeUnlink(k, t), k.tcbs[t].prio);
  }

  /** Two calls of rt_thread_resume that have both passed the test; one of them goes through. */
  function TwoTests(t: Tid): seq<Step> {
    [DoResumeTest(t), DoResumeTest(t), DoResumeUnlink(t), DoResumeInsert(t)]
  }

  /** From any state with a suspended thread: the first region of the other call breaks the invariant. */
  lemma TestedTwice(k: State, t: Tid)
    requires Inv(k) && t in k.tcbs && k.tcbs[t].stat == Suspend && t != k.current && t !in k.deletions
    ensures exists ks: seq<State> :: Run(ks, TwoTests(t)) && ks[0] == k && Inv(ks[4]) && t in ks[4].tcbs && !Inv(ResumeUnlink(ks[4], t))
  {
    hide Inv, Apply, ResumeUnlink, Takeable;
    TestsSleeper(k, t);
    var k1 := Apply(k, DoResumeTest(t));
    TestsSleeper(k1, t);
    var k2 := Apply(k1, DoResumeTest(t));
    GoesThrough(k2, t);
    var k3 := Apply(k2, DoResumeUnlink(t));
    var k4 := Apply(k3, DoResumeInsert(t));
    ResumeUnlinkIff(k4, t);
    var ks := [k, k1, k2, k3, k4];
    hide Enabled;
    assert Run(ks, TwoTests(t)) && ks[0] == k && Inv(ks[4]) && t in ks[4].tcbs && !Inv(ResumeUnlink(ks[4], t));
  }

  lemma GoesThrough(k: State, t: Tid)
    requires Inv(k) && t in k.tcbs && k.tcbs[t].stat == Suspend && t != k.current && t !in k.deletions
    requires t in k.pending.resumeTested
    ensures Enabled(k, DoResumeUnlink(t))
    ensures var k1 := Apply(k, DoResumeUnlink(t)); Enabled(k1, DoResumeInsert(t))
    ensures var k1 := Apply(k, DoResumeUnlink(t)); var k2 := Apply(k1, DoResumeInsert(t));
      Inv(k2) && t in k2.tcbs && !Takeable(k2, t)
  {
    hide Inv, Off, Apply, Loose, Takeable;
    SuspendedTakeable(k, t);
    TakesIt(k, t);
    var k1 := Apply(k, DoResumeUnlink(t));
    InsertsIt(k1, t);
    TakeableIff(Apply(k1, DoResumeInsert(t)), t);
  }

  lemma TakesIt(k: State, t: Tid)
    requires Inv(k) && Enabled(k, DoResumeUnlink(t)) && k.tcbs[t].stat == Suspend
    ensures var k1 := Apply(k, DoResumeUnlink(t));
      && t in k1.tcbs && k1.tcbs[t].stat == Suspend && k1.current == k.current && k1.deletions == k.deletions
      && t in k1.pending.resumes && Loose(k1, t)
  {
    hide Inv, Loose, Off, Takeable;
    ResumeUnlinkInv(k, t);
  }

  lemma InsertsIt(k: State, t: Tid)
    requires Inv(k) && Enabled(k, DoResumeInsert(t)) && t != k.current && t !in k.deletions
    ensures var k1 := Apply(k, DoResumeInsert(t)); t in k1.tcbs && t !in k1.deletions && OnReadyQueue(k1, t)
  {
    hide Inv, Loose, Off, Apply, Choice;
    RecordStep(k, DoResumeInsert(t), t);
    OffStep(k, DoResumeInsert(t), t);
    CallsFrame(k, DoResumeInsert(t));
  }

  /** The test of rt_thread_suspend, after which its thread preempts the caller and blocks; the region then runs, and
      someone resumes the thread. */
  function BlockedSteps(t: Tid, w: Wid, order: Order, timed: bool): seq<Step> {
    [DoSuspendTest(t), DoSchedule, DoBlock(w, order, timed), DoSchedule, DoSuspendTake(t), DoResume(t)]
  }

  /** Thread t runs or is ready to, with nothing in its record to tell that nobody ended its wait. */
  ghost predicate LooksServed(k: State, t: Tid) {
    t in k.tcbs && k.tcbs[t].stat in {Ready, Running} && k.tcbs[t].error == EOK && !k.tcbs[t].timerOn && !OnWaitList(k, t)
  }

  /** From any state in which rt_schedule would switch to thread t: its wait ends without a word from the IPC object. */
  lemma BlockedAfterTest(k: State, t: Tid, w: Wid, order: Order, timed: bool)
    requires Inv(k) && WaitQ(w) in k.lists && t != k.current && t == Choice(k)
    ensures exists ks: seq<State> ::
      && Run(ks, BlockedSteps(t, w, order, timed)) && ks[0] == k
      && t in ks[3].tcbs && OnWaitList(ks[3], t) && LooksServed(ks[6], t)
  {
    hide Inv, Apply, Enabled, Choice, Off, OnWaitList;
    ComesToRun(k, t, w);
    var k1 := Apply(k, DoSuspendTest(t));
    var k2 := Apply(k1, DoSchedule);
    GoesToSleep(k2, t, w, order, timed);
    var k3 := Apply(k2, DoBlock(w, order, timed));
    var k4 := Apply(k3, DoSchedule);
    IsTaken(k4, t);
    var k5 := Apply(k4, DoSuspendTake(t));
    var k6 := Apply(k5, DoResume(t));
    var ks := [k, k1, k2, k3, k4, k5, k6];
    hide LooksServed;
    assert Run(ks, BlockedSteps(t, w, order, timed)) && ks[0] == k
      && t in ks[3].tcbs && OnWaitList(ks[3], t) && LooksServed(ks[6], t);
  }

  lemma ComesToRun(k: State, t: Tid, w: Wid)
    requires Inv(k) && WaitQ(w) in k.lists && t != k.current && t == Choice(k)
    ensures Enabled(k, DoSuspendTest(t))
    ensures Enabled(Apply(k, DoSuspendTest(t)), DoSchedule)
    ensures var k2 := Apply(Apply(k, DoSuspendTest(t)), DoSchedule);
      && k2.current == t && t in k2.tcbs && k2.tcbs[t].stat == Running && WaitQ(w) in k2.lists && t in k2.pending.suspendTested
  {
    hide Inv, Choice;
    ChoiceStarted(k);
    var k1 := SuspendTest(k, t);
    PendingInv(k, k1.pending);
    SameChoice(k, k1);
    ScheduleEffect(k1);
    PendingSwitch(k1);
    hide Schedule;
  }

  lemma SameChoice(k: State, k1: State)
    requires Inv(k) && Inv(k1) && k1 == k.(pending := k1.pending)
    ensures Choice(k1) == Choice(k)
  {
    hide Inv;
  }

  lemma PendingSwitch(k: State)
    requires Inv(k)
    ensures Schedule(k).pending == k.pending
  {
    hide Inv, SwitchTo;
    InvCurrent(k);
    if k.lockNest == 0 && k.bits.group != 0 {
      HighestKnown(k);
      var to := k.lists[ReadyQ(HighestOf(k))][0];
      FrontIsReady(k, HighestOf(k));
      ReadyKnown(k, to);
      if k.tcbs[k.current].stat == Running { ReadyKnown(k, k.current); RemoveKeeps(k, k.current); }
      hide RemoveThread, Base;
      if to != k.current { SwitchRest(k, to); }
    }
  }

  lemma GoesToSleep(k: State, t: Tid, w: Wid, order: Order, timed: bool)
    requires Inv(k) && t == k.current && k.tcbs[t].stat == Running && WaitQ(w) in k.lists && t in k.pending.suspendTested
    ensures Enabled(k, DoBlock(w, order, timed))
    ensures var k1 := Apply(k, DoBlock(w, order, timed));
      Inv(k1) && t in k1.tcbs && OnWaitList(k1, t) && Enabled(k1, DoSchedule)
    ensures var k2 := Apply(Apply(k, DoBlock(w, order, timed)), DoSchedule);
      t in k2.tcbs && k2.tcbs[t].stat == Suspend && k2.tcbs[t].error == EOK && t in k2.pending.suspendTested
  {
    hide Inv, Apply, Off, OnWaitList, Choice;
    var s := DoBlock(w, order, timed);
    InvCurrent(k);
    hide Base;
    RecordStep(k, s, t);
    WaitListStep(k, s, t);
    BlockPending(k, w, order, timed);
    var k1 := Apply(k, s);
    ChoiceStarted(k1);
    RecordStep(k1, DoSchedule, t);
    PendingAfterSwitch(k1);
  }

  lemma PendingAfterSwitch(k: State)
    requires Inv(k)
    ensures Apply(k, DoSchedule).pending == k.pending
  {
    hide Inv;
    PendingSwitch(k);
    hide Schedule;
  }

  lemma BlockPending(k: State, w: Wid, order: Order, timed: bool)
    requires Inv(k) && Enabled(k, DoBlock(w, order, timed))
    ensures Apply(k, DoBlock(w, order, timed)).pending == k.pending
  {
    hide Inv, Without, Lists, Position;
    InvTables(k);
    KnownStarted(k, k.current);
  }

  lemma IsTaken(k: State, t: Tid)
    requires Inv(k) && t in k.tcbs && k.tcbs[t].stat == Suspend && k.tcbs[t].error == EOK && t in k.pending.suspendTested
    ensures Enabled(k, DoSuspendTake(t))
    ensures var k1 := Apply(k, DoSuspendTake(t)); Enabled(k1, DoResume(t)) && LooksServed(Apply(k1, DoResume(t)), t)
  {
    hide Inv, Apply, Off, OnWaitList, Choice;
    RecordStep(k, DoSuspendTake(t), t);
    WaitListStep(k, DoSuspendTake(t), t);
    var k1 := Apply(k, DoSuspendTake(t));
    RecordStep(k1, DoResume(t), t);
    WaitListStep(k1, DoResume(t), t);
  }
}
