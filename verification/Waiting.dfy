/** Blocking calls on IPC objects. A call suspends the current thread on one of the object's wait lists;
    it goes on when the thread runs again, and first looks at thread->error (ipc.c:396-401, 754-760,
    1216-1220, 1515-1519, 1663-1667, 2218-2222). The kernel may do anything else in between. */
module Waiting {
  import opened Seqs
  import opened ReadyBitmap
  import opened KernelSpec
  import opened KernelRuns

  /** Waiting on the list; taken off it by a deletion, with the timer of the wait still to stop; or taken off it with
      the given thread->error. */
  datatype Phase = Waits | Gone | Woke(error: Err)
  datatype Call = Call(wid: Wid, phase: Phase)

  /** The kernel, the wait lists of the object in question, and the threads inside blocking calls on it. */
  datatype Layer = Layer(k: State, ours: set<Wid>, calls: map<Tid, Call>)

  ghost predicate CallOk(l: Layer, t: Tid)
    requires t in l.calls
  {
    var c := l.calls[t];
    && t in l.k.tcbs && c.wid in l.ours
    && match c.phase
       case Waits => WaitQ(c.wid) in l.k.lists && t in l.k.lists[WaitQ(c.wid)] && l.k.tcbs[t].error == EOK
       case Gone => l.k.tcbs[t].error == EOK && forall w :: WaitQ(w) in l.k.lists ==> t !in l.k.lists[WaitQ(w)]
       case Woke(e) =>
         && l.k.tcbs[t].error == e && !l.k.tcbs[t].timerOn
         && forall w :: WaitQ(w) in l.k.lists ==> t !in l.k.lists[WaitQ(w)]
  }

  /** A thread is on one of our lists iff it waits in a call on that list, and the threads that were taken
      off carry the outcome of their wait. */
  ghost predicate Ok(l: Layer) {
    && Inv(l.k)
    && (forall w :: w in l.ours ==> WaitQ(w) in l.k.lists)
    && (forall t :: t in l.calls ==> CallOk(l, t))
    && (forall w, t :: w in l.ours && t in l.k.lists[WaitQ(w)] ==> t in l.calls && l.calls[t] == Call(w, Waits))
  }

  /** May the rest of the system take step s? It leaves our wait lists alone, does not block, sleep or exit on behalf
      of a thread inside one of our calls nor write its record, and resumes or closes no such thread before its wait
      has ended. A run ends where the region of an rt_thread_suspend or rt_thread_resume that was begun earlier finds
      the thread waiting here: see TakenWaiterIff. */
  ghost predicate Foreign(l: Layer, s: Step) {
    Enabled(l.k, s) &&
    match s
    case DoBlock(w, _, _) => w !in l.ours && l.k.current !in l.calls
    case DoSleep => l.k.current !in l.calls
    case DoExit(_) => l.k.current !in l.calls
    case DoResume(t) => t in l.calls ==> l.calls[t].phase.Woke?
    case DoSuspendTake(t) => t in l.calls ==> !l.calls[t].phase.Waits?
    case DoResumeUnlink(t) => t in l.calls ==> !l.calls[t].phase.Waits?
    case DoResumeInsert(t) => t in l.calls ==> l.calls[t].phase.Woke?
    case DoResumeAll(w) => w !in l.ours
    case DoDeleteRemove(t) => t in l.calls ==> l.calls[t].phase.Waits?
    case DoDeleteClose(t) => t in l.calls ==> l.calls[t].phase.Gone?
    case DoSetError(t, _) => t !in l.calls
    case DoSetEvents(t, _, _) => t !in l.calls
    case _ => true
  }

  /** The list of waiters after a foreign step: only a timeout or a deletion takes a thread off. */
  function ListAfter(q: seq<Tid>, s: Step): seq<Tid> {
    match s
    case DoTimeout(t) => Without(q, t)
    case DoDeleteRemove(t) => Without(q, t)
    case _ => q
  }

  /** A thread under deletion leaves its call when it is closed; until then its timer may still end the wait. */
  function CallsAfter(calls: map<Tid, Call>, s: Step): map<Tid, Call> {
    match s
    case DoTimeout(t) => if t in calls then calls[t := Call(calls[t].wid, Woke(ETIMEOUT))] else calls
    case DoDeleteRemove(t) => if t in calls then calls[t := Call(calls[t].wid, Gone)] else calls
    case DoDeleteClose(t) => map u | u in calls && u != t :: calls[u]
    case _ => calls
  }

  ghost function Other(l: Layer, s: Step): Layer
    requires Ok(l) && Foreign(l, s)
  {
    l.(k := Apply(l.k, s), calls := CallsAfter(l.calls, s))
  }

  // ---------- what a kernel step may change ----------

  /** For thread t and wait list w, everything a blocking call depends on. */
  ghost predicate StepFrame(k: State, k1: State, s: Step, t: Tid, w: Wid)
    requires t in k.tcbs && WaitQ(w) in k.lists
  {
    && t in k1.tcbs && k1.lists.Keys == k.lists.Keys
    && (t in k1.lists[WaitQ(w)] ==> t in k.lists[WaitQ(w)] || (s.DoBlock? && t == k.current))
    && (k1.tcbs[t].prio != k.tcbs[t].prio ==> s.DoStartup? || (s.DoChangePriority? && s.t == t))
    && (!s.DoSetEvents? || s.t != t ==> k1.tcbs[t].eventSet == k.tcbs[t].eventSet && k1.tcbs[t].eventInfo == k.tcbs[t].eventInfo)
    && (k1.tcbs[t].timerOn && !k.tcbs[t].timerOn ==> t == k.current && (s.DoSleep? || s.DoBlock?))
    && (k1.tcbs[t].error != k.tcbs[t].error ==>
          || (s.DoTimeout? && s.t == t)
          || (s.DoSetError? && s.t == t)
          || (s.DoBlock? && t == k.current)
          || (s.DoResumeAll? && WaitQ(s.w) in k.lists && t in k.lists[WaitQ(s.w)]))
    && (s.DoTimeout? && s.t == t ==> k1.tcbs[t].error == ETIMEOUT && !k1.tcbs[t].timerOn && t !in k1.lists[WaitQ(w)])
    && ((s.DoBlock? && s.w == w) || (s.DoResumeAll? && s.w == w)
        || k1.lists[WaitQ(w)] == (if s.DoResume? || s.DoResumeUnlink? || s.DoSuspendTake? then Without(k.lists[WaitQ(w)], s.t) else ListAfter(k.lists[WaitQ(w)], s)))
  }

  lemma ForeignFrame(l: Layer, s: Step, t: Tid, w: Wid)
    requires Ok(l) && Foreign(l, s) && t in l.k.tcbs && WaitQ(w) in l.k.lists
    ensures StepFrame(l.k, Apply(l.k, s), s, t, w)
  {
    StepFrames(l.k, s, t, w);
  }

  lemma StepFrames(k: State, s: Step, t: Tid, w: Wid)
    requires Inv(k) && Enabled(k, s) && t in k.tcbs && WaitQ(w) in k.lists
    ensures StepFrame(k, Apply(k, s), s, t, w)
  {
    hide StepFrame, Inv, Apply, Enabled;
    match s {
      case DoSchedule => SchedulerStepFrames(k, s, t, w);
      case EnterCritical => SchedulerStepFrames(k, s, t, w);
      case ExitCritical => SchedulerStepFrames(k, s, t, w);
      case DoChangePriority(_, _) => ThreadStepFrames(k, s, t, w);
      case DoTimeout(_) => TimeoutFrame(k, s, t, w);
      case DoSuspend(_) => ThreadStepFrames(k, s, t, w);
      case DoResume(_) => ResumeFrame(k, s, t, w);
      case DoResumeInsert(_) => ResumeFrame(k, s, t, w);
      case DoSuspendTake(_) => DropFrame(k, s, t, w);
      case DoResumeUnlink(_) => DropFrame(k, s, t, w);
      case DoDeleteRemove(_) => DropFrame(k, s, t, w);
      case DoExit(_) => DropFrame(k, s, t, w);
      case DoSleep => OtherStepFrames(k, s, t, w);
      case DoBlock(_, _, _) => OtherStepFrames(k, s, t, w);
      case DoResumeAll(_) => OtherStepFrames(k, s, t, w);
      case _ => RecordStepFrames(k, s, t, w);
    }
  }

  lemma SchedulerStepFrames(k: State, s: Step, t: Tid, w: Wid)
    requires Inv(k) && Enabled(k, s) && t in k.tcbs && WaitQ(w) in k.lists
    requires s.DoSchedule? || s.EnterCritical? || s.ExitCritical?
    ensures StepFrame(k, Apply(k, s), s, t, w)
  {
    hide Inv, StepFrame, Schedule, Scheduled, Choice;
    InvCurrent(k);
    if s.DoSchedule? {
      ScheduleEffect(k);
      ScheduledFrame(k, Apply(k, s), Choice(k), s, t, w);
    } else {
      ScheduledFrame(k, Apply(k, s), k.current, s, t, w);
    }
  }

  lemma ScheduledFrame(k: State, k1: State, to: Tid, s: Step, t: Tid, w: Wid)
    requires k.current in k.tcbs && to in k.tcbs && t in k.tcbs && WaitQ(w) in k.lists
    requires s.DoSchedule? || s.EnterCritical? || s.ExitCritical?
    requires if s.DoSchedule? then Scheduled(k, k1, to) else k1.tcbs == k.tcbs && k1.lists == k.lists
    ensures StepFrame(k, k1, s, t, w)
  {
  }

  lemma ThreadStepFrames(k: State, s: Step, t: Tid, w: Wid)
    requires Inv(k) && Enabled(k, s) && t in k.tcbs && WaitQ(w) in k.lists
    requires s.DoChangePriority? || s.DoSuspend?
    ensures StepFrame(k, Apply(k, s), s, t, w)
  {
    hide Inv;
    if s.DoChangePriority? { ChangePriorityInv(k, s.t, s.p); } else { SuspendFrame(k, s.t, w); }
    hide ChangePriority, SuspendThread;
  }

  lemma TimeoutFrame(k: State, s: Step, t: Tid, w: Wid)
    requires Inv(k) && Enabled(k, s) && t in k.tcbs && WaitQ(w) in k.lists && s.DoTimeout?
    ensures StepFrame(k, Apply(k, s), s, t, w)
  {
    hide Inv;
    TimeoutInv(k, s.t);
    hide Timeout;
  }

  lemma ResumeFrame(k: State, s: Step, t: Tid, w: Wid)
    requires Inv(k) && Enabled(k, s) && t in k.tcbs && WaitQ(w) in k.lists && (s.DoResume? || s.DoResumeInsert?)
    ensures StepFrame(k, Apply(k, s), s, t, w)
  {
    hide Inv, Loose;
    if s.DoResume? { ResumeThreadInv(k, s.t); } else { ResumeInsertInv(k, s.t); }
    hide ResumeThread, ResumeInsert;
  }

  /** The steps that take a thread off any list. */
  lemma DropFrame(k: State, s: Step, t: Tid, w: Wid)
    requires Inv(k) && Enabled(k, s) && t in k.tcbs && WaitQ(w) in k.lists
    requires s.DoSuspendTake? || s.DoResumeUnlink? || s.DoDeleteRemove? || s.DoExit?
    ensures StepFrame(k, Apply(k, s), s, t, w)
  {
    hide Inv, Loose, Off, Dropped, Takeable, StepFrame, ResumeUnlink, SuspendTake, DeleteRemove, Exit;
    match s {
      case DoSuspendTake(u) =>
        SuspendTakeInv(k, u);
        DroppedFrame(k, Apply(k, s), s, u, k.tcbs[u].(stat := Suspend, timerOn := false), t, w);
      case DoResumeUnlink(u) =>
        ResumeUnlinkInv(k, u);
        DroppedFrame(k, Apply(k, s), s, u, k.tcbs[u].(timerOn := false), t, w);
      case DoDeleteRemove(u) =>
        DeleteRemoveInv(k, u);
        DroppedFrame(k, Apply(k, s), s, u, k.tcbs[u], t, w);
      case DoExit(bury) =>
        RunningWaitsNowhere(k, w);
        ExitInv(k, bury);
        DroppedFrame(k, Apply(k, s), s, k.current, k.tcbs[k.current].(stat := Close, timerOn := false), t, w);
    }
  }

  lemma DroppedFrame(k: State, k1: State, s: Step, u: Tid, c: Tcb, t: Tid, w: Wid)
    requires u in k.tcbs && t in k.tcbs && WaitQ(w) in k.lists && Dropped(k, k1, u, c)
    requires s == DoSuspendTake(u) || s == DoResumeUnlink(u) || s == DoDeleteRemove(u) || (s.DoExit? && u !in k.lists[WaitQ(w)])
    requires c.prio == k.tcbs[u].prio && c.error == k.tcbs[u].error && (c.timerOn ==> k.tcbs[u].timerOn)
    requires c.eventSet == k.tcbs[u].eventSet && c.eventInfo == k.tcbs[u].eventInfo
    ensures StepFrame(k, k1, s, t, w)
  {
  }

  lemma RunningWaitsNowhere(k: State, w: Wid)
    requires Inv(k) && k.current in k.tcbs && k.tcbs[k.current].stat == Running && WaitQ(w) in k.lists
    ensures k.current !in k.lists[WaitQ(w)]
  {
    InvCurrent(k);
  }

  /** The steps that touch no wait list. */
  lemma RecordStepFrames(k: State, s: Step, t: Tid, w: Wid)
    requires Inv(k) && Enabled(k, s) && t in k.tcbs && WaitQ(w) in k.lists
    requires s.DoStartup? || s.DoSuspendTest? || s.DoResumeTest? || s.DoDeleteTimer? || s.DoDeleteClose? || s.DoDeleteBury? || s.DoSetError? || s.DoSetEvents?
    ensures StepFrame(k, Apply(k, s), s, t, w)
  {
    hide Inv, Off;
    InvTables(k);
    hide Lists;
  }

  lemma OtherStepFrames(k: State, s: Step, t: Tid, w: Wid)
    requires Inv(k) && Enabled(k, s) && t in k.tcbs && WaitQ(w) in k.lists
    requires s.DoSleep? || s.DoBlock? || s.DoResumeAll?
    ensures StepFrame(k, Apply(k, s), s, t, w)
  {
    hide Inv, Placement, Base;
    match s {
      case DoSleep => SleepInv(k); hide Sleep;
      case DoBlock(_, _, _) => BlockFrame(k, s, t, w);
      case DoResumeAll(_) => ResumeAllFrame(k, s, t, w);
    }
  }

  lemma SuspendFrame(k: State, u: Tid, w: Wid)
    requires Inv(k) && u in k.tcbs && k.tcbs[u].stat in {Ready, Running} && WaitQ(w) in k.lists
    ensures Known(k, u)
    ensures var k1 := SuspendThread(k, u);
      && k1.tcbs == k.tcbs[u := k.tcbs[u].(stat := Suspend, timerOn := false)] && k1.lists.Keys == k.lists.Keys
      && k1.lists[WaitQ(w)] == k.lists[WaitQ(w)]
  {
    hide Inv, Placement;
    InvPlaces(k, u);
    SuspendThreadInv(k, u);
  }

  lemma BlockFrame(k: State, s: Step, t: Tid, w: Wid)
    requires Inv(k) && Enabled(k, s) && s.DoBlock? && t in k.tcbs && WaitQ(w) in k.lists
    ensures StepFrame(k, Apply(k, s), s, t, w)
  {
    hide Inv;
    BlockInv(k, s.w, s.order, s.timed);
    InvCurrent(k);
    BlockedFrame(k, Block(k, s.w, s.order, s.timed), s, t, w);
  }

  lemma BlockedFrame(k: State, k1: State, s: Step, t: Tid, w: Wid)
    requires k.current in k.tcbs && Lists(k) && s.DoBlock? && WaitQ(s.w) in k.lists && t in k.tcbs && WaitQ(w) in k.lists
    requires Blocked(k, k1, s.w, s.order, s.timed)
    ensures StepFrame(k, k1, s, t, w)
  {
    BlockedMembers(k, k1, s.w, s.order, s.timed);
    hide Blocked, Lists;
  }

  /** Blocked, with list positions forgotten. */
  lemma BlockedMembers(k: State, k1: State, w: Wid, order: Order, timed: bool)
    requires k.current in k.tcbs && WaitQ(w) in k.lists && Lists(k) && Blocked(k, k1, w, order, timed)
    ensures k1.tcbs == k.tcbs[k.current := k.tcbs[k.current].(error := EOK, stat := Suspend, timerOn := timed)]
    ensures k1.current == k.current && k1.lists.Keys == k.lists.Keys
    ensures forall u :: u in k1.lists[WaitQ(w)] <==> u in k.lists[WaitQ(w)] || u == k.current
    ensures forall v :: WaitQ(v) in k.lists && v != w ==> k1.lists[WaitQ(v)] == k.lists[WaitQ(v)]
  {
    var q := k.lists[WaitQ(w)];
    InsertMembers(q, Position(k.tcbs, q, k.tcbs[k.current].prio, order), k.current);
  }

  lemma ResumeAllFrame(k: State, s: Step, t: Tid, w: Wid)
    requires Inv(k) && Enabled(k, s) && s.DoResumeAll? && t in k.tcbs && WaitQ(w) in k.lists
    ensures StepFrame(k, Apply(k, s), s, t, w)
  {
    hide Inv;
    ResumeAllInv(k, s.w);
    hide ResumeAll;
  }

  // ---------- the operations an object performs on its waiters ----------

  /** The current thread suspends itself on one of our lists. */
  ghost function Begin(l: Layer, w: Wid, order: Order, timed: bool): Layer
    requires Ok(l) && w in l.ours && l.k.tcbs[l.k.current].stat == Running && l.k.current !in l.calls
  {
    ReadyKnown(l.k, l.k.current);
    l.(k := Block(l.k, w, order, timed), calls := l.calls[l.k.current := Call(w, Waits)])
  }

  /** rt_thread_resume of one of our waiters, its error left as it is. */
  ghost function WakeOne(l: Layer, w: Wid, t: Tid): Layer
    requires Ok(l) && w in l.ours && t in l.k.lists[WaitQ(w)]
  {
    WaiterInv(l.k, w, t);
    l.(k := ResumeThread(l.k, t), calls := l.calls[t := Call(w, Woke(EOK))])
  }

  /** rt_ipc_list_resume_all on one of our lists. */
  ghost function WakeAll(l: Layer, w: Wid): Layer
    requires Ok(l) && w in l.ours
  {
    l.(k := ResumeAll(l.k, w),
       calls := map t | t in l.calls :: if l.calls[t] == Call(w, Waits) then Call(w, Woke(ERROR)) else l.calls[t])
  }

  /** The current thread, back from rt_schedule, leaves the call or goes round its loop. */
  ghost function Leave(l: Layer): Layer {
    l.(calls := map t | t in l.calls && t != l.k.current :: l.calls[t])
  }

  /** The current thread runs inside a call after being taken off the list. */
  ghost predicate Back(l: Layer) {
    && l.k.current in l.calls && l.calls[l.k.current].phase.Woke?
    && l.k.current in l.k.tcbs && l.k.tcbs[l.k.current].stat == Running
  }

  lemma OtherOk(l: Layer, s: Step)
    requires Ok(l) && Foreign(l, s)
    ensures Ok(Other(l, s))
    ensures forall w :: w in l.ours ==> Other(l, s).k.lists[WaitQ(w)] == ListAfter(l.k.lists[WaitQ(w)], s)
  {
    hide Inv, Apply, CallOk;
    var l1 := Other(l, s);
    forall w | w in l.ours ensures WaitQ(w) in l1.k.lists && l1.k.lists[WaitQ(w)] == ListAfter(l.k.lists[WaitQ(w)], s) {
      OtherList(l, s, w);
    }
    forall t | t in l1.calls ensures CallOk(l1, t) { OtherCallOk(l, s, t); }
    forall w, t | w in l1.ours && t in l1.k.lists[WaitQ(w)] ensures t in l1.calls && l1.calls[t] == Call(w, Waits) {
      assert t in l.k.lists[WaitQ(w)];
    }
  }

  lemma OtherList(l: Layer, s: Step, w: Wid)
    requires Ok(l) && Foreign(l, s) && w in l.ours
    ensures WaitQ(w) in Other(l, s).k.lists && Other(l, s).k.lists[WaitQ(w)] == ListAfter(l.k.lists[WaitQ(w)], s)
  {
    hide Inv, Apply, CallOk;
    InvCurrent(l.k);
    hide Base;
    ForeignFrame(l, s, l.k.current, w);
    if s.DoResume? || s.DoResumeUnlink? || s.DoSuspendTake? { assert s.t !in l.k.lists[WaitQ(w)]; }
  }

  lemma OtherCallOk(l: Layer, s: Step, t: Tid)
    requires Ok(l) && Foreign(l, s) && t in Other(l, s).calls
    ensures CallOk(Other(l, s), t)
  {
    hide Inv, Apply, Foreign;
    assert t in l.calls && CallOk(l, t);
    if l.calls[t].phase.Waits? { OtherWaits(l, s, t); } else { OtherOff(l, s, t); }
    hide CallOk;
  }

  lemma OtherWaits(l: Layer, s: Step, t: Tid)
    requires Ok(l) && Foreign(l, s) && t in Other(l, s).calls && t in l.calls && CallOk(l, t) && l.calls[t].phase.Waits?
    ensures CallOk(Other(l, s), t)
  {
    hide Inv, Apply;
    InvPlaces(l.k, t);
    hide Base;
    OtherList(l, s, l.calls[t].wid);
    ForeignFrame(l, s, t, l.calls[t].wid);
    if (s.DoTimeout? || s.DoDeleteRemove?) && s.t == t { OtherLeft(l, s, t); }
  }

  /** A thread that timed out or is being deleted is on no wait list. */
  lemma OtherLeft(l: Layer, s: Step, t: Tid)
    requires Ok(l) && Foreign(l, s) && t in l.calls && CallOk(l, t) && (s.DoTimeout? || s.DoDeleteRemove?) && s.t == t
    ensures forall w :: WaitQ(w) in Other(l, s).k.lists ==> t !in Other(l, s).k.lists[WaitQ(w)]
  {
    hide Inv, Apply;
    ForeignFrame(l, s, t, l.calls[t].wid);
    forall w | WaitQ(w) in Other(l, s).k.lists ensures t !in Other(l, s).k.lists[WaitQ(w)] {
      ForeignFrame(l, s, t, w);
    }
  }

  /** A thread taken off its list stays off the lists until its call has ended. */
  lemma OtherOff(l: Layer, s: Step, t: Tid)
    requires Ok(l) && Foreign(l, s) && t in Other(l, s).calls && t in l.calls && CallOk(l, t) && !l.calls[t].phase.Waits?
    ensures CallOk(Other(l, s), t)
  {
    hide Inv, Apply, StepFrame, Foreign, CallsAfter;
    OtherList(l, s, l.calls[t].wid);
    OffRecord(l, s, t);
    forall w | WaitQ(w) in Other(l, s).k.lists ensures t !in Other(l, s).k.lists[WaitQ(w)] {
      StaysOff(l, s, t, w);
    }
  }

  lemma StaysOff(l: Layer, s: Step, t: Tid, w: Wid)
    requires Ok(l) && Foreign(l, s) && t in l.calls && CallOk(l, t) && !l.calls[t].phase.Waits?
    requires Other(l, s).k.lists.Keys == l.k.lists.Keys && WaitQ(w) in l.k.lists
    ensures t !in Other(l, s).k.lists[WaitQ(w)]
  {
    hide Inv, Apply, Ok;
    ForeignFrame(l, s, t, w);
  }

  lemma OffRecord(l: Layer, s: Step, t: Tid)
    requires Ok(l) && Foreign(l, s) && t in Other(l, s).calls && t in l.calls && CallOk(l, t) && !l.calls[t].phase.Waits?
    ensures var l1 := Other(l, s); var p := l1.calls[t].phase;
      && t in l1.k.tcbs && l1.calls[t].wid in l1.ours && !p.Waits? && l1.k.lists.Keys == l.k.lists.Keys
      && l1.k.tcbs[t].error == (if p.Gone? then EOK else p.error) && (p.Woke? ==> !l1.k.tcbs[t].timerOn)
  {
    hide Inv, Apply;
    InvPlaces(l.k, t);
    hide Base;
    ForeignFrame(l, s, t, l.calls[t].wid);
  }

  /** The region of an rt_thread_suspend, or the first of an rt_thread_resume, whose caller tested the thread some time
      before, leaves lists and calls in agreement iff the thread is not waiting here by now. */
  lemma TakenWaiterIff(l: Layer, s: Step)
    requires Ok(l) && Enabled(l.k, s) && (s.DoSuspendTake? || s.DoResumeUnlink?)
    ensures Ok(l.(k := Apply(l.k, s))) <==> !(s.t in l.calls && l.calls[s.t].phase.Waits?)
  {
    hide Inv, Apply, Enabled, Loose;
    if s.t in l.calls && l.calls[s.t].phase.Waits? {
      assert CallOk(l, s.t);
      EnabledTid(l.k, s);
      StepFrames(l.k, s, s.t, l.calls[s.t].wid);
      assert !CallOk(l.(k := Apply(l.k, s)), s.t);
    } else {
      OtherOk(l, s);
    }
  }

  /** The region of a stale rt_thread_suspend and a later rt_thread_resume: the waiter goes on with RT_EOK in
      thread->error, off the list and its timer stopped, as if the object had ended its wait. */
  lemma TakenWaiterServed(l: Layer, t: Tid)
    requires Ok(l) && t in l.calls && l.calls[t].phase.Waits? && t in l.k.pending.suspendTested
    ensures Enabled(l.k, DoSuspendTake(t)) && Enabled(Apply(l.k, DoSuspendTake(t)), DoResume(t))
    ensures var k := Apply(Apply(l.k, DoSuspendTake(t)), DoResume(t));
      && !Ok(l.(k := k)) && t in k.tcbs && k.tcbs[t].stat in {Ready, Running} && k.tcbs[t].error == EOK && !k.tcbs[t].timerOn
      && forall w :: WaitQ(w) in k.lists ==> t !in k.lists[WaitQ(w)]
  {
    hide Inv, Apply, Enabled;
    var w := l.calls[t].wid;
    assert CallOk(l, t);
    OnListSuspended(l.k, w, t);
    TakenThenResumed(l.k, t);
    assert !CallOk(l.(k := Apply(Apply(l.k, DoSuspendTake(t)), DoResume(t))), t);
  }

  lemma TakenThenResumed(k: State, t: Tid)
    requires Inv(k) && t in k.tcbs && k.tcbs[t].stat == Suspend && t in k.pending.suspendTested
    ensures Enabled(k, DoSuspendTake(t)) && Enabled(Apply(k, DoSuspendTake(t)), DoResume(t))
    ensures var k2 := Apply(Apply(k, DoSuspendTake(t)), DoResume(t));
      && t in k2.tcbs && k2.tcbs[t].stat in {Ready, Running} && k2.tcbs[t].error == k.tcbs[t].error && !k2.tcbs[t].timerOn
      && k2.lists.Keys == k.lists.Keys
      && forall w :: WaitQ(w) in k.lists ==> t !in k2.lists[WaitQ(w)]
  {
    hide Inv, Loose, Apply, SuspendTake, ResumeThread, Known;
    SuspendTakeInv(k, t);
    AppliedTake(k, t);
    ResumeThreadInv(SuspendTake(k, t), t);
    AppliedResume(SuspendTake(k, t), t);
  }

  lemma AppliedTake(k: State, t: Tid)
    requires Inv(k) && Enabled(k, DoSuspendTake(t)) && Known(k, t)
    ensures Apply(k, DoSuspendTake(t)) == SuspendTake(k, t)
  {
    hide Inv, SuspendTake;
  }

  lemma AppliedResume(k: State, t: Tid)
    requires Inv(k) && Enabled(k, DoResume(t)) && Known(k, t)
    ensures Apply(k, DoResume(t)) == ResumeThread(k, t)
  {
    hide Inv, ResumeThread;
  }

  lemma OnListSuspended(k: State, w: Wid, t: Tid)
    requires Inv(k) && WaitQ(w) in k.lists && t in k.lists[WaitQ(w)]
    ensures t in k.tcbs && k.tcbs[t].stat == Suspend
  {
    InvTables(k);
    InvPlaces(k, t);
  }

  lemma EnabledTid(k: State, s: Step)
    requires Enabled(k, s) && (s.DoSuspendTake? || s.DoResumeUnlink?)
    ensures s.t in k.tcbs
  {
  }

  lemma BeginOk(l: Layer, w: Wid, order: Order, timed: bool)
    requires Ok(l) && w in l.ours && l.k.tcbs[l.k.current].stat == Running && l.k.current !in l.calls
    ensures Ok(Begin(l, w, order, timed)) && Blocked(l.k, Begin(l, w, order, timed).k, w, order, timed)
  {
    hide Inv;
    BlockInv(l.k, w, order, timed);
    InvCurrent(l.k);
    BlockedOk(l, Begin(l, w, order, timed), w, order, timed);
  }

  /** What beginning to wait changes, with list positions forgotten. */
  lemma Begun(l: Layer, w: Wid, order: Order, timed: bool)
    requires Ok(l) && w in l.ours && l.k.tcbs[l.k.current].stat == Running && l.k.current !in l.calls
    ensures var l1, c := Begin(l, w, order, timed), l.k.current;
      && Ok(l1) && l1.ours == l.ours && l1.calls == l.calls[c := Call(w, Waits)]
      && l1.k.tcbs == l.k.tcbs[c := l.k.tcbs[c].(error := EOK, stat := Suspend, timerOn := timed)]
      && l1.k.current == c && l1.k.lists.Keys == l.k.lists.Keys && c in l1.k.lists[WaitQ(w)]
  {
    hide Inv, CallOk;
    BeginOk(l, w, order, timed);
    InvCurrent(l.k);
    BlockedMembers(l.k, Begin(l, w, order, timed).k, w, order, timed);
    hide Blocked;
  }

  lemma BlockedOk(l: Layer, l1: Layer, w: Wid, order: Order, timed: bool)
    requires Ok(l) && w in l.ours && l.k.current in l.k.tcbs && l.k.current !in l.calls && Lists(l.k)
    requires Blocked(l.k, l1.k, w, order, timed) && l1.ours == l.ours && Inv(l1.k)
    requires l1.calls == l.calls[l.k.current := Call(w, Waits)]
    ensures Ok(l1)
  {
    hide Inv, CallOk, Lists;
    BlockedMembers(l.k, l1.k, w, order, timed);
    hide Blocked;
    forall u | u in l1.calls ensures CallOk(l1, u) { BeginCallOk(l, l1, w, order, timed, u); }
  }

  lemma BeginCallOk(l: Layer, l1: Layer, w: Wid, order: Order, timed: bool, u: Tid)
    requires Ok(l) && w in l.ours && l.k.current in l.k.tcbs && l.k.current !in l.calls && Lists(l.k)
    requires Blocked(l.k, l1.k, w, order, timed) && l1.ours == l.ours
    requires l1.calls == l.calls[l.k.current := Call(w, Waits)] && u in l1.calls
    ensures CallOk(l1, u)
  {
    hide Inv;
    BlockedMembers(l.k, l1.k, w, order, timed);
    hide Blocked, Lists;
    if u != l.k.current { assert CallOk(l, u); }
  }

  lemma WakeOneOk(l: Layer, w: Wid, t: Tid)
    requires Ok(l) && w in l.ours && t in l.k.lists[WaitQ(w)]
    ensures t in l.calls && l.calls[t] == Call(w, Waits) && t in l.k.tcbs && l.k.tcbs[t].stat == Suspend
    ensures Ok(WakeOne(l, w, t)) && Woken(l.k, WakeOne(l, w, t).k, t, EOK)
  {
    hide Inv;
    assert CallOk(l, t);
    WaiterInv(l.k, w, t);
    ResumeThreadInv(l.k, t);
    WokenOk(l, WakeOne(l, w, t), w, t);
  }

  lemma WokenOk(l: Layer, l1: Layer, w: Wid, t: Tid)
    requires Ok(l) && w in l.ours && t in l.calls && l.calls[t] == Call(w, Waits) && t in l.k.tcbs && Inv(l1.k)
    requires Woken(l.k, l1.k, t, EOK) && l1.ours == l.ours && l1.calls == l.calls[t := Call(w, Woke(EOK))]
    ensures Ok(l1)
  {
    hide Inv, CallOk;
    forall u | u in l1.calls ensures CallOk(l1, u) { WakeCallOk(l, l1, w, t, u); }
  }

  lemma WakeCallOk(l: Layer, l1: Layer, w: Wid, t: Tid, u: Tid)
    requires Ok(l) && w in l.ours && t in l.calls && l.calls[t] == Call(w, Waits) && t in l.k.tcbs
    requires Woken(l.k, l1.k, t, EOK) && l1.ours == l.ours && l1.calls == l.calls[t := Call(w, Woke(EOK))] && u in l1.calls
    ensures CallOk(l1, u)
  {
    hide Inv;
    assert CallOk(l, u);
  }

  lemma WakeAllOk(l: Layer, w: Wid)
    requires Ok(l) && w in l.ours
    ensures Ok(WakeAll(l, w)) && AllWoken(l.k, WakeAll(l, w).k, w)
  {
    hide Inv;
    var l1 := WakeAll(l, w);
    ResumeAllInv(l.k, w);
    hide ResumeAll;
    forall u | u in l1.calls ensures CallOk(l1, u) { WakeAllCallOk(l, w, u); }
  }

  lemma WakeAllCallOk(l: Layer, w: Wid, u: Tid)
    requires Ok(l) && w in l.ours && u in l.calls && AllWoken(l.k, WakeAll(l, w).k, w)
    ensures CallOk(WakeAll(l, w), u)
  {
    hide Inv, ResumeAll;
    assert CallOk(l, u);
    InvPlaces(l.k, u);
  }

  lemma LeaveOk(l: Layer)
    requires Ok(l) && Back(l)
    ensures Ok(Leave(l)) && Leave(l).k == l.k && l.k.current !in Leave(l).calls
    ensures l.calls[l.k.current].phase == Woke(l.k.tcbs[l.k.current].error)
  {
    hide Inv;
    var l1 := Leave(l);
    assert CallOk(l, l.k.current);
    forall u | u in l1.calls ensures CallOk(l1, u) { assert CallOk(l, u); }
  }

  /** thread->error := e outside any wait. */
  ghost function WithError(l: Layer, e: Err): Layer
    requires l.k.current in l.k.tcbs
  {
    l.(k := SetError(l.k, l.k.current, e))
  }

  lemma WithErrorOk(l: Layer, e: Err)
    requires Ok(l) && l.k.current in l.k.tcbs && l.k.current !in l.calls
    ensures Ok(WithError(l, e))
  {
    hide Inv;
    SetErrorInv(l.k, l.k.current, e);
    var l1 := WithError(l, e);
    forall u | u in l1.calls ensures CallOk(l1, u) { assert CallOk(l, u); }
  }

  /** A timer can only fire on a thread that still waits, or is being deleted while it waited. */
  lemma TimedOutWaits(l: Layer, t: Tid)
    requires Ok(l) && t in l.calls && t in l.k.tcbs && l.k.tcbs[t].timerOn
    ensures !l.calls[t].phase.Woke?
  {
    hide Inv;
    assert CallOk(l, t);
  }

  /** No foreign step changes the outcome of a wait, or gives a good one. */
  lemma OutcomeStays(l: Layer, x: Step, t: Tid)
    requires Ok(l) && Foreign(l, x)
    ensures t in Other(l, x).calls ==> t in l.calls
    ensures t in l.calls && l.calls[t].phase.Woke? ==> t in Other(l, x).calls && Other(l, x).calls[t] == l.calls[t]
    ensures t in Other(l, x).calls && Other(l, x).calls[t].phase == Woke(EOK) ==> t in l.calls && l.calls[t] == Other(l, x).calls[t]
  {
    hide Inv, Apply, Loose, Off;
    if x == DoTimeout(t) && t in l.calls { TimedOutWaits(l, t); }
  }

  /** The current thread runs and is in no call: it may begin one. */
  ghost predicate CanBlock(l: Layer) {
    l.k.current in l.k.tcbs && l.k.tcbs[l.k.current].stat == Running && l.k.current !in l.calls
  }

  /** rt_thread_control(RT_THREAD_CTRL_CHANGE_PRIORITY) from inside an object's critical region. */
  ghost function Reprioritise(l: Layer, t: Tid, p: nat): Layer
    requires Ok(l) && t in l.k.tcbs && Started(l.k.tcbs[t]) && ReadyQ(p) in l.k.lists
  {
    ChangePriorityInv(l.k, t, p);
    l.(k := ChangePriority(l.k, t, p))
  }

  lemma ReprioritiseOk(l: Layer, t: Tid, p: nat)
    requires Ok(l) && t in l.k.tcbs && Started(l.k.tcbs[t]) && ReadyQ(p) in l.k.lists
    ensures Ok(Reprioritise(l, t, p)) && PriorityChanged(l.k, Reprioritise(l, t, p).k, t, p)
  {
    hide Placement, ChangePriority;
    InvPlaces(l.k, t);
    ChangePriorityInv(l.k, t, p);
    hide Inv;
    var l1 := Reprioritise(l, t, p);
    forall u | u in l1.calls ensures CallOk(l1, u) { assert CallOk(l, u); }
  }

  // ---------- wake-ups on offer ----------

  /** The waiting time left after elapsed ticks. */
  function Remaining(timeout: int, elapsed: nat): int {
    if timeout > 0 then (if timeout - elapsed < 0 then 0 else timeout - elapsed) else timeout
  }

  /** The threads woken on list w that have not looked at the object since. */
  ghost function Fresh(l: Layer, w: Wid): set<Tid> {
    set t | t in l.calls && l.calls[t] == Call(w, Woke(EOK))
  }

  /** If somebody waits on w, at most slack of the n things they wait for are not on offer to a thread already
      woken: no wake-up has been lost. */
  ghost predicate Covered(l: Layer, w: Wid, n: int, slack: nat)
    requires WaitQ(w) in l.k.lists
  {
    l.k.lists[WaitQ(w)] != [] ==> n <= |Fresh(l, w)| + slack
  }

  lemma FreshAfterWake(l: Layer, w: Wid, t: Tid, l1: Layer)
    requires t in l.calls && l.calls[t] == Call(w, Waits) && l1.calls == l.calls[t := Call(w, Woke(EOK))]
    ensures |Fresh(l1, w)| == |Fresh(l, w)| + 1
    ensures forall v :: v != w ==> Fresh(l1, v) == Fresh(l, v)
  {
    assert Fresh(l1, w) == Fresh(l, w) + {t};
  }

  /** What waking the first waiter of one list does to it and to another list of the object. */
  lemma WakeFirst(l: Layer, w: Wid, v: Wid)
    requires Ok(l) && w in l.ours && v in l.ours && l.k.lists[WaitQ(w)] != []
    ensures var t := l.k.lists[WaitQ(w)][0]; var l1 := WakeOne(l, w, t);
      && Ok(l1) && l1.ours == l.ours && l1.calls.Keys == l.calls.Keys
      && |Fresh(l1, w)| == |Fresh(l, w)| + 1
      && (v != w ==> Fresh(l1, v) == Fresh(l, v) && l1.k.lists[WaitQ(v)] == l.k.lists[WaitQ(v)])
  {
    hide Inv, CallOk, Fresh;
    var t := l.k.lists[WaitQ(w)][0];
    WakeOneOk(l, w, t);
    var l1 := WakeOne(l, w, t);
    FreshAfterWake(l, w, t, l1);
    assert v != w ==> l.calls[t] != Call(v, Waits);
  }

  /** The current thread leaves a call it was woken in. */
  lemma LeaveFresh(l: Layer, w: Wid)
    requires Ok(l) && Back(l) && l.calls[l.k.current].wid == w
    ensures var c, e := l.k.current, l.k.tcbs[l.k.current].error;
      && |Fresh(Leave(l), w)| == |Fresh(l, w)| - (if e == EOK then 1 else 0)
      && forall v :: v != w ==> Fresh(Leave(l), v) == Fresh(l, v)
  {
    hide Inv, CallOk;
    LeaveOk(l);
    var c := l.k.current;
    assert Fresh(Leave(l), w) == Fresh(l, w) - {c};
    forall v | v != w ensures Fresh(Leave(l), v) == Fresh(l, v) {}
  }

  lemma OtherFresh(l: Layer, x: Step, w: Wid)
    requires Ok(l) && Foreign(l, x) && w in l.ours
    ensures Fresh(Other(l, x), w) == Fresh(l, w)
  {
    hide Inv, Apply;
    match x {
      case DoTimeout(t) => if t in l.calls { TimedOutWaits(l, t); }
      case _ =>
    }
  }
}
