/** What each kernel step does to one thread: to its record, to its place in the lists, and to the calls of
    rt-thread/src/thread.c that are in progress. */
module ThreadSteps {
  import opened Seqs
  import opened ReadyBitmap
  import opened KernelSpec
  import opened KernelRuns

  // ---------- its record ----------

  /** A thread that is inserted into the ready queues: the current one runs on. */
  function Readied(k: State, t: Tid, c: Tcb): Tcb {
    c.(stat := if t == k.current then Running else Ready)
  }

  /** The record of thread t after a step. */
  ghost function RecordAfter(k: State, s: Step, t: Tid): Tcb
    requires Inv(k) && t in k.tcbs
  {
    var c := k.tcbs[t];
    match s
    case DoSchedule =>
      if Choice(k) == k.current then c
      else if t == Choice(k) then c.(stat := Running)
      else if t == k.current && c.stat == Running then c.(stat := Ready)
      else c
    case DoStartup(u) => if u == t then c.(prio := c.initPrio, attr := k.bits.AttrOf(c.initPrio), stat := Suspend) else c
    case DoChangePriority(u, p) => if u == t then c.(prio := p, attr := k.bits.AttrOf(p)) else c
    case DoTimeout(u) => if u == t then Readied(k, t, c.(error := ETIMEOUT, timerOn := false)) else c
    case DoSuspend(u) => if u == t then c.(stat := Suspend, timerOn := false) else c
    case DoSuspendTake(u) => if u == t then c.(stat := Suspend, timerOn := false) else c
    case DoResume(u) => if u == t then Readied(k, t, c.(timerOn := false)) else c
    case DoResumeUnlink(u) => if u == t then c.(timerOn := false) else c
    case DoResumeInsert(u) => if u == t then Readied(k, t, c) else c
    case DoDeleteTimer(u) => if u == t then c.(timerOn := false) else c
    case DoDeleteClose(u) => if u == t then c.(stat := Close) else c
    case DoExit(_) => if t == k.current then c.(stat := Close, timerOn := false) else c
    case DoSleep => if t == k.current then c.(stat := Suspend, timerOn := true) else c
    case DoBlock(_, _, timed) => if t == k.current then c.(error := EOK, stat := Suspend, timerOn := timed) else c
    case DoResumeAll(w) =>
      if WaitQ(w) in k.lists && t in k.lists[WaitQ(w)] then Readied(k, t, c.(error := ERROR, timerOn := false)) else c
    case DoSetError(u, e) => if u == t then c.(error := e) else c
    case DoSetEvents(u, bits, info) => if u == t then c.(eventSet := bits, eventInfo := info) else c
    case _ => c
  }

  lemma RecordStep(k: State, s: Step, t: Tid)
    requires Inv(k) && Enabled(k, s) && t in k.tcbs
    ensures var k1 := Apply(k, s); k1.tcbs.Keys == k.tcbs.Keys && k1.tcbs[t] == RecordAfter(k, s, t)
  {
    hide Inv, RecordAfter;
    match s {
      case DoSchedule => ScheduleRecord(k, t);
      case DoChangePriority(_, _) => MovedRecord(k, s, t);
      case DoTimeout(_) => MovedRecord(k, s, t);
      case DoSuspend(_) => MovedRecord(k, s, t);
      case DoResume(_) => MovedRecord(k, s, t);
      case DoSuspendTake(_) => CallRecord(k, s, t);
      case DoResumeUnlink(_) => CallRecord(k, s, t);
      case DoResumeInsert(_) => CallRecord(k, s, t);
      case DoDeleteRemove(_) => CallRecord(k, s, t);
      case DoExit(_) => CallRecord(k, s, t);
      case DoSleep => BlockRecord(k, s, t);
      case DoBlock(_, _, _) => BlockRecord(k, s, t);
      case DoResumeAll(_) => BlockRecord(k, s, t);
      case _ => SetRecord(k, s, t);
    }
  }

  lemma ScheduleRecord(k: State, t: Tid)
    requires Inv(k) && t in k.tcbs
    ensures var k1 := Schedule(k); k1.tcbs.Keys == k.tcbs.Keys && k1.tcbs[t] == RecordAfter(k, DoSchedule, t)
  {
    hide Inv, Choice, Schedule;
    InvCurrent(k);
    ScheduleEffect(k);
    hide Base;
  }

  lemma MovedRecord(k: State, s: Step, t: Tid)
    requires Inv(k) && Enabled(k, s) && t in k.tcbs && (s.DoChangePriority? || s.DoTimeout? || s.DoSuspend? || s.DoResume?)
    ensures var k1 := Apply(k, s); k1.tcbs.Keys == k.tcbs.Keys && k1.tcbs[t] == RecordAfter(k, s, t)
  {
    hide Inv, Lists, ChangePriority, Timeout, SuspendThread, ResumeThread;
    match s {
      case DoChangePriority(u, p) => ChangePriorityInv(k, u, p);
      case DoTimeout(u) => TimeoutInv(k, u);
      case DoSuspend(u) => SuspendLife(k, u);
      case DoResume(u) => ResumeThreadInv(k, u);
    }
  }

  lemma SuspendLife(k: State, u: Tid)
    requires Inv(k) && u in k.tcbs && k.tcbs[u].stat in {Ready, Running}
    ensures Known(k, u)
    ensures SuspendThread(k, u).tcbs == k.tcbs[u := k.tcbs[u].(stat := Suspend, timerOn := false)]
  {
    hide Inv, Placement;
    InvPlaces(k, u);
    ReadyKnown(k, u);
  }

  lemma CallRecord(k: State, s: Step, t: Tid)
    requires Inv(k) && Enabled(k, s) && t in k.tcbs
    requires s.DoSuspendTake? || s.DoResumeUnlink? || s.DoResumeInsert? || s.DoDeleteRemove? || s.DoExit?
    ensures var k1 := Apply(k, s); k1.tcbs.Keys == k.tcbs.Keys && k1.tcbs[t] == RecordAfter(k, s, t)
  {
    hide Inv, Loose, Off, Takeable, SuspendTake, ResumeUnlink, ResumeInsert, DeleteRemove, Exit;
    match s {
      case DoSuspendTake(u) => SuspendTakeInv(k, u);
      case DoResumeUnlink(u) => ResumeUnlinkInv(k, u);
      case DoResumeInsert(u) => ResumeInsertInv(k, u);
      case DoDeleteRemove(u) => DeleteRemoveInv(k, u);
      case DoExit(bury) => ExitInv(k, bury);
    }
  }

  lemma BlockRecord(k: State, s: Step, t: Tid)
    requires Inv(k) && Enabled(k, s) && t in k.tcbs && (s.DoSleep? || s.DoBlock? || s.DoResumeAll?)
    ensures var k1 := Apply(k, s); k1.tcbs.Keys == k.tcbs.Keys && k1.tcbs[t] == RecordAfter(k, s, t)
  {
    hide Inv, Sleep, Block, ResumeAll, Position;
    match s {
      case DoSleep => SleepInv(k);
      case DoBlock(w, order, timed) => InvTables(k); BlockInv(k, w, order, timed); hide Lists;
      case DoResumeAll(w) => ResumeAllInv(k, w);
    }
  }

  /** The steps that do no more than set fields, and the last region of rt_thread_delete. */
  lemma SetRecord(k: State, s: Step, t: Tid)
    requires Inv(k) && Enabled(k, s) && t in k.tcbs
    requires s.EnterCritical? || s.ExitCritical? || s.DoStartup? || s.DoSuspendTest? || s.DoResumeTest? || s.DoDeleteTimer?
          || s.DoDeleteClose? || s.DoDeleteBury? || s.DoSetError? || s.DoSetEvents?
    ensures var k1 := Apply(k, s); k1.tcbs.Keys == k.tcbs.Keys && k1.tcbs[t] == RecordAfter(k, s, t)
  {
    hide Inv, Off, Loose;
    if s.DoDeleteBury? { InvTables(k); hide Lists; }
  }

  /** The steps that close thread t. */
  ghost predicate Closes(k: State, s: Step, t: Tid) {
    s == DoDeleteClose(t) || (s.DoExit? && t == k.current)
  }

  ghost predicate LifeFrame(k: State, k1: State, s: Step, t: Tid)
    requires t in k.tcbs
  {
    && t in k1.tcbs && k1.tcbs.Keys == k.tcbs.Keys
    && var c, c1 := k.tcbs[t], k1.tcbs[t];
    && c1.initPrio == c.initPrio
    && (Started(c) && !Closes(k, s, t) ==> Started(c1))
    && (c.stat == Close ==> c1.stat == Close)
    && (c1.stat == Init ==> c.stat == Init)
    && (Started(c1) && !Started(c) ==> c.stat == Init && s == DoStartup(t) && c1.prio == c.initPrio)
    && (c1.prio != c.prio ==> s == DoStartup(t) || (s.DoChangePriority? && s.t == t && c1.prio == s.p))
    && (s.DoChangePriority? && s.t == t ==> c1.prio == s.p)
  }

  lemma LifeFrames(k: State, s: Step, t: Tid)
    requires Inv(k) && Enabled(k, s) && t in k.tcbs
    ensures LifeFrame(k, Apply(k, s), s, t)
  {
    hide Inv, Apply, Loose, Off, Takeable;
    RecordStep(k, s, t);
    RecordLife(k, s, t);
  }

  lemma RecordLife(k: State, s: Step, t: Tid)
    requires Inv(k) && Enabled(k, s) && t in k.tcbs
    ensures var c, c1 := k.tcbs[t], RecordAfter(k, s, t);
      && (Started(c) && !Closes(k, s, t) ==> Started(c1)) && (c.stat == Close ==> c1.stat == Close)
      && (Started(c1) && !Started(c) ==> c.stat == Init && s == DoStartup(t))
  {
    hide Inv, Choice, Loose, Takeable;
    if s.DoSchedule? {
      ChoiceStarted(k);
    } else if s.DoResumeAll? {
      if WaitQ(s.w) in k.lists && t in k.lists[WaitQ(s.w)] { WaiterInv(k, s.w, t); }
    } else {
      OtherLife(k, s, t);
    }
  }

  lemma OtherLife(k: State, s: Step, t: Tid)
    requires Inv(k) && Enabled(k, s) && t in k.tcbs && !s.DoSchedule? && !s.DoResumeAll?
    ensures var c, c1 := k.tcbs[t], RecordAfter(k, s, t);
      && (Started(c) && !Closes(k, s, t) ==> Started(c1)) && (c.stat == Close ==> c1.stat == Close)
      && (Started(c1) && !Started(c) ==> c.stat == Init && s == DoStartup(t))
  {
    hide Inv, Choice, Loose, Takeable, Base;
    InvPlaces(k, t);
    InvCurrent(k);
  }

  /** The thread rt_schedule switches to is READY and first in a ready queue. */
  lemma ChoiceStarted(k: State)
    requires Inv(k)
    ensures Choice(k) in k.tcbs && (Choice(k) != k.current ==> k.tcbs[Choice(k)].stat == Ready && !Off(k, Choice(k)))
  {
    hide Inv;
    InvCurrent(k);
    if k.lockNest == 0 && k.bits.group != 0 {
      HighestKnown(k);
      FrontIsReady(k, HighestOf(k));
    }
  }

  // ---------- the thread timer ----------

  ghost predicate Starts(k: State, s: Step, t: Tid) {
    t == k.current && (s.DoSleep? || (s.DoBlock? && s.timed))
  }

  ghost predicate Stops(k: State, s: Step, t: Tid) {
    match s
    case DoTimeout(u) => u == t
    case DoSuspend(u) => u == t
    case DoSuspendTake(u) => u == t
    case DoResume(u) => u == t
    case DoResumeUnlink(u) => u == t
    case DoDeleteTimer(u) => u == t
    case DoExit(_) => t == k.current
    case DoBlock(_, _, timed) => t == k.current && !timed
    case DoResumeAll(w) => WaitQ(w) in k.lists && t in k.lists[WaitQ(w)]
    case _ => false
  }

  /** After a step the thread timer runs iff the step starts it, or it ran and the step does not stop it. */
  lemma TimerStep(k: State, s: Step, t: Tid)
    requires Inv(k) && Enabled(k, s) && t in k.tcbs
    ensures var k1 := Apply(k, s); t in k1.tcbs && (k1.tcbs[t].timerOn <==> (k.tcbs[t].timerOn && !Stops(k, s, t)) || Starts(k, s, t))
    ensures !(Starts(k, s, t) && Stops(k, s, t))
  {
    hide Inv, Apply, Choice, Enabled;
    RecordStep(k, s, t);
  }

  // ---------- what links a thread, and what takes it off ----------

  /** The steps after which thread t is on a list whatever it was on before. */
  ghost predicate Links(k: State, s: Step, t: Tid)
    requires Inv(k) && t in k.tcbs
  {
    match s
    case DoTimeout(u) => u == t && t != k.current
    case DoResume(u) => u == t && t != k.current
    case DoResumeInsert(u) => u == t && t != k.current
    case DoChangePriority(u, _) => u == t && k.tcbs[t].stat == Ready
    case DoSchedule => t == k.current && k.tcbs[t].stat == Running && Choice(k) != t
    case DoBlock(_, _, _) => t == k.current
    case DoDeleteBury(u) => u == t
    case DoExit(bury) => t == k.current && bury
    case _ => false
  }

  /** The steps after which it is on none. */
  ghost predicate Unlinks(k: State, s: Step, t: Tid)
    requires Inv(k) && t in k.tcbs
  {
    match s
    case DoTimeout(u) => u == t && t == k.current
    case DoResume(u) => u == t && t == k.current
    case DoResumeUnlink(u) => u == t
    case DoSuspend(u) => u == t
    case DoSuspendTake(u) => u == t
    case DoDeleteRemove(u) => u == t
    case DoSchedule => t != k.current && Choice(k) == t
    case DoResumeAll(w) => t == k.current && WaitQ(w) in k.lists && t in k.lists[WaitQ(w)]
    case _ => false
  }

  lemma InsertOff(k: State, u: Tid, t: Tid)
    requires Known(k, u)
    ensures Off(InsertThread(k, u), t) <==> Off(k, t) && !(u == t && t != k.current)
  {
    if u != k.current {
      var q := ReadyQ(k.tcbs[u].prio);
      var k1 := InsertThread(k, u);
      assert forall r :: r in k.lists ==> (t in k1.lists[r] <==> t in k.lists[r] || (r == q && t == u));
    }
  }

  lemma RemoveOff(k: State, u: Tid, t: Tid)
    requires Known(k, u)
    ensures Off(RemoveThread(k, u), t) <==> t == u || Off(k, t)
  {
    assert RemoveThread(k, u).lists == Unlink(k, u).lists;
    UnlinkOff(k, u, t);
    hide RemoveThread, Unlink;
  }

  lemma UnlinkOff(k: State, u: Tid, t: Tid)
    ensures Off(Unlink(k, u), t) <==> t == u || Off(k, t)
  {
    var k1 := Unlink(k, u);
    if t != u {
      assert forall q :: q in k.lists ==> (t in k.lists[q] <==> t in k1.lists[q]);
    }
  }

  /** Membership depends on the lists alone. */
  lemma SameLists(k: State, k1: State, t: Tid)
    requires k1.lists == k.lists
    ensures Off(k1, t) <==> Off(k, t)
  {
  }

  lemma LinkOff(k: State, q: Queue, i: nat, u: Tid, t: Tid)
    requires q in k.lists && i <= |k.lists[q]|
    ensures Off(LinkAt(k, q, i, u), t) <==> Off(k, t) && t != u
  {
    InsertMembers(k.lists[q], i, u);
    var k1 := LinkAt(k, q, i, u);
    assert forall r :: r in k.lists ==> (t in k1.lists[r] <==> t in k.lists[r] || (r == q && t == u));
  }

  lemma OnList(k: State, q: Queue, t: Tid)
    requires q in k.lists
    ensures t in k.lists[q] ==> !Off(k, t)
  {
  }

  lemma WakeOff(k: State, u: Tid, e: Err, t: Tid)
    requires Known(k, u)
    ensures Off(Wake(k, u, e), t) <==> if t == u then t == k.current else Off(k, t)
  {
    hide Off, InsertThread;
    UnlinkOff(k, u, t);
    var k1 := SetTcb(Unlink(k, u), u, k.tcbs[u].(error := e, timerOn := false));
    SameLists(Unlink(k, u), k1, t);
    InsertOff(k1, u, t);
  }

  lemma ChangeOff(k: State, u: Tid, p: nat, t: Tid)
    requires Inv(k) && u in k.tcbs && Started(k.tcbs[u]) && p < k.bits.Levels() && Known(k, u)
    requires ReadyQ(p) in k.lists && (k.bits.TwoLevel? ==> p / 8 < |k.bits.table|)
    ensures Off(ChangePriority(k, u, p), t) <==> Off(k, t) && !(u == t && k.tcbs[t].stat == Ready)
  {
    hide Off, InsertThread, RemoveThread, Base;
    InvCurrent(k);
    hide Inv;
    var c := k.tcbs[u].(prio := p, attr := k.bits.AttrOf(p));
    SameLists(k, SetTcb(k, u, c), t);
    if k.tcbs[u].stat == Ready {
      RemoveKeeps(k, u);
      var k1 := SetTcb(RemoveThread(k, u), u, c);
      RemoveOff(k, u, t);
      SameLists(RemoveThread(k, u), k1, t);
      InsertOff(k1, u, t);
    }
  }

  lemma RemoveKeeps(k: State, u: Tid)
    requires Known(k, u)
    ensures var k1 := RemoveThread(k, u);
      && k1.lists.Keys == k.lists.Keys && k1.tcbs == k.tcbs && k1.current == k.current
      && (k1.bits.TwoLevel? <==> k.bits.TwoLevel?) && (k.bits.TwoLevel? ==> |k1.bits.table| == |k.bits.table|)
      && k1.deletions == k.deletions && k1.pending == k.pending
  {
  }

  lemma SuspendOff(k: State, u: Tid, t: Tid)
    requires Known(k, u) && k.tcbs[u].stat in {Ready, Running}
    ensures Off(SuspendThread(k, u), t) <==> t == u || Off(k, t)
  {
    hide Off, RemoveThread;
    RemoveOff(k, u, t);
    SameLists(RemoveThread(k, u), SuspendThread(k, u), t);
  }

  lemma RunningOff(k: State)
    requires Inv(k) && k.tcbs[k.current].stat == Running
    ensures Known(k, k.current) && Off(k, k.current) && !k.tcbs[k.current].timerOn
  {
    InvCurrent(k);
    ReadyKnown(k, k.current);
  }
  lemma SleepOff(k: State, t: Tid)
    requires Inv(k) && k.tcbs[k.current].stat == Running && Known(k, k.current)
    ensures Off(Sleep(k), t) <==> Off(k, t)
  {
    hide Inv, Off, SuspendThread;
    RunningOff(k);
    SuspendOff(k, k.current, t);
    SameLists(SuspendThread(k, k.current), Sleep(k), t);
  }

  lemma BlockOff(k: State, w: Wid, order: Order, timed: bool, t: Tid)
    requires Inv(k) && WaitQ(w) in k.lists && k.tcbs[k.current].stat == Running && Known(k, k.current) && Lists(k)
    ensures Off(Block(k, w, order, timed), t) <==> Off(k, t) && t != k.current
  {
    hide Inv, Off, SuspendThread, Lists, Position;
    RunningOff(k);
    var c := k.current;
    var k0 := SetError(k, c, EOK);
    SetErrorInv(k, c, EOK);
    SuspendedLists(k0, c, w);
    var k1 := SuspendThread(k0, c);
    var l := k1.lists[WaitQ(w)];
    var i := Position(k1.tcbs, l, k1.tcbs[c].prio, order);
    SameLists(k, k0, t);
    SuspendOff(k0, c, t);
    LinkOff(k1, WaitQ(w), i, c, t);
    var k2 := LinkAt(k1, WaitQ(w), i, c);
    SameLists(k2, Block(k, w, order, timed), t);
  }

  lemma SuspendedLists(k: State, c: Tid, w: Wid)
    requires Inv(k) && WaitQ(w) in k.lists && c in k.tcbs && k.tcbs[c].stat == Running
    ensures Known(k, c)
    ensures var k1 := SuspendThread(k, c);
      WaitQ(w) in k1.lists && c in k1.tcbs && forall u :: u in k1.lists[WaitQ(w)] ==> u in k1.tcbs
  {
    hide Placement, InTransit;
    SuspendThreadInv(k, c);
    hide Inv, SuspendThread;
    InvTables(SuspendThread(k, c));
  }

  lemma ResumeAllOff(k: State, w: Wid, t: Tid)
    requires Inv(k) && WaitQ(w) in k.lists
    ensures Off(ResumeAll(k, w), t) <==> if t in k.lists[WaitQ(w)] then t == k.current else Off(k, t)
    decreases |k.lists[WaitQ(w)]|
  {
    hide Inv, Off, ResumeThread;
    var l := k.lists[WaitQ(w)];
    if l != [] {
      WaiterInv(k, w, l[0]);
      ResumeFirstInv(k, w);
      ResumeFirstOff(k, w, t);
      ResumeAllOff(ResumeFirstWithError(k, w), w, t);
      NoDupWaiters(k, w);
      hide ResumeFirstWithError, Without;
      assert t in l <==> t == l[0] || t in l[1..];
    }
  }

  lemma NoDupWaiters(k: State, w: Wid)
    requires Inv(k) && WaitQ(w) in k.lists && k.lists[WaitQ(w)] != []
    ensures k.lists[WaitQ(w)][0] !in k.lists[WaitQ(w)][1..]
  {
    InvTables(k);
  }

  lemma ResumeFirstOff(k: State, w: Wid, t: Tid)
    requires Inv(k) && WaitQ(w) in k.lists && k.lists[WaitQ(w)] != []
    ensures var u := k.lists[WaitQ(w)][0];
      Off(ResumeFirstWithError(k, w), t) <==> if t == u then t == k.current else Off(k, t)
  {
    hide Inv, Off;
    var u := k.lists[WaitQ(w)][0];
    WaiterInv(k, w, u);
    var k0 := SetError(k, u, ERROR);
    SameLists(k, k0, t);
    WakeOff(k0, u, ERROR, t);
    hide Wake;
  }

  lemma CallOff(k: State, s: Step, t: Tid)
    requires Inv(k) && Enabled(k, s) && t in k.tcbs
    requires !s.DoSchedule? && !s.DoChangePriority? && !s.DoTimeout? && !s.DoResume? && !s.DoSuspend?
    requires !s.DoSleep? && !s.DoBlock? && !s.DoResumeAll?
    ensures Off(Apply(k, s), t) <==> (Off(k, t) && !Links(k, s, t)) || Unlinks(k, s, t)
  {
    hide Inv, Off, RemoveThread, InsertThread, Dropped, Loose;
    if s.DoSuspendTake? {
      SuspendTakeInv(k, s.t);
      RemoveOff(k, s.t, t);
      SameLists(RemoveThread(k, s.t), Apply(k, s), t);
    } else if s.DoResumeUnlink? {
      UnlinkOff(k, s.t, t);
      SameLists(Unlink(k, s.t), Apply(k, s), t);
      hide Unlink;
    } else if s.DoResumeInsert? {
      ResumeInsertInv(k, s.t);
      InsertOff(k, s.t, t);
      SameLists(InsertThread(k, s.t), Apply(k, s), t);
    } else if s.DoDeleteRemove? {
      DeleteRemoveInv(k, s.t);
      RemoveCallOff(k, s.t, t);
      hide DeleteRemove;
    } else if s.DoDeleteBury? {
      InvTables(k);
      LinkOff(k, Defunct, 0, s.t, t);
      SameLists(LinkAt(k, Defunct, 0, s.t), Apply(k, s), t);
    } else if s.DoExit? {
      ExitInv(k, s.bury);
      ExitOff(k, s.bury, t);
      hide Exit;
    } else {
      SameLists(k, Apply(k, s), t);
    }
  }

  lemma RemoveCallOff(k: State, u: Tid, t: Tid)
    requires Inv(k) && u in k.tcbs && k.tcbs[u].stat != Close && (k.tcbs[u].stat != Init ==> Known(k, u))
    ensures Off(DeleteRemove(k, u), t) <==> t == u || Off(k, t)
  {
    hide Inv, Off, RemoveThread, Dropped;
    DeleteRemoveInv(k, u);
    if k.tcbs[u].stat != Init {
      RemoveOff(k, u, t);
      SameLists(RemoveThread(k, u), DeleteRemove(k, u), t);
    } else {
      SameLists(k, DeleteRemove(k, u), t);
    }
  }

  lemma ExitOff(k: State, bury: bool, t: Tid)
    requires Inv(k) && k.tcbs[k.current].stat == Running && Known(k, k.current) && Defunct in k.lists
    ensures Off(Exit(k, bury), t) <==> Off(k, t) && !(bury && t == k.current)
  {
    hide Inv, Off, RemoveThread;
    RunningOff(k);
    var c := k.current;
    RemoveOff(k, c, t);
    RemoveKeeps(k, c);
    var k1 := SetTcb(RemoveThread(k, c), c, k.tcbs[c].(stat := Close, timerOn := false));
    SameLists(RemoveThread(k, c), k1, t);
    if bury { LinkOff(k1, Defunct, 0, c, t); }
  }

  lemma ScheduleOff(k: State, t: Tid)
    requires Inv(k) && t in k.tcbs
    ensures var s := DoSchedule; Off(Schedule(k), t) <==> (Off(k, t) && !Links(k, s, t)) || Unlinks(k, s, t)
    ensures !(Links(k, DoSchedule, t) && Unlinks(k, DoSchedule, t))
  {
    hide Inv, Off, RemoveThread, SwitchTo;
    InvCurrent(k);
    if k.lockNest == 0 && k.bits.group != 0 {
      HighestKnown(k);
      var to := k.lists[ReadyQ(HighestOf(k))][0];
      FrontIsReady(k, HighestOf(k));
      if Choice(k) == k.current {
        RunningOff(k);
        RemoveOff(k, k.current, t);
        SameLists(RemoveThread(k, k.current), Schedule(k), t);
      } else {
        SwitchOff(k, to, t);
      }
    }
  }

  lemma SwitchOff(k: State, to: Tid, t: Tid)
    requires Inv(k) && to in k.tcbs && k.tcbs[to].stat == Ready && Known(k, to) && to != k.current
    requires k.tcbs[k.current].stat == Running ==> Known(k, k.current)
    ensures Off(SwitchTo(k, to), t) <==>
      t == to || (Off(k, t) && !(t == k.current && k.tcbs[t].stat == Running))
  {
    hide Inv, Off, RemoveThread, InsertThread;
    InvCurrent(k);
    var from := k.current;
    var k1 := k.(current := to);
    SameLists(k, k1, t);
    var k2 := if k.tcbs[from].stat == Running then InsertThread(k1, from) else k1;
    if k.tcbs[from].stat == Running { InsertOff(k1, from, t); InsertKeeps(k1, from); }
    RemoveOff(k2, to, t);
    SameLists(RemoveThread(k2, to), SwitchTo(k, to), t);
  }

  lemma InsertKeeps(k: State, u: Tid)
    requires Known(k, u)
    ensures var k1 := InsertThread(k, u); k1.tcbs.Keys == k.tcbs.Keys && forall v :: v in k.tcbs && Known(k, v) ==> Known(k1, v)
  {
  }

  /** A step leaves thread t on no list iff it takes it off, or it was off and the step does not link it. */
  lemma OffStep(k: State, s: Step, t: Tid)
    requires Inv(k) && Enabled(k, s) && t in k.tcbs
    ensures Off(Apply(k, s), t) <==> (Off(k, t) && !Links(k, s, t)) || Unlinks(k, s, t)
    ensures !(Links(k, s, t) && Unlinks(k, s, t))
  {
    hide Inv, Off, Schedule, Startup, ChangePriority, Wake, SuspendThread, Sleep, Block, ResumeAll, Choice;
    hide Loose, Woken, Blocked, Asleep, PriorityChanged, ResumeUnlink, ResumeInsert, DeleteRemove, DeleteBury, Exit;
    match s {
      case DoSchedule => ScheduleOff(k, t);
      case DoChangePriority(u, p) => InvTables(k); ChangePriorityInv(k, u, p); ChangeOff(k, u, p, t);
      case DoTimeout(u) => TimeoutInv(k, u); WakeOff(k, u, ETIMEOUT, t);
      case DoResume(u) => ResumeThreadInv(k, u); WakeOff(k, u, k.tcbs[u].error, t);
      case DoSuspend(u) => SuspendLife(k, u); SuspendOff(k, u, t);
      case DoSleep => RunningOff(k); SleepOff(k, t);
      case DoBlock(w, order, timed) => InvTables(k); RunningOff(k); BlockOff(k, w, order, timed, t);
      case DoResumeAll(w) => ResumeAllOff(k, w, t); OnList(k, WaitQ(w), t);
      case _ => CallOff(k, s, t);
    }
  }

  // ---------- between the regions ----------

  function DeletionsAfter(d: map<Tid, Deletion>, s: Step): map<Tid, Deletion> {
    match s
    case DoDeleteRemove(t) => d[t := Unlisted]
    case DoDeleteTimer(t) => d[t := Untimed]
    case DoDeleteClose(t) => d[t := Closed]
    case DoDeleteBury(t) => d - {t}
    case _ => d
  }

  ghost predicate SameCalls(k: State, k1: State) {
    k1.deletions == k.deletions && k1.current == k.current
  }

  /** Only the regions of rt_thread_delete move a deletion on, and only rt_schedule changes the current thread. */
  lemma CallsFrame(k: State, s: Step)
    requires Inv(k) && Enabled(k, s)
    ensures Apply(k, s).deletions == DeletionsAfter(k.deletions, s)
    ensures Apply(k, s).current == if s.DoSchedule? then Choice(k) else k.current
  {
    hide Inv, Off, Loose, Schedule, Wake, InsertThread, RemoveThread, ChangePriority, SuspendThread, Block, ResumeAll;
    if s.DoSchedule? {
      ScheduleCalls(k);
    } else if s.DoResumeAll? {
      ResumeAllCalls(k, s.w);
    } else if s.DoBlock? {
      BlockInv(k, s.w, s.order, s.timed);
      InvTables(k);
      BlockCalls(k, s.w, s.order, s.timed);
      hide Lists;
    } else if s.DoTimeout? {
      TimeoutInv(k, s.t);
      WakeCalls(k, s.t, ETIMEOUT);
    } else if s.DoResume? {
      ResumeThreadInv(k, s.t);
      WakeCalls(k, s.t, k.tcbs[s.t].error);
    } else if s.DoChangePriority? {
      InvTables(k);
      ChangePriorityInv(k, s.t, s.p);
      ChangeCalls(k, s.t, s.p);
      hide Lists;
    } else {
      OtherCalls(k, s);
    }
  }

  lemma WakeCalls(k: State, t: Tid, e: Err)
    requires Known(k, t)
    ensures SameCalls(k, Wake(k, t, e))
  {
  }

  lemma ChangeCalls(k: State, t: Tid, p: nat)
    requires Known(k, t) && ReadyQ(p) in k.lists && (k.bits.TwoLevel? ==> p / 8 < |k.bits.table|)
    ensures SameCalls(k, ChangePriority(k, t, p))
  {
    hide Without;
  }

  lemma SuspendCalls(k: State, t: Tid)
    requires Known(k, t)
    ensures SameCalls(k, SuspendThread(k, t))
  {
    hide Without;
  }

  lemma BlockCalls(k: State, w: Wid, order: Order, timed: bool)
    requires Known(k, k.current) && WaitQ(w) in k.lists && Lists(k)
    ensures SameCalls(k, Block(k, w, order, timed))
  {
    SuspendCalls(SetError(k, k.current, EOK), k.current);
    hide SuspendThread, Lists, Position;
  }

  lemma OtherCalls(k: State, s: Step)
    requires Inv(k) && Enabled(k, s)
    requires !s.DoSchedule? && !s.DoResumeAll? && !s.DoBlock? && !s.DoTimeout? && !s.DoResume? && !s.DoChangePriority?
    ensures Apply(k, s).deletions == DeletionsAfter(k.deletions, s) && Apply(k, s).current == k.current
  {
    hide Inv, Off, Loose, SuspendThread, InsertThread, RemoveThread, Without;
    if s.DoSuspend? {
      KnownStarted(k, s.t);
      SuspendCalls(k, s.t);
    } else if s.DoSleep? {
      KnownStarted(k, k.current);
      SuspendCalls(k, k.current);
    } else if s.DoResumeInsert? {
      KnownStarted(k, s.t);
      InsertCalls(k, s.t);
    } else if s.DoSuspendTake? {
      KnownStarted(k, s.t);
      RemoveKeeps(k, s.t);
    } else if s.DoDeleteRemove? && k.tcbs[s.t].stat != Init {
      KnownStarted(k, s.t);
      RemoveKeeps(k, s.t);
    } else if s.DoExit? {
      KnownStarted(k, k.current);
      RemoveKeeps(k, k.current);
      InvTables(k);
      hide Lists;
    } else if s.DoDeleteBury? {
      InvTables(k);
      hide Lists;
    }
  }

  lemma InsertCalls(k: State, t: Tid)
    requires Known(k, t)
    ensures SameCalls(k, InsertThread(k, t))
  {
  }

  lemma KnownStarted(k: State, t: Tid)
    requires Inv(k) && t in k.tcbs && Started(k.tcbs[t])
    ensures Known(k, t)
  {
    InvPlaces(k, t);
    ReadyKnown(k, t);
  }

  lemma ScheduleCalls(k: State)
    requires Inv(k)
    ensures Schedule(k).deletions == k.deletions && Schedule(k).current == Choice(k)
  {
    hide Inv, Without, SwitchTo, RemoveThread;
    InvCurrent(k);
    if k.lockNest == 0 && k.bits.group != 0 {
      HighestKnown(k);
      var to := k.lists[ReadyQ(HighestOf(k))][0];
      FrontIsReady(k, HighestOf(k));
      SwitchToInv(k, to);
      SwitchCalls(k, to);
      if k.tcbs[k.current].stat == Running { KnownStarted(k, k.current); RemoveKeeps(k, k.current); }
    }
    hide Base, HighestOf;
  }

  lemma SwitchCalls(k: State, to: Tid)
    requires Known(k, to) && to != k.current && k.current in k.tcbs && (k.tcbs[k.current].stat == Running ==> Known(k, k.current))
    ensures SwitchTo(k, to).deletions == k.deletions && SwitchTo(k, to).current == to
  {
    hide Without;
  }

  lemma ResumeAllCalls(k: State, w: Wid)
    requires Inv(k) && WaitQ(w) in k.lists
    ensures ResumeAll(k, w).deletions == k.deletions && ResumeAll(k, w).current == k.current
    decreases |k.lists[WaitQ(w)]|
  {
    hide Inv, Without;
    if k.lists[WaitQ(w)] != [] {
      WaiterInv(k, w, k.lists[WaitQ(w)][0]);
      ResumeFirstInv(k, w);
      ResumeAllCalls(ResumeFirstWithError(k, w), w);
    }
  }
}
