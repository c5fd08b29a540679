/** The order of the ready queues of rt-thread/src/scheduler.c: what every step does to each of them. */
module KernelAnswers {
  import opened Seqs
  import opened ReadyBitmap
  import opened KernelSpec
  import opened KernelRuns

  /** Does the step take thread t off whatever list it is on? */
  ghost predicate TakesOff(k: State, s: Step, t: Tid)
    requires Inv(k)
  {
    match s
    case DoSchedule => t == Choice(k)
    case DoChangePriority(u, _) => t == u
    case DoTimeout(u) => t == u
    case DoSuspend(u) => t == u
    case DoSuspendTake(u) => t == u
    case DoResume(u) => t == u
    case DoResumeUnlink(u) => t == u
    case DoDeleteRemove(u) => t == u
    case DoExit(_) => t == k.current
    case DoSleep => t == k.current
    case DoBlock(_, _, _) => t == k.current
    case _ => false
  }

  /** The threads that come into the ready queues, in this order: one that has to make way for another, one whose
      priority changes while it is READY, one that is woken or resumed, all that are woken together. The current thread
      goes on running instead. */
  ghost function Coming(k: State, s: Step): seq<Tid>
    requires Inv(k) && Enabled(k, s)
  {
    hide Inv, Off, Loose, Takeable, Choice;
    InvCurrent(k);
    match s
    case DoSchedule => if Choice(k) != k.current && k.tcbs[k.current].stat == Running then [k.current] else []
    case DoChangePriority(t, _) => if k.tcbs[t].stat == Ready then [t] else []
    case DoTimeout(t) => if t == k.current then [] else [t]
    case DoResume(t) => if t == k.current then [] else [t]
    case DoResumeInsert(t) => if t == k.current then [] else [t]
    case DoResumeAll(w) => Without(k.lists[WaitQ(w)], k.current)
    case _ => []
  }

  /** Those of priority p, in order. */
  function OfPriority(l: seq<Tid>, tcbs: map<Tid, Tcb>, p: nat): seq<Tid> {
    if l == [] then []
    else (if l[0] in tcbs && tcbs[l[0]].prio == p then [l[0]] else []) + OfPriority(l[1..], tcbs, p)
  }

  /** The members of q that the step does not take off, in order. */
  ghost function Staying(k: State, s: Step, q: seq<Tid>): seq<Tid>
    requires Inv(k)
  {
    if q == [] then [] else (if TakesOff(k, s, q[0]) then [] else [q[0]]) + Staying(k, s, q[1..])
  }

  lemma {:induction false} StaysWithout(k: State, s: Step, q: seq<Tid>, t: Tid)
    requires Inv(k) && forall u :: TakesOff(k, s, u) <==> u == t
    ensures Staying(k, s, q) == Without(q, t)
  {
    hide Inv, TakesOff;
    if q != [] {
      assert TakesOff(k, s, q[0]) <==> q[0] == t;
      StaysWithout(k, s, q[1..], t);
    }
  }

  lemma {:induction false} StaysAll(k: State, s: Step, q: seq<Tid>)
    requires Inv(k) && forall u :: u in q ==> !TakesOff(k, s, u)
    ensures Staying(k, s, q) == q
  {
    hide Inv, TakesOff;
    if q != [] {
      assert !TakesOff(k, s, q[0]);
      StaysAll(k, s, q[1..]);
      assert q == [q[0]] + q[1..];
    }
  }

  /** Every ready queue is first come, first served: a step leaves those in it that it does not take off in their order,
      and puts those that come in at the end. */
  lemma QueueOrder(k: State, s: Step, p: nat)
    requires Inv(k) && Enabled(k, s) && p < k.bits.Levels()
    ensures ReadyQ(p) in k.lists && ReadyQ(p) in Apply(k, s).lists
    ensures Apply(k, s).lists[ReadyQ(p)] == Staying(k, s, k.lists[ReadyQ(p)]) + OfPriority(Coming(k, s), Apply(k, s).tcbs, p)
  {
    hide Inv, Apply, TakesOff, Staying, OfPriority, Coming, Choice;
    InvTables(k);
    match s {
      case DoSchedule => ScheduleOrder(k, p);
      case DoChangePriority(_, _) => PriorityOrder(k, s, p);
      case DoTimeout(_) => WakeOrder(k, s, p);
      case DoResume(_) => WakeOrder(k, s, p);
      case DoResumeInsert(_) => ResumeInsertOrder(k, s, p);
      case DoResumeAll(_) => ResumeAllOrder(k, s, p);
      case DoSuspend(_) => LeaveOrder(k, s, p);
      case DoSuspendTake(_) => LeaveOrder(k, s, p);
      case DoResumeUnlink(_) => LeaveOrder(k, s, p);
      case DoDeleteRemove(_) => LeaveOrder(k, s, p);
      case DoExit(_) => CurrentLeaves(k, s, p);
      case DoSleep => CurrentLeaves(k, s, p);
      case DoBlock(_, _, _) => BlockOrder(k, s, p);
      case _ => SameOrder(k, s, p);
    }
  }

  lemma OneComing(t: Tid, tcbs: map<Tid, Tcb>, p: nat)
    requires t in tcbs
    ensures OfPriority([t], tcbs, p) == if tcbs[t].prio == p then [t] else []
    ensures OfPriority([], tcbs, p) == []
  {
  }

  lemma SameOrder(k: State, s: Step, p: nat)
    requires Inv(k) && Enabled(k, s) && p < k.bits.Levels() && ReadyQ(p) in k.lists
    requires s.EnterCritical? || s.ExitCritical? || s.DoStartup? || s.DoSuspendTest? || s.DoResumeTest? || s.DoDeleteTimer?
      || s.DoDeleteClose? || s.DoDeleteBury? || s.DoSetError? || s.DoSetEvents?
    ensures ReadyQ(p) in Apply(k, s).lists
    ensures Apply(k, s).lists[ReadyQ(p)] == Staying(k, s, k.lists[ReadyQ(p)]) + OfPriority(Coming(k, s), Apply(k, s).tcbs, p)
  {
    hide Inv, Staying, Off, Loose;
    StaysAll(k, s, k.lists[ReadyQ(p)]);
  }

  lemma LeaveOrder(k: State, s: Step, p: nat)
    requires Inv(k) && Enabled(k, s) && p < k.bits.Levels() && ReadyQ(p) in k.lists
    requires s.DoSuspend? || s.DoSuspendTake? || s.DoResumeUnlink? || s.DoDeleteRemove?
    ensures ReadyQ(p) in Apply(k, s).lists
    ensures Apply(k, s).lists[ReadyQ(p)] == Staying(k, s, k.lists[ReadyQ(p)]) + OfPriority(Coming(k, s), Apply(k, s).tcbs, p)
  {
    hide Inv, Staying, Off, Loose, Takeable, Known;
    StaysWithout(k, s, k.lists[ReadyQ(p)], s.t);
    if s.DoDeleteRemove? && k.tcbs[s.t].stat == Init { NotReady(k, s.t, p); }
  }

  lemma CurrentLeaves(k: State, s: Step, p: nat)
    requires Inv(k) && Enabled(k, s) && p < k.bits.Levels() && ReadyQ(p) in k.lists && (s.DoExit? || s.DoSleep?)
    ensures ReadyQ(p) in Apply(k, s).lists
    ensures Apply(k, s).lists[ReadyQ(p)] == Staying(k, s, k.lists[ReadyQ(p)]) + OfPriority(Coming(k, s), Apply(k, s).tcbs, p)
  {
    hide Inv, Staying, Known;
    StaysWithout(k, s, k.lists[ReadyQ(p)], k.current);
  }

  /** A thread that is not READY is in no ready queue. */
  lemma NotReady(k: State, t: Tid, p: nat)
    requires Inv(k) && t in k.tcbs && k.tcbs[t].stat != Ready && ReadyQ(p) in k.lists
    ensures Without(k.lists[ReadyQ(p)], t) == k.lists[ReadyQ(p)] && t !in k.lists[ReadyQ(p)]
  {
    assert Placed(k, t);
  }

  lemma BlockOrder(k: State, s: Step, p: nat)
    requires Inv(k) && Enabled(k, s) && p < k.bits.Levels() && ReadyQ(p) in k.lists && s.DoBlock?
    ensures ReadyQ(p) in Apply(k, s).lists
    ensures Apply(k, s).lists[ReadyQ(p)] == Staying(k, s, k.lists[ReadyQ(p)]) + OfPriority(Coming(k, s), Apply(k, s).tcbs, p)
  {
    hide Inv, Staying, Known, Position;
    StaysWithout(k, s, k.lists[ReadyQ(p)], k.current);
  }

  lemma PriorityOrder(k: State, s: Step, p: nat)
    requires Inv(k) && Enabled(k, s) && p < k.bits.Levels() && ReadyQ(p) in k.lists && s.DoChangePriority?
    ensures ReadyQ(p) in Apply(k, s).lists
    ensures Apply(k, s).lists[ReadyQ(p)] == Staying(k, s, k.lists[ReadyQ(p)]) + OfPriority(Coming(k, s), Apply(k, s).tcbs, p)
  {
    hide Inv, Staying, OfPriority, Known, RemoveThread, InsertThread;
    StaysWithout(k, s, k.lists[ReadyQ(p)], s.t);
    CurrentNotReady(k);
    InvTables(k);
    ChangePriorityInv(k, s.t, s.p);
    OneComing(s.t, Apply(k, s).tcbs, p);
    if k.tcbs[s.t].stat != Ready {
      NotReady(k, s.t, p);
    } else {
      Moved(k, s.t, s.p, p);
      hide ChangePriority;
    }
  }

  lemma CurrentNotReady(k: State)
    requires Inv(k)
    ensures k.current in k.tcbs && k.tcbs[k.current].stat != Ready
  {
  }

  lemma Moved(k: State, t: Tid, p: nat, q: nat)
    requires Known(k, t) && k.tcbs[t].stat == Ready && t != k.current && ReadyQ(p) in k.lists && ReadyQ(q) in k.lists
    requires k.bits.TwoLevel? ==> p / 8 < |k.bits.table|
    ensures ChangePriority(k, t, p).lists[ReadyQ(q)] == Without(k.lists[ReadyQ(q)], t) + (if p == q then [t] else [])
  {
  }

  lemma WakeOrder(k: State, s: Step, p: nat)
    requires Inv(k) && Enabled(k, s) && p < k.bits.Levels() && ReadyQ(p) in k.lists && (s.DoTimeout? || s.DoResume?)
    ensures ReadyQ(p) in Apply(k, s).lists
    ensures Apply(k, s).lists[ReadyQ(p)] == Staying(k, s, k.lists[ReadyQ(p)]) + OfPriority(Coming(k, s), Apply(k, s).tcbs, p)
  {
    hide Inv, Staying, OfPriority, Wake, Woken;
    var t := s.t;
    StaysWithout(k, s, k.lists[ReadyQ(p)], t);
    TimedSuspended(k, t);
    WakeInv(k, t, if s.DoTimeout? then ETIMEOUT else k.tcbs[t].error);
    WokenAt(k, t, if s.DoTimeout? then ETIMEOUT else k.tcbs[t].error, p);
    OneComing(t, Apply(k, s).tcbs, p);
  }

  lemma TimedSuspended(k: State, t: Tid)
    requires Inv(k) && t in k.tcbs && (k.tcbs[t].timerOn || k.tcbs[t].stat == Suspend)
    ensures k.tcbs[t].stat == Suspend
  {
    assert Placed(k, t);
  }

  lemma WokenAt(k: State, t: Tid, e: Err, p: nat)
    requires Known(k, t) && ReadyQ(p) in k.lists
    ensures var k1 := Wake(k, t, e);
      && ReadyQ(p) in k1.lists && t in k1.tcbs && k1.tcbs[t].prio == k.tcbs[t].prio
      && k1.lists[ReadyQ(p)] == Without(k.lists[ReadyQ(p)], t) + (if t != k.current && k.tcbs[t].prio == p then [t] else [])
  {
  }

  lemma ResumeInsertOrder(k: State, s: Step, p: nat)
    requires Inv(k) && Enabled(k, s) && p < k.bits.Levels() && ReadyQ(p) in k.lists && s.DoResumeInsert?
    ensures ReadyQ(p) in Apply(k, s).lists
    ensures Apply(k, s).lists[ReadyQ(p)] == Staying(k, s, k.lists[ReadyQ(p)]) + OfPriority(Coming(k, s), Apply(k, s).tcbs, p)
  {
    hide Inv, Staying, OfPriority;
    StaysAll(k, s, k.lists[ReadyQ(p)]);
    ResumeInsertInv(k, s.t);
    OneComing(s.t, Apply(k, s).tcbs, p);
  }

  lemma ScheduleOrder(k: State, p: nat)
    requires Inv(k) && p < k.bits.Levels() && ReadyQ(p) in k.lists
    ensures ReadyQ(p) in Apply(k, DoSchedule).lists
    ensures Apply(k, DoSchedule).lists[ReadyQ(p)]
      == Staying(k, DoSchedule, k.lists[ReadyQ(p)]) + OfPriority(Coming(k, DoSchedule), Apply(k, DoSchedule).tcbs, p)
  {
    hide Inv, Staying, OfPriority, Schedule, Scheduled, Choice;
    StaysWithout(k, DoSchedule, k.lists[ReadyQ(p)], Choice(k));
    InvCurrent(k);
    ScheduledQueue(k, p);
    SamePriorities(k);
    OneComing(k.current, Apply(k, DoSchedule).tcbs, p);
  }

  lemma ScheduledQueue(k: State, p: nat)
    requires Inv(k) && p < k.bits.Levels() && ReadyQ(p) in k.lists && k.current in k.tcbs
    ensures ReadyQ(p) in Schedule(k).lists
    ensures Schedule(k).lists[ReadyQ(p)] == Without(k.lists[ReadyQ(p)], Choice(k))
      + (if Choice(k) != k.current && k.tcbs[k.current].stat == Running && k.tcbs[k.current].prio == p then [k.current] else [])
  {
    hide Inv, SwitchTo, Schedule, Choice, RemoveThread, Known;
    InvCurrent(k);
    NotReady(k, k.current, p);
    ScheduleIs(k);
    if Choice(k) != k.current {
      SwitchedAt(k, Choice(k), p);
    } else if Schedule(k) != k {
      TakenOut(k, k.current, p);
    }
  }

  /** The ways rt_schedule can go. */
  lemma ScheduleIs(k: State)
    requires Inv(k)
    ensures k.current in k.tcbs
    ensures if Choice(k) == k.current then
              || Schedule(k) == k
              || (Known(k, k.current) && Schedule(k) == SetTcb(RemoveThread(k, k.current), k.current, k.tcbs[k.current].(stat := Running)))
            else
              && Known(k, Choice(k)) && (k.tcbs[k.current].stat == Running ==> Known(k, k.current))
              && Schedule(k) == SwitchTo(k, Choice(k))
  {
    hide Inv, SwitchTo, RemoveThread;
    InvCurrent(k);
    if k.lockNest == 0 && k.bits.group != 0 {
      HighestKnown(k);
      FrontIsReady(k, HighestOf(k));
      ReadyKnown(k, Choice(k));
    }
  }

  lemma TakenOut(k: State, t: Tid, p: nat)
    requires Known(k, t) && ReadyQ(p) in k.lists
    ensures ReadyQ(p) in RemoveThread(k, t).lists && RemoveThread(k, t).lists[ReadyQ(p)] == Without(k.lists[ReadyQ(p)], t)
  {
  }

  lemma SamePriorities(k: State)
    requires Inv(k)
    ensures k.current in Schedule(k).tcbs && Schedule(k).tcbs[k.current].prio == k.tcbs[k.current].prio
  {
    hide Inv, Schedule, Choice;
    InvCurrent(k);
    ScheduleEffect(k);
  }

  lemma SwitchedAt(k: State, to: Tid, p: nat)
    requires Inv(k) && Known(k, to) && to != k.current && k.current in k.tcbs && ReadyQ(p) in k.lists
    requires k.tcbs[k.current].stat == Running ==> Known(k, k.current)
    ensures ReadyQ(p) in SwitchTo(k, to).lists
    ensures SwitchTo(k, to).lists[ReadyQ(p)]
      == Without(k.lists[ReadyQ(p)], to) + (if k.tcbs[k.current].stat == Running && k.tcbs[k.current].prio == p then [k.current] else [])
  {
    hide Inv;
    WithoutConcat(k.lists[ReadyQ(p)], [k.current], to);
  }

  lemma ResumeAllOrder(k: State, s: Step, p: nat)
    requires Inv(k) && Enabled(k, s) && p < k.bits.Levels() && ReadyQ(p) in k.lists && s.DoResumeAll?
    ensures ReadyQ(p) in Apply(k, s).lists
    ensures Apply(k, s).lists[ReadyQ(p)] == Staying(k, s, k.lists[ReadyQ(p)]) + OfPriority(Coming(k, s), Apply(k, s).tcbs, p)
  {
    hide Inv, Staying, OfPriority, ResumeAll, AllWoken;
    StaysAll(k, s, k.lists[ReadyQ(p)]);
    AllComing(k, s.w, p);
    ResumeAllInv(k, s.w);
    WokenPriorities(k, Apply(k, s), s.w);
    SameOfPriority(Without(k.lists[WaitQ(s.w)], k.current), k.tcbs, Apply(k, s).tcbs, p);
  }

  lemma WokenPriorities(k: State, k1: State, w: Wid)
    requires WaitQ(w) in k.lists && AllWoken(k, k1, w)
    ensures forall u :: u in k.tcbs <==> u in k1.tcbs
    ensures forall u :: u in k.tcbs ==> k1.tcbs[u].prio == k.tcbs[u].prio
  {
    forall u | u in k.tcbs ensures u in k1.tcbs && k1.tcbs[u].prio == k.tcbs[u].prio { assert u in k.lists[WaitQ(w)] || u !in k.lists[WaitQ(w)]; }
  }

  lemma {:induction false} SameOfPriority(l: seq<Tid>, tcbs: map<Tid, Tcb>, tcbs1: map<Tid, Tcb>, p: nat)
    requires (forall u :: u in tcbs <==> u in tcbs1) && forall u :: u in tcbs ==> tcbs1[u].prio == tcbs[u].prio
    ensures OfPriority(l, tcbs1, p) == OfPriority(l, tcbs, p)
  {
    if l != [] { SameOfPriority(l[1..], tcbs, tcbs1, p); }
  }

  /** rt_ipc_list_resume_all, one waiter after the other. */
  lemma {:induction false} AllComing(k: State, w: Wid, p: nat)
    requires Inv(k) && WaitQ(w) in k.lists && ReadyQ(p) in k.lists
    ensures ReadyQ(p) in ResumeAll(k, w).lists
    ensures ResumeAll(k, w).lists[ReadyQ(p)] == k.lists[ReadyQ(p)] + OfPriority(Without(k.lists[WaitQ(w)], k.current), k.tcbs, p)
    decreases |k.lists[WaitQ(w)]|
  {
    hide Inv, OfPriority, ResumeFirstWithError, Woken;
    var l := k.lists[WaitQ(w)];
    if l == [] {
      assert OfPriority([], k.tcbs, p) == [] by { NobodyComing(k.tcbs, p); }
    } else {
      ResumeFirstInv(k, w);
      var k1 := ResumeFirstWithError(k, w);
      FirstComes(k, w, p);
      WokenSame(k, k1, l[0]);
      AllComing(k1, w, p);
      SameOfPriority(Without(l[1..], k.current), k.tcbs, k1.tcbs, p);
      FirstOfPriority(l, k.current, k.tcbs, p);
    }
  }

  lemma NobodyComing(tcbs: map<Tid, Tcb>, p: nat)
    ensures OfPriority([], tcbs, p) == []
  {
  }

  lemma WokenSame(k: State, k1: State, t: Tid)
    requires t in k.tcbs && Woken(k, k1, t, ERROR)
    ensures (forall u :: u in k.tcbs <==> u in k1.tcbs) && (forall u :: u in k.tcbs ==> k1.tcbs[u].prio == k.tcbs[u].prio)
    ensures k1.current == k.current && k1.lists.Keys == k.lists.Keys
  {
  }

  lemma FirstOfPriority(l: seq<Tid>, c: Tid, tcbs: map<Tid, Tcb>, p: nat)
    requires l != [] && l[0] in tcbs
    ensures OfPriority(Without(l, c), tcbs, p)
      == (if l[0] != c && tcbs[l[0]].prio == p then [l[0]] else []) + OfPriority(Without(l[1..], c), tcbs, p)
  {
    if l[0] != c { assert ([l[0]] + Without(l[1..], c))[1..] == Without(l[1..], c); }
  }

  lemma FirstComes(k: State, w: Wid, p: nat)
    requires Inv(k) && WaitQ(w) in k.lists && k.lists[WaitQ(w)] != [] && ReadyQ(p) in k.lists
    ensures var t, k1 := k.lists[WaitQ(w)][0], ResumeFirstWithError(k, w);
      && t in k.tcbs && ReadyQ(p) in k1.lists
      && k1.lists[ReadyQ(p)] == k.lists[ReadyQ(p)] + (if t != k.current && k.tcbs[t].prio == p then [t] else [])
  {
    hide Inv, Wake;
    var t := k.lists[WaitQ(w)][0];
    WaiterInv(k, w, t);
    NotReady(k, t, p);
    WokenAt(SetError(k, t, ERROR), t, ERROR, p);
  }
}
