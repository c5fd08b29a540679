/** The kernel as the C code runs it: global variables assigned step by step. Every method is
    shown to have the effect that KernelSpec gives it. */
module KernelObject {
  import opened Seqs
  import opened ReadyBitmap
  import opened KernelSpec
  import KernelRuns

  class Kernel {
    var tcbs: map<Tid, Tcb>
    var bits: Bitmap
    var lists: map<Queue, seq<Tid>>
    var current: Tid
    var lockNest: nat
    ghost var deletions: map<Tid, Deletion>
    ghost var pending: Underway

    ghost function St(): State
      reads this
    {
      State(tcbs, bits, lists, current, lockNest, deletions, pending)
    }

    /** The kernel once rtthread_startup has started the threads ts and then the scheduler. */
    constructor (k: State, ghost k0: State, ghost ts: seq<Tid>)
      requires KernelRuns.BootedFrom(k0, ts, k)
      ensures St() == k && Inv(St())
    {
      tcbs, bits, lists, current, lockNest := k.tcbs, k.bits, k.lists, k.current, k.lockNest;
      deletions, pending := k.deletions, k.pending;
      new;
      KernelRuns.BootedInv(k0, ts, k);
    }

    /** thread->error = e */
    method SetThreadError(t: Tid, e: Err)
      requires t in tcbs
      modifies this`tcbs
      ensures St() == SetError(old(St()), t, e)
    {
      tcbs := tcbs[t := tcbs[t].(error := e)];
    }

    /** thread->event_set and thread->event_info */
    method SetThreadEvents(t: Tid, events: bv32, info: EventInfo)
      requires t in tcbs
      modifies this`tcbs
      ensures tcbs == old(tcbs)[t := old(tcbs)[t].(eventSet := events, eventInfo := info)]
    {
      tcbs := tcbs[t := tcbs[t].(eventSet := events, eventInfo := info)];
    }

    /** rt_list_remove(&t->tlist) */
    method ListRemove(t: Tid)
      modifies this`lists
      ensures lists == Unlink(old(St()), t).lists && lists.Keys == old(lists.Keys)
      ensures forall k: State :: k.lists == old(lists) ==> Unlink(k, t) == k.(lists := lists)
    {
      lists := map q | q in lists :: Without(lists[q], t);
    }

    /** The frame of the two scheduler primitives. */
    static ghost predicate OtherwiseSame(k: State, k1: State, t: Tid) {
      && k1.current == k.current && k1.lockNest == k.lockNest && k1.lists.Keys == k.lists.Keys
      && k1.deletions == k.deletions && k1.pending == k.pending
      && k1.tcbs.Keys == k.tcbs.Keys && (forall u :: u in k.tcbs && u != t ==> k1.tcbs[u] == k.tcbs[u])
      && (k.bits.TwoLevel? <==> k1.bits.TwoLevel?) && (k.bits.TwoLevel? ==> |k1.bits.table| == |k.bits.table|)
    }

    method ScheduleInsertThread(t: Tid)
      requires Known(St(), t)
      modifies this
      ensures St() == InsertThread(old(St()), t)
      ensures OtherwiseSame(old(St()), St(), t)
    {
      var c := tcbs[t];
      if t == current {
        tcbs := tcbs[t := c.(stat := Running)];
        return;
      }
      tcbs := tcbs[t := c.(stat := Ready)];
      var q := ReadyQ(c.prio);
      lists := lists[q := lists[q] + [t]];
      bits := bits.Mark(c.attr);
    }

    method ScheduleRemoveThread(t: Tid)
      requires Known(St(), t)
      modifies this
      ensures St() == RemoveThread(old(St()), t)
      ensures OtherwiseSame(old(St()), St(), t) && tcbs == old(tcbs)
    {
      ListRemove(t);
      if lists[ReadyQ(tcbs[t].prio)] == [] {
        bits := bits.Unmark(tcbs[t].attr);
      }
    }

    method ThreadSuspend(t: Tid) returns (e: Err)
      requires Known(St(), t)
      modifies this
      ensures St() == SuspendThread(old(St()), t)
      ensures e == if old(tcbs[t].stat) in {Ready, Running} then EOK else ERROR
    {
      var stat := tcbs[t].stat;
      if stat != Ready && stat != Running { return ERROR; }
      ScheduleRemoveThread(t);
      tcbs := tcbs[t := tcbs[t].(stat := Suspend)];
      tcbs := tcbs[t := tcbs[t].(timerOn := false)];
      e := EOK;
    }

    method ThreadResume(t: Tid) returns (e: Err)
      requires Known(St(), t)
      modifies this
      ensures St() == ResumeThread(old(St()), t)
      ensures e == if old(tcbs[t].stat) == Suspend then EOK else ERROR
    {
      if tcbs[t].stat != Suspend { return ERROR; }
      ListRemove(t);
      tcbs := tcbs[t := tcbs[t].(timerOn := false)];
      ScheduleInsertThread(t);
      e := EOK;
    }

    method ThreadTimeout(t: Tid)
      requires Known(St(), t) && tcbs[t].stat == Suspend
      modifies this
      ensures St() == Timeout(old(St()), t)
    {
      hide Unlink, InsertThread;
      ghost var k := St();
      tcbs := tcbs[t := tcbs[t].(error := ETIMEOUT)];
      ListRemove(t);
      tcbs := tcbs[t := tcbs[t].(timerOn := false)];
      assert tcbs == k.tcbs[t := k.tcbs[t].(error := ETIMEOUT, timerOn := false)];
      ScheduleInsertThread(t);
    }

    method ThreadChangePriority(t: Tid, p: nat)
      requires Known(St(), t) && ReadyQ(p) in lists && (bits.TwoLevel? ==> p / 8 < |bits.table|)
      modifies this
      ensures St() == ChangePriority(old(St()), t, p)
    {
      hide Unlink, InsertThread, RemoveThread;
      ghost var k, c := St(), tcbs[t].(prio := p, attr := bits.AttrOf(p));
      if tcbs[t].stat == Ready {
        ScheduleRemoveThread(t);
        tcbs := tcbs[t := tcbs[t].(prio := p)];
        tcbs := tcbs[t := tcbs[t].(attr := bits.AttrOf(p))];
        assert tcbs == k.tcbs[t := c];
        ScheduleInsertThread(t);
      } else {
        tcbs := tcbs[t := tcbs[t].(prio := p)];
        tcbs := tcbs[t := tcbs[t].(attr := bits.AttrOf(p))];
        assert tcbs == k.tcbs[t := c];
      }
    }

    method ThreadStartup(t: Tid)
      requires Inv(St()) && t in tcbs && tcbs[t].stat == Init
      modifies this
      ensures St() == Startup(old(St()), t) && Inv(St())
    {
      hide Inv, Placement, ResumeThread;
      ghost var k := St();
      InvPlaces(k, t);
      StartupInv(k, t);
      tcbs := tcbs[t := tcbs[t].(prio := tcbs[t].initPrio)];
      tcbs := tcbs[t := tcbs[t].(attr := bits.AttrOf(tcbs[t].prio))];
      tcbs := tcbs[t := tcbs[t].(stat := Suspend)];
      var p := tcbs[t].initPrio;
      assert tcbs == k.tcbs[t := k.tcbs[t].(prio := p, attr := bits.AttrOf(p), stat := Suspend)];
      var _ := ThreadResume(t);
    }

    /** The test of rt_thread_suspend. */
    method SuspendFirst(t: Tid) returns (e: Err)
      requires t in tcbs
      modifies this`pending
      ensures old(tcbs[t].stat) in {Ready, Running} ==> e == EOK && St() == SuspendTest(old(St()), t)
      ensures old(tcbs[t].stat) !in {Ready, Running} ==> e == ERROR && St() == old(St())
    {
      var stat := tcbs[t].stat;
      if stat != Ready && stat != Running { return ERROR; }
      pending := pending.(suspendTested := pending.suspendTested + multiset{t});
      e := EOK;
    }

    /** The region of rt_thread_suspend. */
    method SuspendSecond(t: Tid)
      requires Inv(St()) && t in tcbs && t in pending.suspendTested && Started(tcbs[t])
      modifies this
      ensures Known(old(St()), t) && St() == SuspendTake(old(St()), t) && Inv(St())
    {
      hide Inv, RemoveThread, Dropped, Loose;
      SuspendTakeInv(St(), t);
      ghost var k := St();
      ScheduleRemoveThread(t);
      tcbs := tcbs[t := tcbs[t].(stat := Suspend)];
      tcbs := tcbs[t := tcbs[t].(timerOn := false)];
      assert tcbs == k.tcbs[t := k.tcbs[t].(stat := Suspend, timerOn := false)];
      pending := pending.(suspendTested := pending.suspendTested - multiset{t});
    }

    /** The test of rt_thread_resume. */
    method ResumeTested(t: Tid) returns (e: Err)
      requires t in tcbs
      modifies this`pending
      ensures old(tcbs[t].stat) == Suspend ==> e == EOK && St() == ResumeTest(old(St()), t)
      ensures old(tcbs[t].stat) != Suspend ==> e == ERROR && St() == old(St())
    {
      if tcbs[t].stat != Suspend { return ERROR; }
      pending := pending.(resumeTested := pending.resumeTested + multiset{t});
      e := EOK;
    }

    /** The first region of rt_thread_resume. */
    method ResumeFirst(t: Tid)
      requires Inv(St()) && t in tcbs && t in pending.resumeTested && Takeable(St(), t)
      modifies this
      ensures St() == ResumeUnlink(old(St()), t) && Inv(St())
    {
      hide Inv, Dropped, Loose, Takeable;
      ResumeUnlinkInv(St(), t);
      ListRemove(t);
      tcbs := tcbs[t := tcbs[t].(timerOn := false)];
      pending := pending.(resumeTested := pending.resumeTested - multiset{t}, resumes := pending.resumes + multiset{t});
    }

    /** The rest of rt_thread_resume. */
    method ResumeSecond(t: Tid)
      requires Inv(St()) && t in tcbs && t in pending.resumes && Started(tcbs[t]) && Loose(St(), t)
      modifies this
      ensures Known(old(St()), t) && St() == ResumeInsert(old(St()), t) && Inv(St())
    {
      hide Inv, InsertThread;
      ResumeInsertInv(St(), t);
      ScheduleInsertThread(t);
      pending := pending.(resumes := pending.resumes - multiset{t});
    }

    /** rt_thread_delete up to the end of rt_schedule_remove_thread. */
    method DeleteFirst(t: Tid)
      requires Inv(St()) && t in tcbs && t !in deletions && tcbs[t].stat != Close
      modifies this
      ensures St() == DeleteRemove(old(St()), t) && Inv(St()) && Off(St(), t)
    {
      hide Inv, Off, Dropped, RemoveThread;
      DeleteRemoveInv(St(), t);
      if tcbs[t].stat != Init { ScheduleRemoveThread(t); }
      deletions := deletions[t := Unlisted];
    }

    /** rt_timer_detach of the thread's timer. */
    method DeleteSecond(t: Tid)
      requires Inv(St()) && t in tcbs && t in deletions && deletions[t] == Unlisted
      modifies this
      ensures St() == DeleteTimer(old(St()), t) && Inv(St())
    {
      hide Inv;
      DeleteTimerInv(St(), t);
      tcbs := tcbs[t := tcbs[t].(timerOn := false)];
      deletions := deletions[t := Untimed];
    }

    /** thread->stat = RT_THREAD_CLOSE */
    method DeleteThird(t: Tid)
      requires Inv(St()) && t in tcbs && t in deletions && deletions[t] == Untimed && Loose(St(), t)
      modifies this
      ensures St() == DeleteClose(old(St()), t) && Inv(St())
    {
      hide Inv, Loose;
      DeleteCloseInv(St(), t);
      tcbs := tcbs[t := tcbs[t].(stat := Close)];
      deletions := deletions[t := Closed];
    }

    /** The last region of rt_thread_delete. */
    method DeleteLast(t: Tid)
      requires Inv(St()) && t in tcbs && t in deletions && deletions[t] == Closed && tcbs[t].stat == Close && Off(St(), t)
      modifies this
      ensures Defunct in old(lists) && St() == DeleteBury(old(St()), t) && Inv(St())
    {
      hide Inv, Off;
      DeleteBuryInv(St(), t);
      InvDefunct(St());
      InsertDefunct(t);
      deletions := deletions - {t};
    }

    /** rt_list_insert_after(&rt_thread_defunct, &(thread->tlist)) */
    method InsertDefunct(t: Tid)
      requires Defunct in lists
      modifies this`lists
      ensures St() == LinkAt(old(St()), Defunct, 0, t)
    {
      var l := lists[Defunct];
      assert l[..0] + [t] + l[0..] == [t] + l;
      lists := lists[Defunct := [t] + l];
    }

    /** rt_thread_delete where nothing comes between its regions. */
    method ThreadDelete(t: Tid)
      requires Inv(St()) && t in tcbs && t !in deletions && tcbs[t].stat != Close
      modifies this
      ensures Deletable(old(St()), t) && St() == Delete(old(St()), t) && Inv(St())
    {
      hide Inv, RemoveThread, Buried;
      DeleteInv(St(), t);
      DeleteRemoveInv(St(), t);
      DeleteFirst(t);
      DeleteSecond(t);
      DeleteThird(t);
      DeleteLast(t);
    }

    /** rt_thread_exit; bury is false for a static thread without a cleanup function. */
    method ThreadExit(bury: bool)
      requires Inv(St()) && tcbs[current].stat == Running
      modifies this
      ensures Known(old(St()), old(current)) && Defunct in old(lists) && St() == Exit(old(St()), bury) && Inv(St())
    {
      hide Inv, Placement, RemoveThread, Dropped;
      ghost var k := St();
      InvCurrent(k);
      ExitInv(k, bury);
      ScheduleRemoveThread(current);
      tcbs := tcbs[current := tcbs[current].(stat := Close)];
      tcbs := tcbs[current := tcbs[current].(timerOn := false)];
      assert tcbs == k.tcbs[current := k.tcbs[current].(stat := Close, timerOn := false)];
      if bury { InsertDefunct(current); }
    }

    /** The search of rt_ipc_list_suspend for the first strictly less urgent waiter. */
    method SearchPosition(l: seq<Tid>, p: nat) returns (n: nat)
      requires forall u :: u in l ==> u in tcbs
      ensures n == PrioPosition(tcbs, l, p)
    {
      n := 0;
      while n < |l| && tcbs[l[n]].prio <= p
        invariant n <= |l| && PrioPosition(tcbs, l, p) == n + PrioPosition(tcbs, l[n..], p)
      {
        assert l[n..][1..] == l[n + 1..];
        n := n + 1;
      }
    }

    /** The search and the insertion of rt_ipc_list_suspend. */
    method IpcListSuspend(w: Wid, t: Tid, order: Order)
      requires Known(St(), t) && WaitQ(w) in lists && Lists(St())
      modifies this
      ensures St() == ListSuspend(old(St()), w, t, order)
    {
      hide RemoveThread;
      SuspendLists(St(), t);
      var _ := ThreadSuspend(t);
      hide SuspendThread, Lists;
      var l := lists[WaitQ(w)];
      var n := 0;
      match order {
        case Fifo => n := |l|;
        case Lifo => n := 0;
        case Prio => n := SearchPosition(l, tcbs[t].prio);
      }
      lists := lists[WaitQ(w) := l[..n] + [t] + l[n..]];
    }

    /** The waiters are threads still after one thread was suspended. */
    static lemma SuspendLists(k: State, t: Tid)
      requires Known(k, t) && Lists(k)
      ensures Lists(SuspendThread(k, t)) && SuspendThread(k, t).lists.Keys == k.lists.Keys
      ensures SuspendThread(k, t).tcbs.Keys == k.tcbs.Keys
      ensures forall q, u :: q in SuspendThread(k, t).lists && u in SuspendThread(k, t).lists[q] ==> u in SuspendThread(k, t).tcbs
    {
    }

    static lemma SuspendStopsTimer(k: State, w: Wid, t: Tid, order: Order)
      requires Known(k, t) && WaitQ(w) in k.lists && Lists(k) && k.tcbs[t].stat == Running
      ensures var k1 := ListSuspend(k, w, t, order); t in k1.tcbs && !k1.tcbs[t].timerOn
    {
    }

    /** What a blocking call does between disabling interrupts and rt_schedule. */
    method BlockCurrent(w: Wid, order: Order, timed: bool)
      requires Inv(St()) && WaitQ(w) in lists && tcbs[current].stat == Running
      modifies this
      ensures Known(old(St()), old(current)) && St() == Block(old(St()), w, order, timed) && Inv(St())
    {
      hide Inv, Placement, ListSuspend, Blocked;
      ghost var k := St();
      InvCurrent(k);
      BlockInv(k, w, order, timed);
      var thread := current;
      tcbs := tcbs[thread := tcbs[thread].(error := EOK)];
      SuspendStopsTimer(St(), w, thread, order);
      IpcListSuspend(w, thread, order);
      if timed {
        tcbs := tcbs[thread := tcbs[thread].(timerOn := true)];
      } else {
        assert tcbs[thread := tcbs[thread].(timerOn := false)] == tcbs;
      }
    }

    /** rt_ipc_list_resume */
    method IpcListResume(w: Wid)
      requires Inv(St()) && WaitQ(w) in lists && lists[WaitQ(w)] != []
      modifies this
      ensures var t := old(lists[WaitQ(w)][0]); Known(old(St()), t) && St() == ResumeThread(old(St()), t)
    {
      var thread := lists[WaitQ(w)][0];
      WaiterInv(St(), w, thread);
      var _ := ThreadResume(thread);
    }

    method IpcListResumeAll(w: Wid)
      requires Inv(St()) && WaitQ(w) in lists
      modifies this
      ensures St() == ResumeAll(old(St()), w) && Inv(St())
    {
      hide Inv;
      while lists[WaitQ(w)] != []
        invariant Inv(St()) && WaitQ(w) in lists
        invariant ResumeAll(St(), w) == ResumeAll(old(St()), w)
        decreases |lists[WaitQ(w)]|
      {
        ResumeFirstInv(St(), w);
        ResumeFailed(w);
      }
    }

    /** The first waiter is resumed with an error. */
    method ResumeFailed(w: Wid)
      requires Inv(St()) && WaitQ(w) in lists && lists[WaitQ(w)] != []
      modifies this
      ensures St() == ResumeFirstWithError(old(St()), w)
    {
      hide Inv, ResumeThread;
      var thread := lists[WaitQ(w)][0];
      WaiterInv(St(), w, thread);
      tcbs := tcbs[thread := tcbs[thread].(error := ERROR)];
      var _ := ThreadResume(thread);
    }

    /** The context switch inside rt_schedule. */
    method SwitchContext(to: Tid, needInsertFrom: bool)
      requires Known(St(), to) && to != current && current in tcbs
      requires needInsertFrom == (tcbs[current].stat == Running) && (needInsertFrom ==> Known(St(), current))
      modifies this
      ensures St() == SwitchTo(old(St()), to)
    {
      hide InsertThread, RemoveThread;
      var from := current;
      current := to;
      if needInsertFrom { ScheduleInsertThread(from); }
      ScheduleRemoveThread(to);
      tcbs := tcbs[to := tcbs[to].(stat := Running)];
    }

    method Schedule()
      requires Inv(St())
      modifies this
      ensures St() == KernelSpec.Schedule(old(St())) && Inv(St())
    {
      hide Inv, Placement, RemoveThread, SwitchTo;
      ghost var k := St();
      InvCurrent(k);
      ScheduleInv(k);
      if lockNest == 0 {
        if bits.group != 0 {
          HighestKnown(k);
          FrontIsReady(k, HighestOf(k));
          bits.HighestIsLeastMarked();
          var highest := bits.Highest();
          var to := lists[ReadyQ(highest)][0];
          var needInsertFrom := false;
          SwitchToInv(k, to);
          if tcbs[current].stat == Running {
            if tcbs[current].prio < highest { to := current; } else { needInsertFrom := true; }
          }
          if to != current {
            SwitchContext(to, needInsertFrom);
          } else {
            ScheduleRemoveThread(current);
            tcbs := tcbs[current := tcbs[current].(stat := Running)];
          }
        }
      }
    }

    method EnterCritical()
      modifies this`lockNest
      ensures St() == old(St()).(lockNest := old(lockNest) + 1)
    {
      lockNest := lockNest + 1;
    }

    /** rt_exit_critical: the outermost exit reschedules. */
    method ExitCritical()
      requires Inv(St())
      modifies this
      ensures old(lockNest) > 1 ==> St() == old(St()).(lockNest := old(lockNest) - 1)
      ensures old(lockNest) <= 1 ==> Inv(old(St()).(lockNest := 0)) && St() == KernelSpec.Schedule(old(St()).(lockNest := 0))
      ensures Inv(St())
    {
      hide Inv, KernelSpec.Schedule;
      var nest := (lockNest as int) - 1;
      if nest <= 0 {
        KernelRuns.LockInv(St(), 0);
        lockNest := 0;
        Schedule();
      } else {
        KernelRuns.LockInv(St(), nest);
        lockNest := nest;
      }
    }
  }
}
