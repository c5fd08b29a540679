/** The calls of thread.c that are more than one critical region: rt_thread_delete (thread.c:430-460) and
    rt_thread_resume (thread.c:706-740). What can happen to the thread between the regions, and exactly when the call
    still ends well. */
module ThreadCalls {
  import opened Seqs
  import opened Events
  import opened ReadyBitmap
  import opened KernelSpec
  import opened KernelRuns
  import opened ThreadSteps

  // ---------- the last regions, from any state ----------

  /** The rest of rt_thread_delete from the assignment of RT_THREAD_CLOSE on. */
  ghost function CloseAndBury(k: State, t: Tid): State
    requires t in k.tcbs && Defunct in k.lists
  {
    DeleteBury(DeleteClose(k, t), t)
  }

  /** From any state in which rt_thread_delete may be about to close thread t, it leaves the thread CLOSE, on the
      defunct list and on no other, iff the thread is on no list and its timer is stopped. */
  lemma DeletionIff(k: State, t: Tid)
    requires Inv(k) && t in k.tcbs && Defunct in k.lists
    ensures Inv(CloseAndBury(k, t)) && Buried(CloseAndBury(k, t), t) <==> Loose(k, t)
  {
    hide Inv, Off, Buried;
    if Loose(k, t) {
      DeleteCloseInv(k, t);
      DeleteBuryInv(DeleteClose(k, t), t);
      BuriedThen(DeleteClose(k, t), t);
    } else {
      BuriedAstray(k, t);
    }
  }

  lemma BuriedAstray(k: State, t: Tid)
    requires t in k.tcbs && Defunct in k.lists && !Loose(k, t)
    ensures !(Inv(CloseAndBury(k, t)) && Buried(CloseAndBury(k, t), t))
  {
    var k2 := CloseAndBury(k, t);
    if k.tcbs[t].timerOn {
      assert !Placed(k2, t);
    } else {
      var q :| q in k.lists && t in k.lists[q];
      if q == Defunct { TwiceThere([], k.lists[q], t); assert [] + [t] + k.lists[q] == k2.lists[q]; } else { assert t in k2.lists[q]; }
    }
  }

  lemma TwiceThere(a: seq<Tid>, b: seq<Tid>, t: Tid)
    requires t in a || t in b
    ensures !NoDup(a + [t] + b)
  {
    var r := a + [t] + b;
    assert r[|a|] == t;
    if t in a {
      var i :| 0 <= i < |a| && a[i] == t;
      assert r[i] == r[|a|];
    } else {
      var i :| 0 <= i < |b| && b[i] == t;
      assert r[|a| + 1 + i] == r[|a|];
    }
  }

  /** From any state, the second region of rt_thread_resume keeps the kernel in order iff the thread is on no list and
      its timer is stopped. */
  lemma ResumeIff(k: State, t: Tid)
    requires Inv(k) && t in k.tcbs && Started(k.tcbs[t])
    ensures Known(k, t) && (Inv(ResumeInsert(k, t)) <==> Loose(k, t))
  {
    hide Inv, Off;
    InvPlaces(k, t);
    ReadyKnown(k, t);
    if Loose(k, t) { ResumeInsertInv(k, t); } else { InsertedAstray(k, t); }
  }

  lemma InsertedAstray(k: State, t: Tid)
    requires Known(k, t) && !Loose(k, t)
    ensures !Inv(ResumeInsert(k, t))
  {
    var k1 := ResumeInsert(k, t);
    if k.tcbs[t].timerOn {
      assert !Placed(k1, t);
    } else {
      var q :| q in k.lists && t in k.lists[q];
      var r := ReadyQ(k.tcbs[t].prio);
      if q == r && t != k.current { TwiceThere(k.lists[q], [], t); assert k.lists[q] + [t] + [] == k1.lists[q]; }
      else { assert t in k1.lists[q] && !Fits(k1.tcbs[t], q); assert !Placed(k1, t); }
    }
  }

  // ---------- over whole runs ----------

  ghost function LinkEvents(ks: seq<State>, steps: seq<Step>, t: Tid): seq<bool>
    requires |ks| == |steps| + 1
  {
    seq(|steps|, m requires 0 <= m < |steps| => Inv(ks[m]) && t in ks[m].tcbs && Links(ks[m], steps[m], t))
  }

  ghost function UnlinkEvents(ks: seq<State>, steps: seq<Step>, t: Tid): seq<bool>
    requires |ks| == |steps| + 1
  {
    seq(|steps|, m requires 0 <= m < |steps| => Inv(ks[m]) && t in ks[m].tcbs && Unlinks(ks[m], steps[m], t))
  }

  ghost function StartEvents(ks: seq<State>, steps: seq<Step>, t: Tid): seq<bool>
    requires |ks| == |steps| + 1
  {
    seq(|steps|, m requires 0 <= m < |steps| => Starts(ks[m], steps[m], t))
  }

  ghost function StopEvents(ks: seq<State>, steps: seq<Step>, t: Tid): seq<bool>
    requires |ks| == |steps| + 1
  {
    seq(|steps|, m requires 0 <= m < |steps| => Stops(ks[m], steps[m], t))
  }

  lemma RunStep(ks: seq<State>, steps: seq<Step>, m: nat, t: Tid)
    requires Run(ks, steps) && Inv(ks[0]) && m < |steps| && t in ks[m].tcbs
    ensures Inv(ks[m]) && Enabled(ks[m], steps[m]) && ks[m + 1] == Apply(ks[m], steps[m])
    ensures Inv(ks[m + 1]) && t in ks[m + 1].tcbs
  {
    hide Inv, Enabled, Apply;
    RunInv(ks, steps, m);
    assert Steps(ks[m], steps[m], ks[m + 1]);
    LifeFrames(ks[m], steps[m], t);
  }

  lemma {:induction false} ThreadStays(ks: seq<State>, steps: seq<Step>, lo: nat, hi: nat, t: Tid)
    requires Run(ks, steps) && Inv(ks[0]) && lo <= hi < |ks| && t in ks[lo].tcbs
    ensures t in ks[hi].tcbs
  {
    hide Steps, Inv, Enabled, Apply;
    if lo < hi { ThreadStays(ks, steps, lo, hi - 1, t); RunStep(ks, steps, hi - 1, t); }
  }

  /** A thread that was on no list at lo is on none at hi iff whatever linked it in between was undone. */
  lemma OffOverRun(ks: seq<State>, steps: seq<Step>, lo: nat, hi: nat, t: Tid)
    requires Run(ks, steps) && Inv(ks[0]) && lo <= hi < |ks| && t in ks[lo].tcbs && Off(ks[lo], t)
    ensures Off(ks[hi], t) <==> Undone(LinkEvents(ks, steps, t), UnlinkEvents(ks, steps, t), lo, hi)
  {
    hide Steps, Inv, Enabled, Apply, Off, Undone, Links, Unlinks;
    var up, down := LinkEvents(ks, steps, t), UnlinkEvents(ks, steps, t);
    var flag := seq(|ks|, m requires 0 <= m < |ks| => !Off(ks[m], t));
    forall m: nat | lo <= m < hi
      ensures (flag[m + 1] <==> ((flag[m] && !down[m]) || up[m])) && !(up[m] && down[m])
    {
      ThreadStays(ks, steps, lo, m, t);
      RunStep(ks, steps, m, t);
      OffStep(ks[m], steps[m], t);
    }
    FlagUndone(flag, up, down, lo, hi);
  }

  lemma TimerOverRun(ks: seq<State>, steps: seq<Step>, lo: nat, hi: nat, t: Tid)
    requires Run(ks, steps) && Inv(ks[0]) && lo <= hi < |ks| && t in ks[lo].tcbs && !ks[lo].tcbs[t].timerOn
    ensures t in ks[hi].tcbs
    ensures !ks[hi].tcbs[t].timerOn <==> Undone(StartEvents(ks, steps, t), StopEvents(ks, steps, t), lo, hi)
  {
    hide Steps, Inv, Enabled, Apply, Undone, Starts, Stops;
    var up, down := StartEvents(ks, steps, t), StopEvents(ks, steps, t);
    var flag := seq(|ks|, m requires 0 <= m < |ks| => t in ks[m].tcbs && ks[m].tcbs[t].timerOn);
    forall m: nat | lo <= m < hi
      ensures (flag[m + 1] <==> ((flag[m] && !down[m]) || up[m])) && !(up[m] && down[m])
    {
      ThreadStays(ks, steps, lo, m, t);
      RunStep(ks, steps, m, t);
      TimerStep(ks[m], steps[m], t);
    }
    ThreadStays(ks, steps, lo, hi, t);
    FlagUndone(flag, up, down, lo, hi);
  }

  /** In any run, rt_thread_delete ends well, with the thread on the defunct list and on no other, iff everything that
      linked the thread after the first region was undone, and every start of its timer after the second. */
  lemma DeletionEndsWell(ks: seq<State>, steps: seq<Step>, i: nat, h: nat, j: nat, t: Tid)
    requires Run(ks, steps) && Inv(ks[0]) && i < h < j <= |steps|
    requires steps[i] == DoDeleteRemove(t) && steps[h] == DoDeleteTimer(t)
    ensures t in ks[j].tcbs && Defunct in ks[j].lists
    ensures var k2 := CloseAndBury(ks[j], t); Inv(k2) && Buried(k2, t) <==>
      && Undone(LinkEvents(ks, steps, t), UnlinkEvents(ks, steps, t), i + 1, j)
      && Undone(StartEvents(ks, steps, t), StopEvents(ks, steps, t), h + 1, j)
  {
    hide Steps, Inv, Apply, Off, Undone, Buried, CloseAndBury, LinkEvents, UnlinkEvents, StartEvents, StopEvents;
    RunInv(ks, steps, i);
    EnabledAt(ks, steps, i);
    RunStep(ks, steps, i, t);
    FirstRegion(ks[i], t);
    ThreadStays(ks, steps, i + 1, h, t);
    RunStep(ks, steps, h, t);
    SecondRegion(ks[h], t);
    OffOverRun(ks, steps, i + 1, j, t);
    TimerOverRun(ks, steps, h + 1, j, t);
    RunInv(ks, steps, j);
    InvDefunct(ks[j]);
    DeletionIff(ks[j], t);
  }

  /** A step by which nobody resumes thread t, changes its priority or buries it. */
  predicate Quiet(s: Step, t: Tid) {
    s != DoResume(t) && s != DoResumeInsert(t) && s != DoDeleteBury(t) && !(s.DoChangePriority? && s.t == t)
  }

  /** In particular it ends well for a thread that is not the current one, whose timer was stopped before the call, and
      that nobody resumes or gives another priority in the meantime; the thread does not come to run. */
  lemma UndisturbedDeletion(ks: seq<State>, steps: seq<Step>, i: nat, j: nat, t: Tid)
    requires Run(ks, steps) && Inv(ks[0]) && i < j <= |steps| && steps[i] == DoDeleteRemove(t)
    requires t in ks[i].tcbs && t != ks[i].current && !ks[i].tcbs[t].timerOn
    requires forall m :: i < m < j ==> Quiet(steps[m], t)
    ensures t in ks[j].tcbs && t != ks[j].current && Defunct in ks[j].lists
    ensures Inv(CloseAndBury(ks[j], t)) && Buried(CloseAndBury(ks[j], t), t)
  {
    hide Steps, Inv, Apply, Off, Buried, CloseAndBury, Quiet;
    RunInv(ks, steps, i);
    EnabledAt(ks, steps, i);
    RunStep(ks, steps, i, t);
    FirstRegion(ks[i], t);
    TimerStep(ks[i], steps[i], t);
    CallsFrame(ks[i], steps[i]);
    hide Enabled;
    StaysLoose(ks, steps, i + 1, j, t);
    RunInv(ks, steps, j);
    InvDefunct(ks[j]);
    DeletionIff(ks[j], t);
  }

  lemma {:induction false} StaysLoose(ks: seq<State>, steps: seq<Step>, lo: nat, hi: nat, t: Tid)
    requires Run(ks, steps) && Inv(ks[0]) && lo <= hi < |ks|
    requires t in ks[lo].tcbs && Loose(ks[lo], t) && t != ks[lo].current
    requires forall m :: lo <= m < hi ==> Quiet(steps[m], t)
    ensures t in ks[hi].tcbs && Loose(ks[hi], t) && t != ks[hi].current
  {
    hide Steps, Inv, Apply, Enabled, Loose, Quiet;
    if lo < hi {
      StaysLoose(ks, steps, lo, hi - 1, t);
      RunStep(ks, steps, hi - 1, t);
      QuietStep(ks[hi - 1], steps[hi - 1], t);
    }
  }

  lemma QuietStep(k: State, s: Step, t: Tid)
    requires Inv(k) && Enabled(k, s) && t in k.tcbs && Loose(k, t) && t != k.current && Quiet(s, t)
    ensures var k1 := Apply(k, s); t in k1.tcbs && Loose(k1, t) && t != k1.current
  {
    hide Inv, Apply, Off, Choice;
    OffStep(k, s, t);
    TimerStep(k, s, t);
    CallsFrame(k, s);
    ChoiceStarted(k);
  }

  lemma EnabledAt(ks: seq<State>, steps: seq<Step>, m: nat)
    requires Run(ks, steps) && m < |steps| && Inv(ks[m])
    ensures Enabled(ks[m], steps[m])
  {
    hide Inv, Enabled, Apply;
    assert Steps(ks[m], steps[m], ks[m + 1]);
  }

  lemma FirstRegion(k: State, t: Tid)
    requires Inv(k) && Enabled(k, DoDeleteRemove(t))
    ensures Off(Apply(k, DoDeleteRemove(t)), t)
  {
    hide Inv, Off;
    DeleteRemoveInv(k, t);
    hide DeleteRemove, Dropped;
  }

  lemma SecondRegion(k: State, t: Tid)
    requires Inv(k) && Enabled(k, DoDeleteTimer(t))
    ensures var k1 := Apply(k, DoDeleteTimer(t)); t in k1.tcbs && !k1.tcbs[t].timerOn
  {
    hide Inv;
  }

  /** In any run, rt_thread_resume ends well iff everything that linked the thread between its two regions was undone,
      and every start of its timer. */
  lemma ResumeEndsWell(ks: seq<State>, steps: seq<Step>, i: nat, j: nat, t: Tid)
    requires Run(ks, steps) && Inv(ks[0]) && i < j <= |steps| && steps[i] == DoResumeUnlink(t)
    ensures t in ks[j].tcbs
    ensures Started(ks[j].tcbs[t]) ==>
      Known(ks[j], t) &&
      (Inv(ResumeInsert(ks[j], t)) <==>
        && Undone(LinkEvents(ks, steps, t), UnlinkEvents(ks, steps, t), i + 1, j)
        && Undone(StartEvents(ks, steps, t), StopEvents(ks, steps, t), i + 1, j))
  {
    hide Steps, Inv, Apply, Off, Undone, ResumeInsert, LinkEvents, UnlinkEvents, StartEvents, StopEvents;
    RunInv(ks, steps, i);
    EnabledAt(ks, steps, i);
    RunStep(ks, steps, i, t);
    ResumeRegion(ks[i], t);
    OffOverRun(ks, steps, i + 1, j, t);
    TimerOverRun(ks, steps, i + 1, j, t);
    RunInv(ks, steps, j);
    if Started(ks[j].tcbs[t]) { ResumeIff(ks[j], t); }
  }

  lemma ResumeRegion(k: State, t: Tid)
    requires Inv(k) && Enabled(k, DoResumeUnlink(t))
    ensures var k1 := Apply(k, DoResumeUnlink(t)); t in k1.tcbs && Loose(k1, t)
  {
    hide Inv, Loose;
    ResumeUnlinkInv(k, t);
    hide ResumeUnlink;
  }

  // ---------- between the regions ----------

  /** Once closed, a thread stays CLOSE and on no list until it is buried: in every state of every run the last region
      of rt_thread_delete can be taken. */
  lemma {:induction false} ClosedInEveryRun(ks: seq<State>, steps: seq<Step>, i: nat, t: Tid)
    requires Run(ks, steps) && Inv(ks[0]) && ks[0].deletions == map[] && i < |ks| && Deleting(ks[i], t, Closed)
    ensures Enabled(ks[i], DoDeleteBury(t)) && Loose(ks[i], t)
  {
    hide Steps, Inv, Apply, Off;
    if i > 0 {
      RunInv(ks, steps, i - 1);
      EnabledAt(ks, steps, i - 1);
      StepTo(ks, steps, i - 1);
      CallsFrame(ks[i - 1], steps[i - 1]);
      LifeFrames(ks[i - 1], steps[i - 1], SomeThread(ks[i - 1]));
      if Deleting(ks[i - 1], t, Closed) { ClosedInEveryRun(ks, steps, i - 1, t); }
      ClosedStep(ks[i - 1], steps[i - 1], t);
    }
  }

  ghost function SomeThread(k: State): Tid
    requires Inv(k)
    ensures SomeThread(k) in k.tcbs
  {
    k.current
  }

  lemma StepTo(ks: seq<State>, steps: seq<Step>, m: nat)
    requires Run(ks, steps) && m < |steps| && Inv(ks[m])
    ensures Enabled(ks[m], steps[m]) && ks[m + 1] == Apply(ks[m], steps[m])
  {
    hide Inv, Enabled, Apply;
    assert Steps(ks[m], steps[m], ks[m + 1]);
  }

  lemma ClosedStep(k: State, s: Step, t: Tid)
    requires Inv(k) && Enabled(k, s) && t in k.tcbs && Deleting(Apply(k, s), t, Closed)
    requires Deleting(k, t, Closed) ==> k.tcbs[t].stat == Close && Loose(k, t)
    ensures var k1 := Apply(k, s); t in k1.tcbs && k1.tcbs[t].stat == Close && Loose(k1, t)
  {
    hide Inv, Off, Apply;
    CallsFrame(k, s);
    OffStep(k, s, t);
    TimerStep(k, s, t);
    LifeFrames(k, s, t);
    if s == DoDeleteClose(t) { ClosesIt(k, t); }
  }

  lemma ClosesIt(k: State, t: Tid)
    requires Inv(k) && Enabled(k, DoDeleteClose(t))
    ensures Apply(k, DoDeleteClose(t)).tcbs == k.tcbs[t := k.tcbs[t].(stat := Close)]
  {
    hide Inv, Loose;
  }

  // ---------- how the calls go astray ----------

  /** After the first region a READY thread is READY and on no list. */
  lemma ReadyOnNoList(k: State, t: Tid)
    requires Inv(k) && t in k.tcbs && k.tcbs[t].stat == Ready
    ensures Known(k, t)
    ensures var k1 := DeleteRemove(k, t); Inv(k1) && k1.tcbs == k.tcbs && Off(k1, t)
  {
    hide Inv, Off;
    DeleteRemoveInv(k, t);
    hide DeleteRemove;
    assert k.tcbs[t := k.tcbs[t]] == k.tcbs;
  }

  /** About to be closed, thread t is queued READY: the rest of the deletion leaves it CLOSE on two lists. */
  ghost predicate Astray(k: State, t: Tid) {
    && Inv(k) && Deleting(k, t, Untimed) && Defunct in k.lists
    && var k1, q := CloseAndBury(k, t), ReadyQ(k.tcbs[t].prio);
       && !Inv(k1) && t in k1.tcbs && k1.tcbs[t].stat == Close
       && q in k1.lists && t in k1.lists[q] && t in k1.lists[Defunct]
  }

  lemma QueuedIsAstray(k: State, t: Tid)
    requires Inv(k) && Deleting(k, t, Untimed) && k.tcbs[t].stat == Ready && !Off(k, t)
    ensures Astray(k, t)
  {
    hide Base;
    InvPlaces(k, t);
    InvDefunct(k);
    hide Inv;
    var q :| q in k.lists && t in k.lists[q];
    assert Fits(k.tcbs[t], q);
    var k1 := CloseAndBury(k, t);
    assert k1.lists[Defunct] == [t] + k.lists[Defunct];
    assert t in k1.lists[q] && !Fits(k1.tcbs[t], q);
    NotPlaced(k1, t, q);
  }

  lemma NotPlaced(k: State, t: Tid, q: Queue)
    requires t in k.tcbs && q in k.lists && t in k.lists[q] && !Fits(k.tcbs[t], q)
    ensures !Inv(k)
  {
    hide Base;
  }

  /** Thread t sleeps, another one runs and begins to delete it, and its time is up before its timer is detached. */
  function GapSteps(t: Tid): seq<Step> {
    [DoSleep, DoSchedule, DoDeleteRemove(t), DoTimeout(t), DoDeleteTimer(t)]
  }

  /** From any state with a running thread and another one ready, a timeout between the regions of rt_thread_delete can
      lead it astray. */
  lemma TimeoutInTheGap(k: State, u: Tid)
    requires Inv(k) && k.lockNest == 0 && k.tcbs[k.current].stat == Running && k.current !in k.deletions
    requires u in k.tcbs && k.tcbs[u].stat == Ready && u !in k.deletions
    ensures exists ks :: Run(ks, GapSteps(k.current)) && ks[0] == k && Astray(ks[5], k.current)
  {
    hide Inv, Apply, Off, Astray;
    var t := k.current;
    FallsAsleep(k, u);
    var k1 := Apply(k, DoSleep);
    GivesWay(k1, t, u);
    var k2 := Apply(k1, DoSchedule);
    IsTimedOut(k2, t);
    var k3 := Apply(k2, DoDeleteRemove(t));
    var k4 := Apply(k3, DoTimeout(t));
    var k5 := Apply(k4, DoDeleteTimer(t));
    var ks := [k, k1, k2, k3, k4, k5];
    assert Run(ks, GapSteps(t)) && ks[0] == k && Astray(ks[5], t);
  }

  lemma FallsAsleep(k: State, u: Tid)
    requires Inv(k) && k.tcbs[k.current].stat == Running
    requires u in k.tcbs && k.tcbs[u].stat == Ready && u !in k.deletions
    ensures var t, k1 := k.current, Apply(k, DoSleep);
      && Enabled(k, DoSleep) && k1.lockNest == k.lockNest && k1.current == t && k1.deletions == k.deletions
      && k1.tcbs.Keys == k.tcbs.Keys && k1.tcbs[t].stat == Suspend && k1.tcbs[t].timerOn && k1.bits.group != 0
  {
    hide Inv, Placement;
    SleepInv(k);
    CallsFrame(k, DoSleep);
    hide Sleep;
    PlacementOf(Sleep(k));
    SomethingReady(Sleep(k), u);
  }

  /** A suspended current thread is switched away from. */
  lemma GivesWay(k: State, t: Tid, u: Tid)
    requires Inv(k) && k.lockNest == 0 && k.bits.group != 0 && t == k.current && k.tcbs[t].stat == Suspend && k.tcbs[t].timerOn
    ensures var k1 := Apply(k, DoSchedule);
      && k1.current != t && k1.deletions == k.deletions && t in k1.tcbs && k1.tcbs[t].stat == Suspend && k1.tcbs[t].timerOn
  {
    hide Inv, Schedule;
    InvCurrent(k);
    CallsFrame(k, DoSchedule);
    ScheduleEffect(k);
    HighestKnown(k);
    FrontIsReady(k, HighestOf(k));
    hide Base, HighestOf;
  }

  lemma IsTimedOut(k: State, t: Tid)
    requires Inv(k) && t in k.tcbs && t != k.current && t !in k.deletions && k.tcbs[t].stat == Suspend && k.tcbs[t].timerOn
    ensures Enabled(k, DoDeleteRemove(t))
    ensures var k1 := Apply(k, DoDeleteRemove(t)); Enabled(k1, DoTimeout(t))
    ensures var k1 := Apply(k, DoDeleteRemove(t)); var k2 := Apply(k1, DoTimeout(t)); Enabled(k2, DoDeleteTimer(t))
    ensures var k1 := Apply(k, DoDeleteRemove(t)); var k2 := Apply(k1, DoTimeout(t)); Astray(Apply(k2, DoDeleteTimer(t)), t)
  {
    hide Inv, Apply, Off, Astray;
    RemovedAsleep(k, t);
    var k1 := Apply(k, DoDeleteRemove(t));
    FiresLate(k1, t);
    var k2 := Apply(k1, DoTimeout(t));
    DetachedLate(k2, t);
    QueuedIsAstray(Apply(k2, DoDeleteTimer(t)), t);
  }

  lemma RemovedAsleep(k: State, t: Tid)
    requires Inv(k) && Enabled(k, DoDeleteRemove(t))
    ensures var k1 := Apply(k, DoDeleteRemove(t)); k1.tcbs == k.tcbs && k1.current == k.current && Deleting(k1, t, Unlisted)
  {
    hide Inv, Off;
    DeleteRemoveInv(k, t);
    CallsFrame(k, DoDeleteRemove(t));
    hide DeleteRemove;
    assert k.tcbs[t := k.tcbs[t]] == k.tcbs;
  }

  lemma FiresLate(k: State, t: Tid)
    requires Inv(k) && Deleting(k, t, Unlisted) && t != k.current && k.tcbs[t].timerOn
    ensures Enabled(k, DoTimeout(t))
    ensures var k1 := Apply(k, DoTimeout(t)); Deleting(k1, t, Unlisted) && k1.tcbs[t].stat == Ready && !Off(k1, t)
  {
    hide Inv, Off;
    TimeoutInv(k, t);
    CallsFrame(k, DoTimeout(t));
    OffStep(k, DoTimeout(t), t);
    hide Timeout;
  }

  lemma DetachedLate(k: State, t: Tid)
    requires Inv(k) && Deleting(k, t, Unlisted) && k.tcbs[t].stat == Ready && !Off(k, t)
    ensures Enabled(k, DoDeleteTimer(t))
    ensures var k1 := Apply(k, DoDeleteTimer(t)); Deleting(k1, t, Untimed) && k1.tcbs[t].stat == Ready && !Off(k1, t)
  {
    hide Inv, Off;
    OffStep(k, DoDeleteTimer(t), t);
  }

  /** Two calls of rt_thread_resume for one suspended thread, the second between the regions of the first: the thread
      would be queued twice. */
  lemma ResumedTwice(k: State, t: Tid)
    requires Inv(k) && t in k.tcbs && t != k.current && k.tcbs[t].stat == Suspend
    ensures var k1 := ResumeUnlink(k, t); Inv(k1) && t in k1.tcbs && Known(k1, t)
    ensures var k2 := ResumeThread(ResumeUnlink(k, t), t); Inv(k2) && Known(k2, t) && !Inv(ResumeInsert(k2, t))
  {
    hide Inv, Off, Loose, ResumeUnlink, ResumeThread;
    SuspendedTakeable(k, t);
    ResumeUnlinkInv(k, t);
    var k1 := ResumeUnlink(k, t);
    KnownStarted(k1, t);
    ResumedQueued(k1, t);
    ResumeIff(ResumeThread(k1, t), t);
  }

  lemma SuspendedTakeable(k: State, t: Tid)
    requires Inv(k) && t in k.tcbs && k.tcbs[t].stat != Ready
    ensures Takeable(k, t)
  {
    InvPlaces(k, t);
  }

  lemma ResumedQueued(k: State, t: Tid)
    requires Inv(k) && t in k.tcbs && t != k.current && k.tcbs[t].stat == Suspend && Known(k, t)
    ensures var k1 := ResumeThread(k, t); Inv(k1) && t in k1.tcbs && k1.tcbs[t].stat == Ready && !Loose(k1, t)
  {
    hide Inv, Off, Wake;
    ResumeThreadInv(k, t);
    WakeOff(k, t, k.tcbs[t].error, t);
  }
}
