/** Threads and their timers together: rt_thread_sleep and the blocking calls start thread->thread_timer for a number of
    ticks, rt_timer_check calls rt_thread_timeout when it is due (rt-thread/src/thread.c, ipc.c, timer.c, clock.c). The
    timer of a thread has the thread's number; other numbers stand for other timers. */
module ThreadTimers {
  import opened Seqs
  import opened KernelSpec
  import opened KernelRuns
  import opened ThreadSteps
  import T = Timers
  import D = TimerDue

  datatype Sys = Sys(k: State, ts: T.Ts)

  datatype SysStep =
    | InKernel(s: Step)                              // a step that starts no timer
    | Sleep(time: nat)                               // the region of rt_thread_sleep
    | Wait(w: Wid, order: Order, time: nat)          // the region of a blocking call with a timeout
    | Expire                                         // rt_timer_check and the first timer that is due
    | TickInterrupt                                  // once rt_timer_check has nothing left to do
    | OtherTimer(step: T.TimerStep)

  // ---------- invariant ----------

  ghost predicate Listed(ts: T.Ts, t: Tid) { ts.rows != [] && t in ts.Last() }

  /** The timer of a thread is in the timer list exactly when the thread's record says so, and fires once. */
  ghost predicate Paired(k: State, ts: T.Ts) {
    forall t :: t in k.tcbs ==> t in ts.tms && !ts.tms[t].periodic && (k.tcbs[t].timerOn <==> Listed(ts, t))
  }

  /** No timer in the list is overdue. */
  ghost predicate OnTime(ts: T.Ts) { forall t :: Listed(ts, t) ==> t in ts.key && ts.now <= ts.key[t].due }

  ghost predicate SysInv(y: Sys) { Inv(y.k) && T.TimerInv(y.ts) && Paired(y.k, y.ts) && OnTime(y.ts) }

  // ---------- steps ----------

  /** The threads whose timers a step stops. */
  ghost function ToStop(k: State, s: Step): seq<Tid>
    requires Inv(k) && Enabled(k, s)
  {
    match s
    case DoSuspend(t) => [t]
    case DoSuspendTake(t) => [t]
    case DoResume(t) => [t]
    case DoResumeUnlink(t) => [t]
    case DoDeleteTimer(t) => [t]
    case DoExit(_) => [k.current]
    case DoBlock(_, _, _) => [k.current]
    case DoResumeAll(w) => k.lists[WaitQ(w)]
    case _ => []
  }

  /** rt_timer_stop: refused unless the timer is active. */
  ghost function StopOne(ts: T.Ts, t: Tid): T.Ts
    requires t in ts.tms
  {
    if ts.tms[t].activated then T.Stop(ts, t) else ts
  }

  ghost function StopAll(ts: T.Ts, l: seq<Tid>): T.Ts
    requires T.TimerInv(ts) && forall t :: t in l ==> t in ts.tms
    decreases |l|
  {
    if l == [] then ts
    else
      StopOneInv(ts, l[0]);
      StopAll(StopOne(ts, l[0]), l[1..])
  }

  /** RT_TIMER_CTRL_SET_TIME and rt_timer_start. */
  ghost function StartFor(ts: T.Ts, t: Tid, time: nat): T.Ts
    requires T.TimerInv(ts) && t in ts.tms && time < T.HALF
  {
    SetTimeInv(ts, t, time);
    T.Start(SetTime(ts, t, time), t)
  }

  ghost function SetTime(ts: T.Ts, t: Tid, time: nat): T.Ts
    requires t in ts.tms
  {
    ts.(tms := ts.tms[t := ts.tms[t].(initTick := time)])
  }

  ghost predicate SysEnabled(y: Sys, step: SysStep)
    requires SysInv(y)
  {
    match step
    case InKernel(s) => Enabled(y.k, s) && !s.DoTimeout? && !s.DoSleep? && !(s.DoBlock? && s.timed)
    case Sleep(time) => Enabled(y.k, DoSleep) && time < T.HALF
    case Wait(w, order, time) => Enabled(y.k, DoBlock(w, order, true)) && 0 < time < T.HALF
    case Expire => T.PeriodsOk(y.ts) && T.Expired(y.ts)
    case TickInterrupt => !T.Expired(y.ts)
    case OtherTimer(x) => !x.CheckStep? && !x.TickStep? && T.TimerEnabled(y.ts, x) && x.t !in y.k.tcbs
  }

  ghost function SysNext(y: Sys, step: SysStep): Sys
    requires SysInv(y) && SysEnabled(y, step)
  {
    hide T.TimerInv, T.StaysInOrder, T.CanStart;
    match step
    case InKernel(s) => StoppedTimers(y, s); Sys(Apply(y.k, s), StopAll(y.ts, ToStop(y.k, s)))
    case Sleep(time) => CurrentTimer(y); Sys(Apply(y.k, DoSleep), StartFor(y.ts, y.k.current, time))
    case Wait(w, order, time) => CurrentTimer(y); Sys(Apply(y.k, DoBlock(w, order, true)), StartFor(y.ts, y.k.current, time))
    case Expire =>
      FirstTimer(y);
      var t := y.ts.Last()[0];
      Sys(if t in y.k.tcbs then Apply(y.k, DoTimeout(t)) else y.k, T.Fire(y.ts))
    case TickInterrupt => Sys(y.k, y.ts.(now := y.ts.now + 1))
    case OtherTimer(x) => Sys(y.k, T.TimerNext(y.ts, x))
  }

  lemma StoppedTimers(y: Sys, s: Step)
    requires SysInv(y) && Enabled(y.k, s)
    ensures forall t :: t in ToStop(y.k, s) ==> t in y.ts.tms && t in y.k.tcbs
  {
    hide Inv, T.TimerInv, Off, Loose, Takeable;
    InvTables(y.k);
  }

  lemma CurrentTimer(y: Sys)
    requires SysInv(y)
    ensures y.k.current in y.k.tcbs && y.k.current in y.ts.tms
  {
    InvCurrent(y.k);
  }

  lemma FirstTimer(y: Sys)
    requires SysInv(y) && T.Expired(y.ts)
    ensures y.ts.rows != [] && y.ts.Last() != [] && y.ts.Last()[0] in y.ts.Last()
    ensures var t := y.ts.Last()[0]; t in y.k.tcbs ==> Enabled(y.k, DoTimeout(t)) && !y.ts.tms[t].periodic && t in y.ts.tms
  {
    hide Inv;
  }

  // ---------- what the steps do to the list ----------

  /** Only thread t may have come into the list or gone; everybody's times are as they were. */
  ghost predicate ListMinus(ts: T.Ts, ts1: T.Ts, t: Tid) {
    && ts1.rows != [] && (forall u :: Listed(ts1, u) <==> Listed(ts, u) && u != t)
    && ts1.key == ts.key && ts1.now == ts.now && ts1.tms.Keys == ts.tms.Keys
    && forall u :: u in ts.tms ==> ts1.tms[u].periodic == ts.tms[u].periodic
  }

  lemma StopOneInv(ts: T.Ts, t: Tid)
    requires T.TimerInv(ts) && t in ts.tms
    ensures T.TimerInv(StopOne(ts, t)) && ListMinus(ts, StopOne(ts, t), t)
  {
    hide T.TimerInv, T.Tick, T.RemoveAll, Without, T.Absent;
    T.RemovedInv(ts, t);
    T.LastActive(ts);
  }

  /** Threads l have gone. */
  ghost predicate ListLess(ts: T.Ts, ts1: T.Ts, l: seq<Tid>) {
    && ts1.rows != [] && (forall u :: Listed(ts1, u) <==> Listed(ts, u) && u !in l)
    && ts1.key == ts.key && ts1.now == ts.now && ts1.tms.Keys == ts.tms.Keys
    && forall u :: u in ts.tms ==> ts1.tms[u].periodic == ts.tms[u].periodic
  }

  lemma {:induction false} StopAllInv(ts: T.Ts, l: seq<Tid>)
    requires T.TimerInv(ts) && forall t :: t in l ==> t in ts.tms
    ensures T.TimerInv(StopAll(ts, l)) && ListLess(ts, StopAll(ts, l), l)
    decreases |l|
  {
    hide T.TimerInv, StopOne;
    T.LastKeys(ts);
    if l != [] {
      StopOneInv(ts, l[0]);
      StopAllInv(StopOne(ts, l[0]), l[1..]);
      assert forall u :: u in l <==> u == l[0] || u in l[1..];
    }
  }

  lemma SetTimeInv(ts: T.Ts, t: Tid, time: nat)
    requires T.TimerInv(ts) && t in ts.tms
    ensures T.TimerInv(SetTime(ts, t, time)) && (time < T.HALF ==> T.CanStart(SetTime(ts, t, time), t))
  {
    T.SameRows(ts, SetTime(ts, t, time)) by { LateEnough(ts); }
  }

  lemma LateEnough(ts: T.Ts)
    requires T.TimerInv(ts)
    ensures forall t :: t in ts.Last() && t in ts.key ==> ts.now <= ts.key[t].due + T.LATE
  {
    hide T.RowsOk, T.Tick;
    forall t | t in ts.Last() && t in ts.key ensures ts.now <= ts.key[t].due + T.LATE { assert T.ActiveOk(ts, t); }
  }

  /** The timer of t is in the list, due time from now. */
  lemma StartForInv(ts: T.Ts, t: Tid, time: nat)
    requires T.TimerInv(ts) && t in ts.tms && time < T.HALF
    ensures var ts1 := StartFor(ts, t, time);
      && T.TimerInv(ts1) && ts1.rows != [] && (forall u :: Listed(ts1, u) <==> Listed(ts, u) || u == t)
      && t in ts1.key && ts1.key[t].due == ts.now + time && ts1.now == ts.now && ts1.tms.Keys == ts.tms.Keys
      && (forall u :: u in ts.key && u != t ==> u in ts1.key && ts1.key[u].due == ts.key[u].due)
      && forall u :: u in ts.tms ==> ts1.tms[u].periodic == ts.tms[u].periodic
  {
    hide T.TimerInv, T.Tick, T.Start, T.CanStart;
    SetTimeInv(ts, t, time);
    var ts0 := SetTime(ts, t, time);
    T.StartInv(ts0, t);
    T.LastKeys(ts);
    T.LastKeys(T.Start(ts0, t));
    T.StartedIn(ts0, t);
    D.StartedDue(ts0, t);
  }

  // ---------- every step keeps the invariant ----------

  lemma SysStepInv(y: Sys, step: SysStep)
    requires SysInv(y) && SysEnabled(y, step)
    ensures SysInv(SysNext(y, step))
  {
    hide SysInv, SysNext;
    match step {
      case InKernel(s) => InKernelInv(y, s);
      case Sleep(time) => StartInv(y, step, DoSleep, time);
      case Wait(w, order, time) => StartInv(y, step, DoBlock(w, order, true), time);
      case Expire => ExpireInv(y);
      case TickInterrupt => TickInv(y);
      case OtherTimer(x) => OtherInv(y, x);
    }
  }

  /** A step takes off the list exactly the timers that it says it stops. */
  lemma StopsThose(k: State, s: Step, t: Tid)
    requires Inv(k) && Enabled(k, s) && t in k.tcbs && !s.DoTimeout? && !s.DoSleep? && !(s.DoBlock? && s.timed)
    ensures var k1 := Apply(k, s); k1.tcbs.Keys == k.tcbs.Keys && (k1.tcbs[t].timerOn <==> k.tcbs[t].timerOn && t !in ToStop(k, s))
  {
    hide Inv, Apply, Choice, Loose, Off, Takeable;
    RecordStep(k, s, t);
    InvTables(k);
  }

  lemma InKernelInv(y: Sys, s: Step)
    requires SysInv(y) && SysEnabled(y, InKernel(s))
    ensures SysInv(SysNext(y, InKernel(s)))
  {
    hide Inv, T.TimerInv, Apply, Enabled, ToStop, StopAll;
    StoppedTimers(y, s);
    StopAllInv(y.ts, ToStop(y.k, s));
    CurrentTimer(y);
    StopsThose(y.k, s, y.k.current);
    forall t | t in y.k.tcbs ensures Apply(y.k, s).tcbs[t].timerOn <==> y.k.tcbs[t].timerOn && t !in ToStop(y.k, s) { StopsThose(y.k, s, t); }
  }

  lemma StartsThat(k: State, s: Step, t: Tid)
    requires Inv(k) && Enabled(k, s) && t in k.tcbs && (s.DoSleep? || (s.DoBlock? && s.timed))
    ensures var k1 := Apply(k, s); k1.tcbs.Keys == k.tcbs.Keys && (k1.tcbs[t].timerOn <==> k.tcbs[t].timerOn || t == k.current)
  {
    hide Inv, Apply, Choice;
    RecordStep(k, s, t);
  }

  lemma StartInv(y: Sys, step: SysStep, s: Step, time: nat)
    requires SysInv(y) && SysEnabled(y, step) && time < T.HALF && Enabled(y.k, s)
    requires (step == Sleep(time) && s == DoSleep) || (step.Wait? && step.time == time && s == DoBlock(step.w, step.order, true))
    ensures SysInv(SysNext(y, step))
  {
    hide Inv, T.TimerInv, Apply, Enabled, StartFor;
    CurrentTimer(y);
    StartForInv(y.ts, y.k.current, time);
    StartsThat(y.k, s, y.k.current);
    forall t | t in y.k.tcbs ensures Apply(y.k, s).tcbs[t].timerOn <==> y.k.tcbs[t].timerOn || t == y.k.current { StartsThat(y.k, s, t); }
  }

  lemma TimesOut(k: State, t: Tid, u: Tid)
    requires Inv(k) && Enabled(k, DoTimeout(t)) && u in k.tcbs
    ensures var k1 := Apply(k, DoTimeout(t)); k1.tcbs.Keys == k.tcbs.Keys && (k1.tcbs[u].timerOn <==> k.tcbs[u].timerOn && u != t)
  {
    hide Inv, Apply, Choice;
    RecordStep(k, DoTimeout(t), u);
  }

  lemma ExpireInv(y: Sys)
    requires SysInv(y) && SysEnabled(y, Expire)
    ensures SysInv(SysNext(y, Expire))
  {
    hide Inv, T.TimerInv, T.PeriodsOk, Apply, T.Fire, T.Expired;
    FirstTimer(y);
    var h := y.ts.Last()[0];
    T.FireInv(y.ts);
    T.LastActive(y.ts);
    forall u ensures Listed(T.Fire(y.ts), u) <==> Listed(y.ts, u) && !(u == h && !y.ts.tms[h].periodic) { T.FireList(y.ts, u); }
    D.FireKeys(y.ts);
    T.LastKeys(T.Fire(y.ts));
    FiredOnTime(y, h);
    if h in y.k.tcbs {
      TimesOut(y.k, h, h);
      forall u | u in y.k.tcbs ensures Apply(y.k, DoTimeout(h)).tcbs[u].timerOn <==> y.k.tcbs[u].timerOn && u != h { TimesOut(y.k, h, u); }
    }
  }

  lemma FiredOnTime(y: Sys, h: Tid)
    requires T.TimerInv(y.ts) && T.PeriodsOk(y.ts) && T.Expired(y.ts) && OnTime(y.ts) && y.ts.rows != [] && y.ts.Last() != [] && h == y.ts.Last()[0]
    requires T.TimerInv(T.Fire(y.ts)) && forall u :: Listed(T.Fire(y.ts), u) ==> Listed(y.ts, u)
    ensures OnTime(T.Fire(y.ts))
  {
    hide T.TimerInv, T.PeriodsOk, T.Fire;
    T.LastKeys(y.ts);
    T.LastKeys(T.Fire(y.ts));
    D.FireKeys(y.ts);
    var ts1 := T.Fire(y.ts);
    forall u | Listed(ts1, u) ensures u in ts1.key && ts1.now <= ts1.key[u].due {
      assert Listed(y.ts, u);
      if u != h || !y.ts.tms[h].periodic { assert D.SameDue(y.ts, ts1, u); }
    }
  }

  lemma TickInv(y: Sys)
    requires SysInv(y) && SysEnabled(y, TickInterrupt)
    ensures SysInv(SysNext(y, TickInterrupt))
  {
    hide Inv, T.TimerInv;
    T.NothingDue(y.ts);
    var ts1 := y.ts.(now := y.ts.now + 1);
    T.SameRows(y.ts, ts1) by { RowsThere(y.ts); }
  }

  lemma RowsThere(ts: T.Ts)
    requires T.TimerInv(ts)
    ensures ts.rows != []
  {
  }

  lemma OtherInv(y: Sys, x: T.TimerStep)
    requires SysInv(y) && SysEnabled(y, OtherTimer(x))
    ensures SysInv(SysNext(y, OtherTimer(x)))
  {
    hide Inv, T.TimerInv, T.TimerEnabled, T.TimerNext;
    T.TimerStepInv(y.ts, x);
    var ts1 := T.TimerNext(y.ts, x);
    T.LastKeys(y.ts);
    T.LastKeys(ts1);
    forall u ensures Listed(ts1, u) <==> (Listed(y.ts, u) && !T.Removes(y.ts, x, u)) || T.Inserts(x, u) { T.ListStep(y.ts, x, u); }
    OtherRecords(y.ts, x);
    OtherOnTime(y, x);
  }

  lemma OtherRecords(ts: T.Ts, x: T.TimerStep)
    requires T.TimerInv(ts) && T.TimerEnabled(ts, x) && !x.CheckStep? && !x.TickStep?
    ensures var ts1 := T.TimerNext(ts, x);
      (forall u :: u in ts.tms <==> u in ts1.tms) && (forall u :: u in ts.tms && u != x.t ==> ts1.tms[u].periodic == ts.tms[u].periodic)
      && ts1.now == ts.now
  {
    hide T.TimerInv, T.Tick, T.RemoveAll, T.InsertRows, T.Height, T.StaysInOrder;
    if x.StartStep? { T.RemovedInv(ts, x.t); }
    if x.StartInsertStep? { T.OutAbsent(ts, x.t); }
  }

  lemma OtherOnTime(y: Sys, x: T.TimerStep)
    requires T.TimerInv(y.ts) && OnTime(y.ts) && T.TimerEnabled(y.ts, x) && !x.CheckStep? && !x.TickStep?
    ensures OnTime(T.TimerNext(y.ts, x))
  {
    hide T.TimerInv, T.TimerNext, T.Tick, T.StaysInOrder;
    T.TimerStepInv(y.ts, x);
    var ts1 := T.TimerNext(y.ts, x);
    T.LastKeys(y.ts);
    T.LastKeys(ts1);
    OtherRecords(y.ts, x);
    forall u | Listed(ts1, u) ensures u in ts1.key && ts1.now <= ts1.key[u].due {
      T.ListStep(y.ts, x, u);
      D.DueStep(y.ts, x, u);
    }
  }

  // ---------- runs ----------

  /** A step from y to y1. The functions that describe steps are defined where the invariant holds; that it holds in
      every state of a run is shown, not assumed. */
  ghost predicate SysSteps(y: Sys, step: SysStep, y1: Sys) {
    SysInv(y) ==> SysEnabled(y, step) && y1 == SysNext(y, step)
  }

  ghost predicate SysRun(ys: seq<Sys>, steps: seq<SysStep>) {
    && |ys| == |steps| + 1
    && forall i :: 0 <= i < |steps| ==> SysSteps(ys[i], steps[i], ys[i + 1])
  }

  /** No timer has been started yet. */
  ghost predicate SysStart(y: Sys) {
    && Inv(y.k) && T.EmptyRows(y.ts)
    && forall t :: t in y.k.tcbs ==> t in y.ts.tms && !y.ts.tms[t].periodic && !y.k.tcbs[t].timerOn
  }

  lemma StartSysInv(y: Sys)
    requires SysStart(y)
    ensures SysInv(y)
  {
    hide Inv;
    T.StartStateInv(y.ts);
  }

  lemma {:induction false} SysRunInv(ys: seq<Sys>, steps: seq<SysStep>, i: nat)
    requires SysRun(ys, steps) && SysInv(ys[0]) && i < |ys|
    ensures SysInv(ys[i]) && (i < |steps| ==> SysEnabled(ys[i], steps[i]) && ys[i + 1] == SysNext(ys[i], steps[i]))
  {
    hide SysInv, SysEnabled, SysNext;
    if i > 0 {
      SysRunInv(ys, steps, i - 1);
      SysStepInv(ys[i - 1], steps[i - 1]);
    }
    if i < |steps| { assert SysSteps(ys[i], steps[i], ys[i + 1]); }
  }

  /** The step by which the current thread begins to sleep or wait for the given number of ticks. */
  ghost predicate BeginsTimed(step: SysStep, time: nat) {
    step == Sleep(time) || (step.Wait? && step.time == time)
  }

  /** Thread t, which is not the current one, or any thread in any other step, keeps the time at which it is due. */
  lemma DueKept(y: Sys, step: SysStep, t: Tid)
    requires SysInv(y) && SysEnabled(y, step) && t in y.k.tcbs
    ensures t in SysNext(y, step).k.tcbs
    ensures if (step.Sleep? || step.Wait?) && t == y.k.current then
              t in SysNext(y, step).ts.key && SysNext(y, step).ts.key[t].due == y.ts.now + step.time
            else D.SameDue(y.ts, SysNext(y, step).ts, t) || t !in y.ts.key
  {
    hide Inv, T.TimerInv, T.PeriodsOk, Apply, Enabled, StartFor, StopAll, T.Fire, T.TimerNext, T.TimerEnabled, T.Expired, ToStop;
    match step {
      case InKernel(s) =>
        StoppedTimers(y, s);
        StopAllInv(y.ts, ToStop(y.k, s));
        StopsThose(y.k, s, t);
      case Sleep(time) => CurrentTimer(y); StartForInv(y.ts, y.k.current, time); StartsThat(y.k, DoSleep, t);
      case Wait(w, order, time) => CurrentTimer(y); StartForInv(y.ts, y.k.current, time); StartsThat(y.k, DoBlock(w, order, true), t);
      case Expire =>
        FirstTimer(y);
        D.FireKeys(y.ts);
        if y.ts.Last()[0] in y.k.tcbs { TimesOut(y.k, y.ts.Last()[0], t); }
      case TickInterrupt =>
      case OtherTimer(x) => D.DueStep(y.ts, x, t);
    }
  }

  /** At step i thread t begins to sleep or wait for the given number of ticks, and does not begin to again before
      state j. */
  ghost predicate SinceThen(ys: seq<Sys>, steps: seq<SysStep>, i: nat, j: nat, t: Tid, time: nat) {
    && i < j < |ys| == |steps| + 1 && BeginsTimed(steps[i], time) && ys[i].k.current == t
    && forall m :: i < m < j && (steps[m].Sleep? || steps[m].Wait?) ==> ys[m].k.current != t
  }

  lemma {:induction false} DueSince(ys: seq<Sys>, steps: seq<SysStep>, i: nat, j: nat, t: Tid, time: nat)
    requires SysRun(ys, steps) && SysInv(ys[0]) && SinceThen(ys, steps, i, j, t, time)
    ensures SysInv(ys[j]) && t in ys[j].k.tcbs && t in ys[j].ts.key && ys[j].ts.key[t].due == ys[i].ts.now + time
    decreases j
  {
    hide SysInv, SysEnabled, SysNext;
    SysRunInv(ys, steps, j);
    if j == i + 1 {
      SysRunInv(ys, steps, i);
      CurrentThere(ys[i]);
      DueKept(ys[i], steps[i], t);
    } else {
      DueSince(ys, steps, i, j - 1, t, time);
      SysRunInv(ys, steps, j - 1);
      DueKept(ys[j - 1], steps[j - 1], t);
    }
  }

  lemma CurrentThere(y: Sys)
    requires SysInv(y)
    ensures y.k.current in y.k.tcbs
  {
    InvCurrent(y.k);
  }

  /** Thread t's timer is the first in the list. */
  ghost predicate FirstIs(ts: T.Ts, t: Tid) { ts.rows != [] && ts.Last() != [] && ts.Last()[0] == t }

  /** Thread t has been taken off any wait list with -RT_ETIMEOUT, and its timer is stopped. */
  ghost predicate TimedOut(k: State, t: Tid) {
    && t in k.tcbs && k.tcbs[t].error == ETIMEOUT && !k.tcbs[t].timerOn && k.tcbs[t].stat in {Ready, Running}
    && forall w :: WaitQ(w) in k.lists ==> t !in k.lists[WaitQ(w)]
  }

  /** In every run: a thread that sleeps or waits with a timeout of time ticks does not do so for longer; and when it is
      timed out, that is exactly time ticks later. */
  lemma TimedOutOnTime(ys: seq<Sys>, steps: seq<SysStep>, i: nat, j: nat, t: Tid, time: nat)
    requires SysRun(ys, steps) && SysStart(ys[0]) && SinceThen(ys, steps, i, j, t, time)
    ensures SysInv(ys[j]) && t in ys[j].k.tcbs
    ensures ys[j].k.tcbs[t].timerOn ==> ys[j].ts.now <= ys[i].ts.now + time
    ensures j < |steps| && steps[j] == Expire && FirstIs(ys[j].ts, t) ==>
              ys[j].ts.now == ys[i].ts.now + time && TimedOut(ys[j + 1].k, t)
  {
    hide SysInv, SysEnabled, SysNext, SysStart;
    StartSysInv(ys[0]);
    DueSince(ys, steps, i, j, t, time);
    SysRunInv(ys, steps, j);
    NotOverdue(ys[j], t);
    if j < |steps| && steps[j] == Expire && FirstIs(ys[j].ts, t) { TimesOutNow(ys[j], t); }
  }

  lemma NotOverdue(y: Sys, t: Tid)
    requires SysInv(y) && t in y.k.tcbs && t in y.ts.key
    ensures y.k.tcbs[t].timerOn ==> y.ts.now <= y.ts.key[t].due
  {
    hide Inv, T.TimerInv;
  }

  lemma TimesOutNow(y: Sys, t: Tid)
    requires SysInv(y) && SysEnabled(y, Expire) && t in y.k.tcbs && t in y.ts.key && FirstIs(y.ts, t)
    ensures y.ts.now == y.ts.key[t].due && TimedOut(SysNext(y, Expire).k, t)
  {
    hide Inv, T.TimerInv, T.PeriodsOk, T.Fire;
    FirstTimer(y);
    assert Listed(y.ts, t);
    TimeoutInv(y.k, t);
    hide Timeout;
  }
}
