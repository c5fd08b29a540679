/** Counting semaphores with timeouts: rt_sem_take, rt_sem_release, rt_sem_control (rt-thread/src/ipc.c). */
module Semaphore {
  import opened Seqs
  import opened KernelSpec
  import opened KernelRuns
  import opened Waiting
  import opened KernelObject

  const VALUE_MAX: nat := 0xFFFF

  /** What has happened so far. start is the initial value, re-based by a reset. */
  datatype History = History(start: int, releases: nat, taken: nat, granted: nat,
                             begun: nat, timedOut: nat, failed: nat, deleted: nat)

  datatype Sem = Sem(l: Layer, wid: Wid, order: Order, value: nat, h: History)

  /** What a call has returned, if it has. */
  datatype Outcome = Done(error: Err) | Pending

  function Waiters(s: Sem): seq<Tid>
    requires WaitQ(s.wid) in s.l.k.lists
  {
    s.l.k.lists[WaitQ(s.wid)]
  }

  /** A positive value means nobody waits; tokens are conserved; and every wait that was begun is still going on
      or has ended in exactly one way. */
  ghost predicate SemInv(s: Sem) {
    && Ok(s.l) && s.l.ours == {s.wid}
    && s.value <= VALUE_MAX
    && (s.value > 0 ==> Waiters(s) == [])
    && s.value + s.h.taken + s.h.granted == s.h.start + s.h.releases
    && s.h.begun == |Waiters(s)| + s.h.granted + s.h.timedOut + s.h.failed + s.h.deleted
  }

  // ---------- the critical regions ----------

  ghost function Take(s: Sem, time: int): (Sem, Outcome)
    requires SemInv(s)
    requires s.value == 0 && time != 0 ==> s.l.k.tcbs[s.l.k.current].stat == Running && s.l.k.current !in s.l.calls
  {
    if s.value > 0 then (s.(value := s.value - 1, h := s.h.(taken := s.h.taken + 1)), Done(EOK))
    else if time == 0 then (s, Done(ETIMEOUT))
    else (s.(l := Begin(s.l, s.wid, s.order, time > 0), h := s.h.(begun := s.h.begun + 1)), Pending)
  }

  /** The rest of rt_sem_take once the suspended thread runs again. */
  ghost function Finish(s: Sem): (Sem, Outcome)
    requires Ok(s.l) && Back(s.l)
  {
    (s.(l := Leave(s.l)), Done(s.l.k.tcbs[s.l.k.current].error))
  }

  ghost function Release(s: Sem): Sem
    requires SemInv(s)
  {
    if Waiters(s) != [] then
      s.(l := WakeOne(s.l, s.wid, Waiters(s)[0]), h := s.h.(releases := s.h.releases + 1, granted := s.h.granted + 1))
    else s.(value := s.value + 1, h := s.h.(releases := s.h.releases + 1))
  }

  ghost function Reset(s: Sem, v: nat): Sem
    requires SemInv(s)
  {
    s.(l := WakeAll(s.l, s.wid), value := v,
       h := s.h.(failed := s.h.failed + |Waiters(s)|, start := v + s.h.taken + s.h.granted - s.h.releases))
  }

  ghost function Elsewhere(s: Sem, x: Step): Sem
    requires SemInv(s) && Foreign(s.l, x)
  {
    var ends := |Waiters(s)| - |ListAfter(Waiters(s), x)|;
    s.(l := Other(s.l, x),
       h := match x
            case DoTimeout(t) => s.h.(timedOut := s.h.timedOut + ends)
            case DoDeleteRemove(t) => s.h.(deleted := s.h.deleted + ends)
            case _ => s.h)
  }

  // ---------- runs ----------

  datatype SemStep =
    | TakeStep(time: int)
    | FinishStep
    | ReleaseStep
    | ResetStep(v: nat)
    | ElsewhereStep(x: Step)

  ghost predicate SemEnabled(s: Sem, step: SemStep)
    requires SemInv(s)
  {
    match step
    case TakeStep(time) =>
      s.value == 0 && time != 0 ==> s.l.k.tcbs[s.l.k.current].stat == Running && s.l.k.current !in s.l.calls
    case FinishStep => Back(s.l)
    case ReleaseStep => s.value < VALUE_MAX
    case ResetStep(v) => v <= VALUE_MAX
    case ElsewhereStep(x) => Foreign(s.l, x)
  }

  ghost function SemNext(s: Sem, step: SemStep): Sem
    requires SemInv(s) && SemEnabled(s, step)
  {
    match step
    case TakeStep(time) => Take(s, time).0
    case FinishStep => Finish(s).0
    case ReleaseStep => Release(s)
    case ResetStep(v) => Reset(s, v)
    case ElsewhereStep(x) => Elsewhere(s, x)
  }

  lemma SemStepInv(s: Sem, step: SemStep)
    requires SemInv(s) && SemEnabled(s, step)
    ensures SemInv(SemNext(s, step))
  {
    hide CallOk, Foreign, ListAfter, CallsAfter, Inv;
    match step {
      case TakeStep(time) => if s.value == 0 && time != 0 { TakeBlocks(s, time); }
      case FinishStep => LeaveOk(s.l);
      case ReleaseStep => if Waiters(s) != [] { ReleaseWakes(s); }
      case ResetStep(v) => WakeAllOk(s.l, s.wid);
      case ElsewhereStep(x) => ElsewhereInv(s, x);
    }
  }

  lemma TakeBlocks(s: Sem, time: int)
    requires SemInv(s) && SemEnabled(s, TakeStep(time)) && s.value == 0 && time != 0
    ensures SemInv(Take(s, time).0)
  {
    hide CallOk, Inv;
    BeginOk(s.l, s.wid, s.order, time > 0);
    hide Begin, Position, Lists;
  }

  lemma ReleaseWakes(s: Sem)
    requires SemInv(s) && Waiters(s) != []
    ensures SemInv(Release(s))
  {
    hide Inv, CallOk, Placed, Priorities, BitmapExact;
    var t := Waiters(s)[0];
    InvCurrent(s.l.k);
    WakeOneOk(s.l, s.wid, t);
    WithoutLength(Waiters(s), t);
  }

  lemma ElsewhereInv(s: Sem, x: Step)
    requires SemInv(s) && Foreign(s.l, x)
    ensures SemInv(Elsewhere(s, x))
  {
    OtherOk(s.l, x);
  }

  /** rt_sem_take returns RT_EOK exactly when a token was consumed for its caller: at once, or by the release that
      ended its wait. */
  lemma TakeOutcome(s: Sem, time: int)
    requires SemInv(s) && SemEnabled(s, TakeStep(time))
    ensures Take(s, time).1 == Done(EOK) <==> Take(s, time).0.h.taken == s.h.taken + 1
    ensures Take(s, time).1 == Done(EOK) || (Take(s, time).0.value == s.value && Take(s, time).0.h.taken == s.h.taken)
    ensures Back(s.l) ==> (Finish(s).1 == Done(EOK) <==> s.l.calls[s.l.k.current].phase == Woke(EOK))
  {
    hide Inv, CallOk;
    if Back(s.l) { LeaveOk(s.l); }
  }

  /** A step from s to s1. The functions that describe steps are defined where the invariant holds; that it holds in
      every state of a run is shown, not assumed. */
  ghost predicate SemSteps(s: Sem, step: SemStep, s1: Sem) {
    SemInv(s) ==> SemEnabled(s, step) && s1 == SemNext(s, step)
  }

  ghost predicate SemRun(ss: seq<Sem>, steps: seq<SemStep>) {
    && |ss| == |steps| + 1
    && forall i :: 0 <= i < |steps| ==> SemSteps(ss[i], steps[i], ss[i + 1])
  }

  lemma {:induction false} SemRunInv(ss: seq<Sem>, steps: seq<SemStep>, i: nat)
    requires SemRun(ss, steps) && SemInv(ss[0]) && i < |ss|
    ensures SemInv(ss[i]) && (i < |steps| ==> SemEnabled(ss[i], steps[i]))
  {
    hide SemInv, SemEnabled, SemNext;
    if i > 0 {
      SemRunInv(ss, steps, i - 1);
      SemStepInv(ss[i - 1], steps[i - 1]);
      assert SemSteps(ss[i - 1], steps[i - 1], ss[i]);
    }
    if i < |steps| { assert SemSteps(ss[i], steps[i], ss[i + 1]); }
  }

  /** The semaphore as rt_sem_init leaves it. */
  ghost predicate SemStart(s: Sem, k: State, wid: Wid, order: Order, value: nat) {
    && Inv(k) && WaitQ(wid) in k.lists && k.lists[WaitQ(wid)] == [] && value <= VALUE_MAX
    && s == Sem(Layer(k, {wid}, map[]), wid, order, value, History(value, 0, 0, 0, 0, 0, 0, 0))
  }

  function CountReleases(steps: seq<SemStep>): nat {
    if steps == [] then 0 else CountReleases(steps[..|steps| - 1]) + (if steps[|steps| - 1].ReleaseStep? then 1 else 0)
  }

  lemma SemStepCounts(s: Sem, step: SemStep)
    requires SemInv(s) && SemEnabled(s, step)
    ensures SemNext(s, step).h.releases == s.h.releases + (if step.ReleaseStep? then 1 else 0)
    ensures !step.ResetStep? ==> SemNext(s, step).h.start == s.h.start
  {
    hide Ok;
  }

  ghost predicate NoReset(steps: seq<SemStep>) {
    forall j :: 0 <= j < |steps| ==> !steps[j].ResetStep?
  }

  /** In every state of every run from rt_sem_init, with any waits, timeouts, deletions and resets and anything else
      going on in the kernel: a positive value excludes waiters, and every wait that was begun is still going on or
      ended exactly once. Without resets, initial value + releases = value + tokens handed out. */
  lemma SemaphoreRuns(ss: seq<Sem>, steps: seq<SemStep>, k: State, wid: Wid, order: Order, value: nat, i: nat)
    requires SemRun(ss, steps) && SemStart(ss[0], k, wid, order, value) && i < |ss|
    ensures SemInv(ss[i])
    ensures NoReset(steps[..i]) ==> value + CountReleases(steps[..i]) == ss[i].value + ss[i].h.taken + ss[i].h.granted
  {
    hide SemRun, SemInv, SemStart, CountReleases, NoReset;
    StartCounts(ss[0], k, wid, order, value);
    SemRunInv(ss, steps, i);
    CountsAlongRun(ss, steps, i);
    TokensKept(ss[i]);
  }

  lemma StartCounts(s: Sem, k: State, wid: Wid, order: Order, value: nat)
    requires SemStart(s, k, wid, order, value)
    ensures SemInv(s) && s.h.start == value && s.h.releases == 0
  {
    hide Inv;
  }

  lemma TokensKept(s: Sem)
    requires SemInv(s)
    ensures s.value + s.h.taken + s.h.granted == s.h.start + s.h.releases
  {
    hide Ok;
  }

  lemma {:induction false} CountsAlongRun(ss: seq<Sem>, steps: seq<SemStep>, i: nat)
    requires SemRun(ss, steps) && SemInv(ss[0]) && i < |ss|
    ensures ss[i].h.releases == ss[0].h.releases + CountReleases(steps[..i])
    ensures NoReset(steps[..i]) ==> ss[i].h.start == ss[0].h.start
  {
    hide SemInv, SemEnabled, SemNext;
    if i > 0 {
      RunStep(ss, steps, i - 1);
      hide SemRun;
      CountsAlongRun(ss, steps, i - 1);
      CountOneMore(steps, i);
      SemStepCounts(ss[i - 1], steps[i - 1]);
    }
  }

  lemma RunStep(ss: seq<Sem>, steps: seq<SemStep>, i: nat)
    requires SemRun(ss, steps) && SemInv(ss[0]) && i < |steps|
    ensures SemInv(ss[i]) && SemEnabled(ss[i], steps[i]) && ss[i + 1] == SemNext(ss[i], steps[i])
  {
    hide SemInv, SemEnabled, SemNext;
    SemRunInv(ss, steps, i);
    assert SemSteps(ss[i], steps[i], ss[i + 1]);
  }

  lemma CountOneMore(steps: seq<SemStep>, i: nat)
    requires 0 < i <= |steps|
    ensures CountReleases(steps[..i]) == CountReleases(steps[..i - 1]) + (if steps[i - 1].ReleaseStep? then 1 else 0)
    ensures NoReset(steps[..i]) ==> NoReset(steps[..i - 1]) && !steps[i - 1].ResetStep?
  {
    assert steps[..i][..i - 1] == steps[..i - 1] && steps[..i][i - 1] == steps[i - 1];
  }

  /** How a wait can end. Released: one token, error OK. Timed out: no token, error ETIMEOUT. Reset: error. Deleted:
      the thread leaves the list, and then the call when it is closed, unless the timer fires first. Otherwise it goes
      on; and its outcome, once there, stays until the thread itself returns it. */
  ghost predicate Progress(s: Sem, s1: Sem, step: SemStep, t: Tid)
    requires WaitQ(s.wid) in s.l.k.lists && t in s.l.calls && s.l.k.current in s.l.k.tcbs
  {
    var was := s.l.calls[t].phase;
    if t !in s1.l.calls then
      || (was.Gone? && step == ElsewhereStep(DoDeleteClose(t)))
      || (step == FinishStep && t == s.l.k.current && was == Woke(s.l.k.tcbs[t].error))
    else if s1.l.calls[t].phase == was then true
    else
      !was.Woke? &&
      match s1.l.calls[t].phase
      case Waits => false
      case Gone => was.Waits? && step == ElsewhereStep(DoDeleteRemove(t)) && s1.value == s.value
                   && s1.h == s.h.(deleted := s.h.deleted + 1)
      case Woke(EOK) => was.Waits? && step == ReleaseStep && Waiters(s) != [] && Waiters(s)[0] == t && s1.value == s.value
                        && s1.h == s.h.(releases := s.h.releases + 1, granted := s.h.granted + 1)
      case Woke(ETIMEOUT) => step == ElsewhereStep(DoTimeout(t)) && s1.value == s.value
                             && s1.h == (if was.Waits? then s.h.(timedOut := s.h.timedOut + 1) else s.h)
      case Woke(ERROR) => was.Waits? && step.ResetStep?
      case Woke(EFULL) => false
  }

  lemma WaitEndsOnce(s: Sem, step: SemStep, t: Tid)
    requires SemInv(s) && SemEnabled(s, step) && t in s.l.calls
    ensures s.l.k.current in s.l.k.tcbs && Progress(s, SemNext(s, step), step, t)
  {
    hide Inv, CallOk, Foreign, Progress, Take, Release, Reset, Elsewhere;
    CurrentThread(s.l.k);
    if step.FinishStep? {
      FinishProgress(s, t);
    } else if step.ElsewhereStep? {
      ElsewhereProgress(s, step.x, t);
    } else {
      OwnStepProgress(s, step, t);
    }
  }

  lemma CurrentThread(k: State)
    requires Inv(k)
    ensures k.current in k.tcbs
  {
  }

  lemma FinishProgress(s: Sem, t: Tid)
    requires SemInv(s) && Back(s.l) && t in s.l.calls
    ensures Progress(s, Finish(s).0, FinishStep, t)
  {
    hide Inv, CallOk, Foreign;
    LeaveOk(s.l);
  }

  lemma OwnStepProgress(s: Sem, step: SemStep, t: Tid)
    requires SemInv(s) && SemEnabled(s, step) && t in s.l.calls && s.l.k.current in s.l.k.tcbs
    requires step.TakeStep? || step.ReleaseStep? || step.ResetStep?
    ensures Progress(s, SemNext(s, step), step, t)
  {
    hide Inv, Foreign;
    assert CallOk(s.l, t);
    if step.ReleaseStep? && Waiters(s) != [] { assert Waiters(s)[0] in Waiters(s); }
    hide CallOk;
  }

  lemma ElsewhereProgress(s: Sem, x: Step, t: Tid)
    requires SemInv(s) && Foreign(s.l, x) && t in s.l.calls && s.l.k.current in s.l.k.tcbs
    ensures Progress(s, Elsewhere(s, x), ElsewhereStep(x), t)
  {
    hide Apply, Inv, Enabled;
    OutcomeStays(s.l, x, t);
    if (x.DoTimeout? || x.DoDeleteRemove?) && x.t == t && s.l.calls[t].phase.Waits? { ListHas(s, t); }
    if x == DoTimeout(t) && s.l.calls[t].phase.Gone? { assert CallOk(s.l, t) && t !in Waiters(s); }
    hide CallOk;
  }

  lemma ListHas(s: Sem, t: Tid)
    requires SemInv(s) && t in s.l.calls && s.l.calls[t].phase.Waits?
    ensures t in Waiters(s) && |Without(Waiters(s), t)| == |Waiters(s)| - 1
  {
    hide Inv;
    assert CallOk(s.l, t);
    InvCurrent(s.l.k);
    WithoutLength(Waiters(s), t);
  }

  // ---------- the object ----------

  class RtSemaphore {
    const kernel: Kernel
    const wid: Wid
    const order: Order
    var value: nat
    ghost var calls: map<Tid, Call>
    ghost var h: History

    ghost function Abs(): Sem
      reads this, kernel
    {
      Sem(Layer(kernel.St(), {wid}, calls), wid, order, value, h)
    }

    /** rt_sem_init */
    constructor (kernel: Kernel, wid: Wid, order: Order, value: nat)
      requires Inv(kernel.St()) && WaitQ(wid) in kernel.lists && kernel.lists[WaitQ(wid)] == [] && value <= VALUE_MAX
      ensures this.kernel == kernel && SemStart(Abs(), kernel.St(), wid, order, value) && SemInv(Abs())
    {
      this.kernel, this.wid, this.order, this.value := kernel, wid, order, value;
      calls, h := map[], History(value, 0, 0, 0, 0, 0, 0, 0);
    }

    /** rt_sem_take up to its rt_schedule. */
    method TakeRegion(time: int) returns (r: Outcome)
      requires SemInv(Abs()) && SemEnabled(Abs(), TakeStep(time))
      modifies this, kernel
      ensures (Abs(), r) == Take(old(Abs()), time) && SemInv(Abs())
    {
      hide Inv, Lists, CallOk, Block;
      SemStepInv(Abs(), TakeStep(time));
      if value > 0 {
        value := value - 1;
        h := h.(taken := h.taken + 1);
        return Done(EOK);
      }
      if time == 0 { return Done(ETIMEOUT); }
      calls := calls[kernel.current := Call(wid, Waits)];
      h := h.(begun := h.begun + 1);
      kernel.BlockCurrent(wid, order, time > 0);
      r := Pending;
    }

    /** rt_sem_take after its rt_schedule. */
    method TakeReturns() returns (e: Err)
      requires SemInv(Abs()) && Back(Abs().l)
      modifies this
      ensures (Abs(), Done(e)) == Finish(old(Abs())) && SemInv(Abs())
    {
      hide Inv, CallOk, Foreign;
      SemStepInv(Abs(), FinishStep);
      calls := map t | t in calls && t != kernel.current :: calls[t];
      e := kernel.tcbs[kernel.current].error;
    }

    method ReleaseRegion()
      requires SemInv(Abs()) && value < VALUE_MAX
      modifies this, kernel
      ensures Abs() == Release(old(Abs())) && SemInv(Abs())
    {
      hide Inv, CallOk;
      SemStepInv(Abs(), ReleaseStep);
      h := h.(releases := h.releases + 1);
      if kernel.lists[WaitQ(wid)] != [] {
        calls := calls[kernel.lists[WaitQ(wid)][0] := Call(wid, Woke(EOK))];
        h := h.(granted := h.granted + 1);
        kernel.IpcListResume(wid);
      } else {
        value := value + 1;
      }
    }

    method ResetRegion(v: nat)
      requires SemInv(Abs()) && v <= VALUE_MAX
      modifies this, kernel
      ensures Abs() == Reset(old(Abs()), v) && SemInv(Abs())
    {
      hide Inv, CallOk;
      SemStepInv(Abs(), ResetStep(v));
      h := h.(failed := h.failed + |kernel.lists[WaitQ(wid)]|, start := v + h.taken + h.granted - h.releases);
      calls := map t | t in calls :: if calls[t] == Call(wid, Waits) then Call(wid, Woke(ERROR)) else calls[t];
      kernel.IpcListResumeAll(wid);
      value := v;
    }
  }
}
