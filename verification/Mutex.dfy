/** Mutexes with priority inheritance: rt_mutex_take, rt_mutex_release (rt-thread/src/ipc.c). */
module Mutex {
  import opened Seqs
  import opened ReadyBitmap
  import opened KernelSpec
  import opened KernelRuns
  import opened ThreadSteps
  import opened Waiting
  import opened KernelObject

  const HOLD_MAX: nat := 0xFF

  datatype Owner = Nobody | Thread(t: Tid)
  datatype Outcome = Done(error: Err) | Pending

  /** base is each thread's own priority, what it would run at without this mutex. */
  datatype Mx = Mx(l: Layer, wid: Wid, order: Order, value: nat, owner: Owner, orig: nat, hold: nat,
                   ghost base: map<Tid, nat>)

  ghost function Waiters(m: Mx): seq<Tid>
    requires WaitQ(m.wid) in m.l.k.lists
  {
    m.l.k.lists[WaitQ(m.wid)]
  }

  /** The owner is a started thread that does not wait for the mutex; a thread whose wait ended well owns it. */
  ghost predicate OwnerOk(m: Mx) {
    && (m.owner.Thread? ==>
          && m.owner.t in m.l.k.tcbs && Started(m.l.k.tcbs[m.owner.t]) && ReadyQ(m.orig) in m.l.k.lists
          && (m.owner.t in m.l.calls ==> m.l.calls[m.owner.t].phase == Woke(EOK)))
    && (forall t :: t in m.l.calls && m.l.calls[t].phase == Woke(EOK) ==> m.owner == Thread(t) && m.hold == 1)
  }

  ghost predicate MxInv(m: Mx) {
    && Ok(m.l) && m.l.ours == {m.wid}
    && m.value <= 1
    && (m.value == 1 <==> m.owner == Nobody)
    && (m.hold == 0 <==> m.owner == Nobody)
    && (Waiters(m) != [] ==> m.owner != Nobody)
    && OwnerOk(m)
  }

  // ---------- the critical regions ----------

  /** Priority inheritance: the owner is raised to the priority of the thread about to wait. */
  ghost function Boost(m: Mx): Mx
    requires Ok(m.l) && OwnerOk(m) && m.owner.Thread? && m.l.k.current in m.l.k.tcbs
  {
    var p := m.l.k.tcbs[m.l.k.current].prio;
    InvPlaces(m.l.k, m.l.k.current);
    if p < m.l.k.tcbs[m.owner.t].prio then m.(l := Reprioritise(m.l, m.owner.t, p)) else m
  }

  ghost function Take(m: Mx, time: int): (Mx, Outcome)
    requires MxInv(m) && CanBlock(m.l)
  {
    hide Inv, CallOk;
    var c := m.l.k.current;
    WithErrorOk(m.l, EOK);
    var m1 := m.(l := WithError(m.l, EOK));
    if m.owner == Thread(c) then (m1.(hold := m.hold + 1), Done(EOK))
    else if m.value > 0 then
      (m1.(value := m.value - 1, owner := Thread(c), orig := m.l.k.tcbs[c].prio, hold := m.hold + 1), Done(EOK))
    else if time == 0 then (m1.(l := WithError(m1.l, ETIMEOUT)), Done(ETIMEOUT))
    else
      BoostOk(m1);
      (Boost(m1).(l := Begin(Boost(m1).l, m.wid, m.order, time > 0)), Pending)
  }

  /** m1 is m with nothing changed but the priority of the owner, which is now p. */
  ghost predicate OwnerAt(m: Mx, m1: Mx, p: nat)
    requires m.owner.Thread? && m.owner.t in m.l.k.tcbs
  {
    var o, k, k1 := m.owner.t, m.l.k, m1.l.k;
    && m1 == m.(l := m.l.(k := k1))
    && k1.current == k.current && k1.lists.Keys == k.lists.Keys
    && (forall w :: WaitQ(w) in k.lists ==> k1.lists[WaitQ(w)] == k.lists[WaitQ(w)])
    && o in k1.tcbs && k1.tcbs == k.tcbs[o := k.tcbs[o].(prio := p, attr := k1.tcbs[o].attr)]
  }

  lemma OwnerMoves(m: Mx, p: nat)
    requires Ok(m.l) && OwnerOk(m) && m.owner.Thread? && ReadyQ(p) in m.l.k.lists
    ensures var m1 := m.(l := Reprioritise(m.l, m.owner.t, p)); Ok(m1.l) && OwnerOk(m1) && OwnerAt(m, m1, p)
  {
    hide Inv, CallOk;
    ReprioritiseOk(m.l, m.owner.t, p);
    hide Reprioritise;
  }

  lemma BoostOk(m: Mx)
    requires Ok(m.l) && OwnerOk(m) && m.owner.Thread? && m.l.k.current in m.l.k.tcbs
    ensures var m1, p := Boost(m), m.l.k.tcbs[m.l.k.current].prio;
      && Ok(m1.l) && OwnerOk(m1)
      && OwnerAt(m, m1, if p < m.l.k.tcbs[m.owner.t].prio then p else m.l.k.tcbs[m.owner.t].prio)
  {
    hide Inv, CallOk;
    InvPlaces(m.l.k, m.l.k.current);
    var p := m.l.k.tcbs[m.l.k.current].prio;
    if p < m.l.k.tcbs[m.owner.t].prio { OwnerMoves(m, p); }
    hide Ok, OwnerOk;
  }

  /** The rest of rt_mutex_take once the suspended thread runs again. */
  ghost function Finish(m: Mx): (Mx, Outcome)
    requires Ok(m.l) && Back(m.l)
  {
    (m.(l := Leave(m.l)), Done(m.l.k.tcbs[m.l.k.current].error))
  }

  /** The owner's priority at acquisition, given back at the last release. */
  ghost function Restore(m: Mx): Mx
    requires Ok(m.l) && OwnerOk(m) && m.owner.Thread?
  {
    if m.orig != m.l.k.tcbs[m.owner.t].prio then m.(l := Reprioritise(m.l, m.owner.t, m.orig)) else m
  }

  lemma RestoreOk(m: Mx)
    requires Ok(m.l) && OwnerOk(m) && m.owner.Thread?
    ensures Ok(Restore(m).l) && OwnerOk(Restore(m)) && OwnerAt(m, Restore(m), m.orig)
  {
    hide Inv, CallOk;
    if m.orig != m.l.k.tcbs[m.owner.t].prio { OwnerMoves(m, m.orig); }
    hide Ok, OwnerOk;
  }

  ghost function Release(m: Mx): (Mx, Outcome)
    requires MxInv(m) && m.l.k.current in m.l.k.tcbs && m.l.k.current !in m.l.calls
  {
    var c := m.l.k.current;
    if m.owner != Thread(c) then (m.(l := WithError(m.l, ERROR)), Done(ERROR))
    else if m.hold > 1 then (m.(hold := m.hold - 1), Done(EOK))
    else
      RestoreOk(m);
      var m1 := Restore(m);
      if Waiters(m) != [] then
        var t := Waiters(m)[0];
        InvPlaces(m1.l.k, t);
        (m1.(l := WakeOne(m1.l, m.wid, t), owner := Thread(t), orig := m1.l.k.tcbs[t].prio, hold := 1), Done(EOK))
      else (m1.(value := m.value + 1, owner := Nobody, orig := 0xff, hold := 0), Done(EOK))
  }

  /** A release undoes a take that did not have to wait, nested or not, but for thread->error. */
  lemma ReleaseUndoesTake(m: Mx, time: int)
    requires MxInv(m) && CanBlock(m.l) && m.hold < HOLD_MAX && (m.owner == Thread(m.l.k.current) || m.value > 0)
    ensures var m1, orig := Take(m, time).0, if m.owner == Nobody then 0xff else m.orig;
      MxInv(m1) && CanBlock(m1.l) && Release(m1) == (m.(l := WithError(m.l, EOK), orig := orig), Done(EOK))
  {
    hide Inv, CallOk;
    TakeInv(m, time);
    WithErrorOk(m.l, EOK);
  }

  /** A step of the rest of the system; base follows the priority changes made outside. */
  ghost function Elsewhere(m: Mx, x: Step): Mx
    requires MxInv(m) && Foreign(m.l, x)
  {
    m.(l := Other(m.l, x),
       base := match x case DoChangePriority(t, p) => m.base[t := p] case _ => m.base)
  }

  // ---------- every step keeps the invariant ----------

  lemma TakeInv(m: Mx, time: int)
    requires MxInv(m) && CanBlock(m.l) && m.hold < HOLD_MAX
    ensures MxInv(Take(m, time).0)
  {
    hide Inv, CallOk, Boost;
    InvCurrent(m.l.k);
    WithErrorOk(m.l, EOK);
    var m1 := m.(l := WithError(m.l, EOK));
    if m.owner != Thread(m.l.k.current) && m.value == 0 {
      if time == 0 {
        WithErrorOk(m1.l, ETIMEOUT);
      } else {
        TakeBlocks(m1, time > 0);
      }
    }
    hide Base;
  }

  lemma TakeBlocks(m: Mx, timed: bool)
    requires MxInv(m) && CanBlock(m.l) && m.owner.Thread? && m.owner.t != m.l.k.current
    ensures Ok(Boost(m).l) && CanBlock(Boost(m).l) && Boost(m).l.ours == m.l.ours
    ensures MxInv(Boost(m).(l := Begin(Boost(m).l, m.wid, m.order, timed)))
  {
    hide Inv, CallOk, Boost, OwnerOk;
    BoostOk(m);
    var m1 := Boost(m);
    Begun(m1.l, m.wid, m.order, timed);
    hide Ok, Begin;
    OwnerStays(m1, m1.(l := Begin(m1.l, m.wid, m.order, timed)));
  }

  lemma OwnerStays(m: Mx, m1: Mx)
    requires OwnerOk(m) && m.owner.Thread? && m.owner.t != m.l.k.current && m.l.k.current in m.l.k.tcbs
    requires m1.owner == m.owner && m1.orig == m.orig && m1.hold == m.hold && m1.l.k.lists.Keys == m.l.k.lists.Keys
    requires m1.l.calls == m.l.calls[m.l.k.current := Call(m.wid, Waits)]
    requires m1.l.k.tcbs.Keys == m.l.k.tcbs.Keys && m1.l.k.tcbs[m.owner.t] == m.l.k.tcbs[m.owner.t]
    ensures OwnerOk(m1)
  {
  }

  lemma ReleaseInv(m: Mx)
    requires MxInv(m) && m.l.k.current in m.l.k.tcbs && m.l.k.current !in m.l.calls
    ensures MxInv(Release(m).0)
  {
    hide Inv, CallOk, Restore;
    if m.owner != Thread(m.l.k.current) {
      WithErrorOk(m.l, ERROR);
    } else if m.hold == 1 {
      RestoreOk(m);
      if Waiters(m) != [] { HandOff(m); }
    }
  }

  /** The last release with threads waiting: the first of them owns the mutex from now on. */
  lemma HandOff(m: Mx)
    requires MxInv(m) && m.l.k.current in m.l.k.tcbs && m.l.k.current !in m.l.calls
    requires m.owner == Thread(m.l.k.current) && m.hold == 1 && Waiters(m) != []
    ensures MxInv(Release(m).0)
    ensures var l1, t := Restore(m).l, Waiters(m)[0];
      Ok(l1) && t in l1.k.tcbs && OwnerAt(m, Restore(m), m.orig) && Woken(l1.k, Release(m).0.l.k, t, EOK)
  {
    hide Inv, CallOk, Restore, OwnerOk;
    var t := Waiters(m)[0];
    RestoreOk(m);
    var m1 := Restore(m);
    WakeOneOk(m1.l, m.wid, t);
    InvPlaces(m1.l.k, t);
    hide Placed;
    HandOffOwner(m1, Release(m).0, t);
    hide OwnerAt, Ok, Base;
  }

  lemma HandOffOwner(m: Mx, m1: Mx, t: Tid)
    requires OwnerOk(m) && m.owner.Thread? && m.owner.t !in m.l.calls && t in m.l.k.tcbs && Base(m.l.k)
    requires Woken(m.l.k, m1.l.k, t, EOK) && m1.l.calls == m.l.calls[t := Call(m.wid, Woke(EOK))]
    requires m1.owner == Thread(t) && m1.orig == m.l.k.tcbs[t].prio && m1.hold == 1
    ensures OwnerOk(m1)
  {
  }

  lemma FinishInv(m: Mx)
    requires MxInv(m) && Back(m.l)
    ensures MxInv(Finish(m).0)
    ensures Finish(m).1 == Done(EOK) <==> m.owner == Thread(m.l.k.current)
  {
    hide Inv, CallOk;
    LeaveOk(m.l);
  }

  /** A step elsewhere that does not close the owner: no rt_thread_delete and no rt_thread_exit of it gets that far. */
  ghost predicate Outside(m: Mx, x: Step) {
    Foreign(m.l, x) && (m.owner.Thread? ==> !Closes(m.l.k, x, m.owner.t))
  }

  lemma ElsewhereInv(m: Mx, x: Step)
    requires MxInv(m) && Outside(m, x)
    ensures MxInv(Elsewhere(m, x))
  {
    hide Inv, CallOk, Apply, LifeFrame;
    OtherOk(m.l, x);
    ElsewhereOwner(m, x);
    hide OwnerOk, Foreign;
  }

  lemma ElsewhereOwner(m: Mx, x: Step)
    requires MxInv(m) && Outside(m, x)
    ensures OwnerOk(Elsewhere(m, x))
  {
    hide Inv, CallOk, Apply, Ok, LifeFrame, StepFrame, Foreign, CallsAfter;
    if m.owner.Thread? {
      OwnerLives(m, x);
      OutcomeStays(m.l, x, m.owner.t);
    }
    forall t | t in Elsewhere(m, x).l.calls && Elsewhere(m, x).l.calls[t].phase == Woke(EOK)
      ensures m.owner == Thread(t) && m.hold == 1
    {
      OutcomeStays(m.l, x, t);
    }
  }

  lemma OwnerLives(m: Mx, x: Step)
    requires MxInv(m) && Outside(m, x) && m.owner.Thread?
    ensures var k1 := Elsewhere(m, x).l.k;
      m.owner.t in k1.tcbs && Started(k1.tcbs[m.owner.t]) && k1.lists.Keys == m.l.k.lists.Keys
  {
    hide Inv, CallOk, Apply, CallsAfter;
    LifeFrames(m.l.k, x, m.owner.t);
    ForeignFrame(m.l, x, m.owner.t, m.wid);
    hide Ok, Foreign;
  }

  // ---------- runs ----------

  datatype MxStep =
    | TakeStep(time: int)
    | FinishStep
    | ReleaseStep
    | ElsewhereStep(x: Step)

  ghost predicate MxEnabled(m: Mx, step: MxStep)
    requires MxInv(m)
  {
    match step
    case TakeStep(_) => CanBlock(m.l) && m.hold < HOLD_MAX
    case FinishStep => Back(m.l)
    case ReleaseStep => m.l.k.current in m.l.k.tcbs && m.l.k.current !in m.l.calls
    case ElsewhereStep(x) => Outside(m, x)
  }

  ghost function MxNext(m: Mx, step: MxStep): (Mx, Outcome)
    requires MxInv(m) && MxEnabled(m, step)
  {
    match step
    case TakeStep(time) => Take(m, time)
    case FinishStep => Finish(m)
    case ReleaseStep => Release(m)
    case ElsewhereStep(x) => (Elsewhere(m, x), Pending)
  }

  lemma MxStepInv(m: Mx, step: MxStep)
    requires MxInv(m) && MxEnabled(m, step)
    ensures MxInv(MxNext(m, step).0)
  {
    hide MxInv;
    match step {
      case TakeStep(time) => TakeInv(m, time);
      case FinishStep => FinishInv(m);
      case ReleaseStep => ReleaseInv(m);
      case ElsewhereStep(x) => ElsewhereInv(m, x);
    }
  }

  /** A step from m to m1. The functions that describe steps are defined where the invariant holds; that it holds in
      every state of a run is shown, not assumed. */
  ghost predicate MxSteps(m: Mx, step: MxStep, m1: Mx) {
    MxInv(m) ==> MxEnabled(m, step) && m1 == MxNext(m, step).0
  }

  ghost predicate MxRun(ms: seq<Mx>, steps: seq<MxStep>) {
    && |ms| == |steps| + 1
    && forall i :: 0 <= i < |steps| ==> MxSteps(ms[i], steps[i], ms[i + 1])
  }

  lemma {:induction false} MxRunInv(ms: seq<Mx>, steps: seq<MxStep>, i: nat)
    requires MxRun(ms, steps) && MxInv(ms[0]) && i < |ms|
    ensures MxInv(ms[i]) && (i < |steps| ==> MxEnabled(ms[i], steps[i]))
  {
    hide MxInv, MxEnabled, MxNext;
    if i > 0 {
      MxRunInv(ms, steps, i - 1);
      MxStepInv(ms[i - 1], steps[i - 1]);
      assert MxSteps(ms[i - 1], steps[i - 1], ms[i]);
    }
    if i < |steps| { assert MxSteps(ms[i], steps[i], ms[i + 1]); }
  }

  /** The mutex as rt_mutex_init leaves it. */
  ghost predicate MxStart(m: Mx) {
    && Inv(m.l.k) && WaitQ(m.wid) in m.l.k.lists && Waiters(m) == []
    && m == Mx(Layer(m.l.k, {m.wid}, map[]), m.wid, m.order, 1, Nobody, 0xff, 0, m.base)
    && m.base == map t | t in m.l.k.tcbs :: OwnPriority(m.l.k.tcbs[t])
  }

  /** The priority a thread runs at, or will be started at. */
  function OwnPriority(c: Tcb): nat { if c.stat == Init then c.initPrio else c.prio }

  /** In every state of every run from rt_mutex_init: the value is 1 iff there is no owner iff nobody holds the
      mutex, waiting threads imply an owner, and a blocked rt_mutex_take returns RT_EOK exactly to the owner. */
  lemma MutexRuns(ms: seq<Mx>, steps: seq<MxStep>, i: nat)
    requires MxRun(ms, steps) && MxStart(ms[0]) && i < |ms|
    ensures var m := ms[i];
      && MxInv(m)
      && (m.value == 1 <==> m.owner == Nobody) && (m.hold == 0 <==> m.owner == Nobody)
      && (Waiters(m) != [] ==> m.owner != Nobody)
      && (Back(m.l) ==> (Finish(m).1 == Done(EOK) <==> m.owner == Thread(m.l.k.current)))
  {
    hide Ok, CallOk, OwnerOk;
    StartInv(ms[0]);
    MxRunInv(ms, steps, i);
    hide MxRun;
    if Back(ms[i].l) { FinishInv(ms[i]); }
  }

  lemma StartInv(m: Mx)
    requires MxStart(m)
    ensures MxInv(m)
  {
    hide Inv;
  }

  // ---------- priority inheritance ----------

  ghost predicate BaseOk(m: Mx, t: Tid)
    requires t in m.l.k.tcbs
  {
    var c := m.l.k.tcbs[t];
    t in m.base && (Started(c) && m.owner != Thread(t) ==> c.prio == m.base[t]) && (c.stat == Init ==> c.initPrio == m.base[t])
  }

  /** Every thread but the owner runs at its own priority. */
  ghost predicate BasesOk(m: Mx) {
    forall t :: t in m.l.k.tcbs ==> BaseOk(m, t)
  }

  ghost predicate SortedBy(l: seq<Tid>, base: map<Tid, nat>) {
    && (forall u :: u in l ==> u in base)
    && forall i, j :: 0 <= i < j < |l| ==> base[l[i]] <= base[l[j]]
  }

  /** The owner is at least as urgent as every waiter and as its own priority, which is the one saved. */
  ghost predicate Inherits(m: Mx)
    requires m.owner.Thread? && m.owner.t in m.l.k.tcbs && WaitQ(m.wid) in m.l.k.lists
  {
    && m.owner.t in m.base && m.orig == m.base[m.owner.t] && m.l.k.tcbs[m.owner.t].prio <= m.orig
    && forall u :: u in Waiters(m) ==> u in m.base && m.l.k.tcbs[m.owner.t].prio <= m.base[u]
  }

  ghost predicate Pi(m: Mx) {
    && WaitQ(m.wid) in m.l.k.lists && m.order == Prio
    && BasesOk(m) && SortedBy(Waiters(m), m.base)
    && (m.owner.Thread? ==> m.owner.t in m.l.k.tcbs && Inherits(m))
  }

  ghost predicate PiInv(m: Mx) { MxInv(m) && Pi(m) }

  /** Nobody outside changes the priority of the owner or of a waiter: in particular, they hold no other mutex
      that does. */
  ghost predicate PiEnabled(m: Mx, step: MxStep)
    requires MxInv(m)
  {
    MxEnabled(m, step) &&
    match step
    case ElsewhereStep(DoChangePriority(t, _)) => m.owner != Thread(t) && t !in Waiters(m)
    case _ => true
  }

  lemma InsertSorted(l: seq<Tid>, base: map<Tid, nat>, i: nat, t: Tid)
    requires SortedBy(l, base) && i <= |l| && t in base
    requires (forall j :: 0 <= j < i ==> base[l[j]] <= base[t]) && (i < |l| ==> base[t] < base[l[i]])
    ensures SortedBy(l[..i] + [t] + l[i..], base)
  {
    var r := l[..i] + [t] + l[i..];
    assert forall j :: 0 <= j < |r| ==> r[j] == (if j < i then l[j] else if j == i then t else l[j - 1]);
  }

  lemma {:induction false} WithoutSorted(l: seq<Tid>, base: map<Tid, nat>, t: Tid)
    requires SortedBy(l, base)
    ensures SortedBy(Without(l, t), base)
  {
    if l != [] {
      var r := Without(l[1..], t);
      SortedTail(l, base);
      WithoutSorted(l[1..], base, t);
      hide Without;
      forall j | 0 <= j < |r| ensures base[l[0]] <= base[r[j]] {
        assert r[j] in l[1..];
      }
      InsertSorted0(r, base, l[0]);
      WithoutStep(l, t);
    }
  }

  lemma SortedTail(l: seq<Tid>, base: map<Tid, nat>)
    requires SortedBy(l, base) && l != []
    ensures SortedBy(l[1..], base) && l[0] in base && forall u :: u in l[1..] ==> base[l[0]] <= base[u]
  {
  }

  lemma InsertSorted0(l: seq<Tid>, base: map<Tid, nat>, t: Tid)
    requires SortedBy(l, base) && t in base && forall j :: 0 <= j < |l| ==> base[t] <= base[l[j]]
    ensures SortedBy([t] + l, base)
  {
  }

  lemma WithoutStep(l: seq<Tid>, t: Tid)
    requires l != []
    ensures Without(l, t) == if l[0] == t then Without(l[1..], t) else [l[0]] + Without(l[1..], t)
  {
  }

  /** A take that boosts and waits. */
  lemma PiTakeBlocks(m: Mx, timed: bool)
    requires PiInv(m) && CanBlock(m.l) && m.owner.Thread? && m.owner.t != m.l.k.current
    ensures Ok(Boost(m).l) && CanBlock(Boost(m).l) && Boost(m).l.ours == m.l.ours
    ensures PiInv(Boost(m).(l := Begin(Boost(m).l, m.wid, m.order, timed)))
  {
    hide Inv, CallOk, Boost, Pi, Blocked;
    TakeBlocks(m, timed);
    BoostOk(m);
    BeginOk(Boost(m).l, m.wid, m.order, timed);
    WaitersAtBase(m) by { PiGives(m); }
    hide OwnerOk;
    InvLists(Boost(m).l.k);
    PiGives(m);
    hide Ok, Begin;
    PiBlocked(m, Boost(m), Boost(m).(l := Begin(Boost(m).l, m.wid, m.order, timed)), timed);
  }

  lemma InvLists(k: State)
    requires Inv(k)
    ensures Lists(k)
  {
  }

  lemma PiGives(m: Mx)
    requires Pi(m)
    ensures WaitQ(m.wid) in m.l.k.lists && BasesOk(m) && m.order == Prio && SortedBy(Waiters(m), m.base)
  {
  }

  /** The owner at no less than the priority of the current thread, which joins the wait list. */
  lemma PiBlocked(m: Mx, m1: Mx, m2: Mx, timed: bool)
    requires Pi(m) && m.l.k.current in m.l.k.tcbs && m.owner.Thread? && m.owner.t != m.l.k.current
    requires m.l.k.tcbs[m.l.k.current].stat == Running
    requires forall u :: u in Waiters(m) ==> u in m.l.k.tcbs && u in m.base && m.l.k.tcbs[u].prio == m.base[u] && m.owner != Thread(u)
    requires OwnerAt(m, m1, if m.l.k.tcbs[m.l.k.current].prio < m.l.k.tcbs[m.owner.t].prio
                            then m.l.k.tcbs[m.l.k.current].prio else m.l.k.tcbs[m.owner.t].prio)
    requires Lists(m1.l.k) && m2 == m1.(l := m2.l) && Blocked(m1.l.k, m2.l.k, m.wid, Prio, timed)
    ensures Pi(m2)
  {
    hide Lists, SortedBy, Position;
    var c, w := m.l.k.current, Waiters(m);
    assert BaseOk(m, c);
    var i := Position(m1.l.k.tcbs, w, m1.l.k.tcbs[c].prio, Prio);
    InsertMembers(w, i, c);
    PrioPositionSorts(m1.l.k.tcbs, w, m.base, c);
    PiBlockedBases(m, m1, m2, timed);
    hide BasesOk;
  }

  lemma PrioPositionSorts(tcbs: map<Tid, Tcb>, l: seq<Tid>, base: map<Tid, nat>, c: Tid)
    requires SortedBy(l, base) && c in tcbs && c in base && tcbs[c].prio == base[c]
    requires forall u :: u in l ==> u in tcbs && tcbs[u].prio == base[u]
    ensures var i := Position(tcbs, l, tcbs[c].prio, Prio); SortedBy(l[..i] + [c] + l[i..], base)
  {
    var i := PrioPosition(tcbs, l, tcbs[c].prio);
    hide PrioPosition, SortedBy;
    InsertSorted(l, base, i, c) by { SortedIn(l, base); }
  }

  lemma SortedIn(l: seq<Tid>, base: map<Tid, nat>)
    requires SortedBy(l, base)
    ensures forall u :: u in l ==> u in base
  {
  }

  lemma PiBlockedBases(m: Mx, m1: Mx, m2: Mx, timed: bool)
    requires BasesOk(m) && m.l.k.current in m.l.k.tcbs && m.owner.Thread? && m.owner.t in m.l.k.tcbs && m.owner.t != m.l.k.current
    requires m.l.k.tcbs[m.l.k.current].stat == Running && WaitQ(m.wid) in m1.l.k.lists
    requires m.owner.t in m1.l.k.tcbs && OwnerAt(m, m1, m1.l.k.tcbs[m.owner.t].prio)
    requires Lists(m1.l.k) && m2 == m1.(l := m2.l) && Blocked(m1.l.k, m2.l.k, m.wid, Prio, timed)
    ensures BasesOk(m2)
  {
    hide Lists, Position;
    forall t | t in m2.l.k.tcbs ensures BaseOk(m2, t) { assert BaseOk(m, t); assert BaseOk(m, m.l.k.current); }
  }

  /** Waiters are suspended threads other than the owner, so they run at their own priority. */
  lemma WaitersAtBase(m: Mx)
    requires MxInv(m) && BasesOk(m)
    ensures forall u :: u in Waiters(m) ==>
              u in m.l.k.tcbs && u in m.base && m.l.k.tcbs[u].prio == m.base[u] && m.owner != Thread(u)
  {
    hide Inv, CallOk;
    forall u | u in Waiters(m)
      ensures u in m.l.k.tcbs && u in m.base && m.l.k.tcbs[u].prio == m.base[u] && m.owner != Thread(u)
    {
      WaiterInv(m.l.k, m.wid, u);
      assert u in m.l.calls && m.l.calls[u].phase.Waits?;
      assert BaseOk(m, u);
    }
  }

  lemma PiTake(m: Mx, time: int)
    requires PiInv(m) && CanBlock(m.l) && m.hold < HOLD_MAX
    ensures PiInv(Take(m, time).0)
  {
    hide Ok, OwnerOk, Boost, Begin, Pi;
    TakeInv(m, time);
    WithErrorOk(m.l, EOK);
    var m1 := m.(l := WithError(m.l, EOK));
    PiError(m, EOK);
    if m.owner != Thread(m.l.k.current) && m.value == 0 {
      if time == 0 { PiError(m1, ETIMEOUT); } else { PiTakeBlocks(m1, time > 0); }
    } else {
      PiTakeFree(m1, Take(m, time).0);
    }
  }

  /** Taking a free mutex, or one that is already owned by the caller. */
  lemma PiTakeFree(m: Mx, m1: Mx)
    requires Pi(m) && m.l.k.current in m.l.k.tcbs && m.l.k.tcbs[m.l.k.current].stat == Running
    requires m.owner == Nobody ==> Waiters(m) == [] && m1.orig == m.l.k.tcbs[m.l.k.current].prio
    requires m.owner != Nobody ==> m.owner == Thread(m.l.k.current) && m1.orig == m.orig
    requires m1 == m.(owner := Thread(m.l.k.current), orig := m1.orig, hold := m1.hold, value := m1.value)
    ensures Pi(m1)
  {
    assert BaseOk(m, m.l.k.current);
    forall t | t in m1.l.k.tcbs ensures BaseOk(m1, t) { assert BaseOk(m, t); }
  }

  lemma PiError(m: Mx, e: Err)
    requires PiInv(m) && m.l.k.current in m.l.k.tcbs && m.l.k.current !in m.l.calls
    ensures PiInv(m.(l := WithError(m.l, e)))
  {
    hide Ok, SortedBy;
    WithErrorOk(m.l, e);
    var m1 := m.(l := WithError(m.l, e));
    forall t | t in m1.l.k.tcbs ensures BaseOk(m1, t) { assert BaseOk(m, t); }
    hide BasesOk;
  }

  lemma PiRelease(m: Mx)
    requires PiInv(m) && m.l.k.current in m.l.k.tcbs && m.l.k.current !in m.l.calls
    ensures PiInv(Release(m).0)
  {
    hide Ok, OwnerOk, Restore, Pi;
    ReleaseInv(m);
    if m.owner != Thread(m.l.k.current) {
      PiError(m, ERROR);
    } else if m.hold == 1 {
      PiLastRelease(m);
    } else {
      PiHold(m);
    }
  }

  lemma PiHold(m: Mx)
    requires Pi(m) && m.hold > 1
    ensures Pi(m.(hold := m.hold - 1))
  {
    hide SortedBy;
    var m1 := m.(hold := m.hold - 1);
    forall t | t in m1.l.k.tcbs ensures BaseOk(m1, t) { assert BaseOk(m, t); }
  }

  lemma PiLastRelease(m: Mx)
    requires PiInv(m) && m.l.k.current in m.l.k.tcbs && m.l.k.current !in m.l.calls
    requires m.owner == Thread(m.l.k.current) && m.hold == 1
    ensures Pi(Release(m).0)
  {
    hide Inv, CallOk, Restore, Pi;
    RestoreOk(m);
    WaitersAtBase(m) by { PiGives(m); }
    PiRestore(m, Restore(m));
    if Waiters(m) == [] {
      PiFreed(Restore(m), Release(m).0);
    } else {
      HandOff(m);
      hide OwnerOk;
      WaiterNoDup(m);
      hide Ok;
      PiHandOff(m, Restore(m), Release(m).0);
    }
  }

  lemma WaiterNoDup(m: Mx)
    requires MxInv(m)
    ensures NoDup(Waiters(m))
  {
  }

  /** All threads at their own priority, the owner included. */
  ghost predicate Settled(m: Mx) {
    && WaitQ(m.wid) in m.l.k.lists && m.order == Prio && SortedBy(Waiters(m), m.base)
    && forall t :: t in m.l.k.tcbs ==>
         t in m.base && (Started(m.l.k.tcbs[t]) ==> m.l.k.tcbs[t].prio == m.base[t])
         && (m.l.k.tcbs[t].stat == Init ==> m.l.k.tcbs[t].initPrio == m.base[t])
  }

  /** The full release gives the owner back the priority it had when it took the mutex, which is its own. */
  lemma PiRestore(m: Mx, m1: Mx)
    requires Pi(m) && m.owner.Thread? && m.owner.t in m.l.k.tcbs && OwnerAt(m, m1, m.orig)
    ensures Settled(m1)
  {
    forall t | t in m1.l.k.tcbs
      ensures t in m1.base && (Started(m1.l.k.tcbs[t]) ==> m1.l.k.tcbs[t].prio == m1.base[t])
      ensures m1.l.k.tcbs[t].stat == Init ==> m1.l.k.tcbs[t].initPrio == m1.base[t]
    {
      assert BaseOk(m, t);
    }
  }

  lemma PiFreed(m: Mx, m1: Mx)
    requires Settled(m) && m1 == m.(owner := Nobody, orig := m1.orig, hold := m1.hold, value := m1.value)
    ensures Pi(m1)
  {
    hide SortedBy;
  }

  lemma PiHandOff(m: Mx, m1: Mx, m2: Mx)
    requires Settled(m1) && WaitQ(m.wid) in m.l.k.lists && m1.wid == m.wid && Waiters(m1) == Waiters(m) && Waiters(m) != [] && NoDup(Waiters(m))
    requires m2.owner.Thread? && m2.owner.t == Waiters(m)[0] && m2.owner.t in m1.l.k.tcbs
    requires Woken(m1.l.k, m2.l.k, m2.owner.t, EOK) && m2.orig == m1.l.k.tcbs[m2.owner.t].prio
    requires m1.l.k.tcbs[m2.owner.t].stat == Suspend
    requires m2.base == m1.base && m2.order == m1.order && m2.wid == m1.wid
    ensures Pi(m2)
  {
    hide Without, NoDup;
    var l := Waiters(m);
    WithoutFirst(l);
    SortedTail(l, m1.base);
    forall t | t in m2.l.k.tcbs ensures BaseOk(m2, t) {}
    hide SortedBy;
  }

  lemma PiFinish(m: Mx)
    requires PiInv(m) && Back(m.l)
    ensures PiInv(Finish(m).0)
  {
    hide Ok, OwnerOk, SortedBy;
    FinishInv(m);
    LeaveOk(m.l);
    var m1 := Finish(m).0;
    forall t | t in m1.l.k.tcbs ensures BaseOk(m1, t) { assert BaseOk(m, t); }
  }

  lemma PiElsewhere(m: Mx, x: Step)
    requires PiInv(m) && PiEnabled(m, ElsewhereStep(x))
    ensures PiInv(Elsewhere(m, x))
  {
    hide Inv, CallOk, Apply, Foreign, OwnerOk, SortedBy, LifeFrame;
    ElsewhereInv(m, x);
    OtherOk(m.l, x);
    PiElsewhereSorted(m, x);
    var m1 := Elsewhere(m, x);
    forall t | t in m1.l.k.tcbs ensures BaseOk(m1, t) { PiElsewhereBase(m, x, t); }
    if m.owner.Thread? { PiElsewhereOwner(m, x); }
    hide Ok, Inherits;
  }

  lemma PiElsewhereSorted(m: Mx, x: Step)
    requires PiInv(m) && PiEnabled(m, ElsewhereStep(x))
    ensures SortedBy(ListAfter(Waiters(m), x), Elsewhere(m, x).base)
  {
    hide Inv, Ok, OwnerOk, Foreign;
    if x.DoTimeout? || x.DoDeleteRemove? { WithoutSorted(Waiters(m), m.base, x.t); }
  }

  lemma PiElsewhereBase(m: Mx, x: Step, t: Tid)
    requires PiInv(m) && PiEnabled(m, ElsewhereStep(x)) && t in Elsewhere(m, x).l.k.tcbs
    ensures BaseOk(Elsewhere(m, x), t)
  {
    hide Inv, CallOk, Apply, OwnerOk, SortedBy;
    SomeThread(m.l.k);
    LifeFrames(m.l.k, x, m.l.k.current);
    LifeFrames(m.l.k, x, t);
    assert BaseOk(m, t);
  }

  lemma SomeThread(k: State)
    requires Inv(k)
    ensures k.current in k.tcbs
  {
  }

  lemma PiElsewhereOwner(m: Mx, x: Step)
    requires PiInv(m) && PiEnabled(m, ElsewhereStep(x)) && m.owner.Thread?
    requires WaitQ(m.wid) in Elsewhere(m, x).l.k.lists
    requires Waiters(Elsewhere(m, x)) == ListAfter(Waiters(m), x)
    ensures m.owner.t in Elsewhere(m, x).l.k.tcbs && Inherits(Elsewhere(m, x))
  {
    hide Inv, CallOk, Apply, SortedBy;
    LifeFrames(m.l.k, x, m.owner.t);
    hide Ok, Foreign;
  }

  lemma PiStepInv(m: Mx, step: MxStep)
    requires PiInv(m) && PiEnabled(m, step)
    ensures PiInv(MxNext(m, step).0)
  {
    hide MxInv, Pi;
    match step {
      case TakeStep(time) => PiTake(m, time);
      case FinishStep => PiFinish(m);
      case ReleaseStep => PiRelease(m);
      case ElsewhereStep(x) => PiElsewhere(m, x);
    }
  }

  ghost predicate PiRun(ms: seq<Mx>, steps: seq<MxStep>) {
    MxRun(ms, steps) && forall i :: 0 <= i < |steps| && MxInv(ms[i]) ==> PiEnabled(ms[i], steps[i])
  }

  /** Priority inheritance, for mutexes with RT_IPC_FLAG_PRIO: in every state of every run in which nobody outside
      changes the priority of the owner or of a waiter, the owner is at least as urgent as every waiter and as
      itself when it took the mutex; the priority saved for it is its own; and every other started thread, the
      last owner included, runs at its own priority. */
  lemma PriorityInheritance(ms: seq<Mx>, steps: seq<MxStep>, i: nat)
    requires PiRun(ms, steps) && MxStart(ms[0]) && ms[0].order == Prio && i < |ms|
    ensures PiInv(ms[i])
    ensures var m := ms[i]; var tcbs := m.l.k.tcbs;
      && (m.owner.Thread? ==>
            && m.owner.t in tcbs && m.owner.t in m.base && m.orig == m.base[m.owner.t] && tcbs[m.owner.t].prio <= m.orig
            && WaitQ(m.wid) in m.l.k.lists
            && forall u :: u in Waiters(m) ==> u in tcbs && tcbs[m.owner.t].prio <= tcbs[u].prio)
      && (forall t :: t in tcbs && Started(tcbs[t]) && m.owner != Thread(t) ==> t in m.base && tcbs[t].prio == m.base[t])
  {
    hide Ok, OwnerOk, SortedBy, MxRun, PiRun;
    PiRunInv(ms, steps, i);
    WaitersAtBase(ms[i]);
    forall t | t in ms[i].l.k.tcbs ensures BaseOk(ms[i], t) {}
  }

  lemma PiRunInv(ms: seq<Mx>, steps: seq<MxStep>, i: nat)
    requires PiRun(ms, steps) && MxStart(ms[0]) && ms[0].order == Prio && i < |ms|
    ensures PiInv(ms[i])
  {
    hide PiInv, MxInv, MxStart, MxNext, MxEnabled, PiEnabled;
    if i == 0 {
      PiStart(ms[0]);
    } else {
      PiRunInv(ms, steps, i - 1);
      PiIsMx(ms[i - 1]);
      assert MxSteps(ms[i - 1], steps[i - 1], ms[i]);
      PiEnables(ms[i - 1], steps[i - 1]);
      PiStepInv(ms[i - 1], steps[i - 1]);
    }
  }

  lemma PiIsMx(m: Mx)
    requires PiInv(m)
    ensures MxInv(m)
  {
  }

  lemma PiEnables(m: Mx, step: MxStep)
    requires MxInv(m) && PiEnabled(m, step)
    ensures MxEnabled(m, step)
  {
  }

  lemma PiStart(m: Mx)
    requires MxStart(m) && m.order == Prio
    ensures PiInv(m)
  {
    StartInv(m);
  }

  /** At priority p a thread is at least as urgent as every thread of the list. */
  ghost predicate NoneMoreUrgent(tcbs: map<Tid, Tcb>, p: nat, l: seq<Tid>) {
    forall u :: u in l ==> u in tcbs && p <= tcbs[u].prio
  }

  /** Whatever the order of the list, hand-off keeps inheritance iff no thread left waiting is more urgent than
      the one handed the mutex: rt_mutex_release does not boost the new owner. */
  lemma HandOffInheritance(m: Mx, m1: Mx)
    requires MxInv(m) && m.l.k.current in m.l.k.tcbs && m.l.k.current !in m.l.calls
    requires m.owner == Thread(m.l.k.current) && m.hold == 1 && Waiters(m) != [] && m1 == Release(m).0
    ensures var t := Waiters(m)[0];
      && m1.owner == Thread(t) && t in m.l.k.tcbs && t in m1.l.k.tcbs
      && WaitQ(m1.wid) in m1.l.k.lists && Waiters(m1) == Waiters(m)[1..]
      && (forall u :: u in Waiters(m1) ==> u in m1.l.k.tcbs)
      && (NoneMoreUrgent(m1.l.k.tcbs, m1.l.k.tcbs[t].prio, Waiters(m1))
          <==> NoneMoreUrgent(m.l.k.tcbs, m.l.k.tcbs[t].prio, Waiters(m)[1..]))
  {
    hide Inv, CallOk, Restore, OwnerOk;
    InvLists(m.l.k);
    HandOff(m);
    WaiterNoDup(m);
    WithoutFirst(Waiters(m));
    OwnerDoesNotWait(m);
    hide Ok;
    assert forall u :: u in Waiters(m)[1..] ==> u in Waiters(m);
    assert forall u :: u in Waiters(m) ==> u != m.owner.t;
  }

  lemma OwnerDoesNotWait(m: Mx)
    requires MxInv(m) && m.owner.Thread?
    ensures m.owner.t !in Waiters(m)
  {
    hide Inv, CallOk;
  }

  /** Two mutexes of one owner: releasing the first restores the priority saved when it was taken. The owner is still
      as urgent as the waiters of the second iff that saved priority is. */
  lemma NestedRelease(a: Mx, b: Mx, t: Tid, k1: State)
    requires MxInv(a) && MxInv(b) && a.l.k == b.l.k && a.wid != b.wid && t == a.l.k.current
    requires a.owner == Thread(t) && b.owner == a.owner && a.hold == 1
    requires t in a.l.k.tcbs && t !in a.l.calls && k1 == Release(a).0.l.k
    ensures t in k1.tcbs && k1.tcbs[t].prio == a.orig && WaitQ(b.wid) in k1.lists && k1.lists[WaitQ(b.wid)] == Waiters(b)
    ensures NoneMoreUrgent(k1.tcbs, k1.tcbs[t].prio, Waiters(b)) <==> NoneMoreUrgent(a.l.k.tcbs, a.orig, Waiters(b))
  {
    hide Inv, CallOk, Restore, OwnerOk;
    RestoreOk(a);
    OwnerDoesNotWait(b);
    WaitersAreThreads(b);
    if Waiters(a) != [] {
      HandOff(a);
      OnOneList(a.l.k, a.wid, b.wid, Waiters(a)[0]);
    }
    hide Ok;
  }

  lemma WaitersAreThreads(m: Mx)
    requires MxInv(m)
    ensures forall u :: u in Waiters(m) ==> u in m.l.k.tcbs
  {
    hide Inv, CallOk, OwnerOk;
    InvLists(m.l.k);
  }

  lemma OnOneList(k: State, v: Wid, w: Wid, t: Tid)
    requires Inv(k) && v != w && WaitQ(v) in k.lists && WaitQ(w) in k.lists && t in k.lists[WaitQ(v)]
    ensures t !in k.lists[WaitQ(w)] && Without(k.lists[WaitQ(w)], t) == k.lists[WaitQ(w)]
  {
    WaiterInv(k, v, t);
  }

  /** The waiters stand in the order of their current priorities. */
  ghost predicate InOrder(tcbs: map<Tid, Tcb>, l: seq<Tid>) {
    && (forall u :: u in l ==> u in tcbs)
    && forall i, j :: 0 <= i < j < |l| ==> tcbs[l[i]].prio <= tcbs[l[j]].prio
  }

  /** Changing the priority of the i-th waiter, as boosting the owner of another mutex does, leaves it where it is. The
      list stays in order iff the new priority lies between those of its neighbours. */
  lemma RaisedWhileQueued(m: Mx, l: seq<Tid>, i: nat, t: Tid, p: nat)
    requires MxInv(m) && l == Waiters(m) && i < |l| && t == l[i] && InOrder(m.l.k.tcbs, l) && p < m.l.k.bits.Levels()
    ensures t in m.l.k.tcbs && Started(m.l.k.tcbs[t]) && ReadyQ(p) in m.l.k.lists
    ensures var m1 := m.(l := Reprioritise(m.l, t, p)); MxInv(m1) && Waiters(m1) == l
    ensures InOrder(Reprioritise(m.l, t, p).k.tcbs, l) <==>
      (i > 0 ==> m.l.k.tcbs[l[i - 1]].prio <= p) && (i + 1 < |l| ==> p <= m.l.k.tcbs[l[i + 1]].prio)
  {
    hide Inv, CallOk;
    WaiterInv(m.l.k, m.wid, t);
    InvTables(m.l.k);
    WaiterNoDup(m);
    hide Lists;
    ReprioritiseOk(m.l, t, p);
    var k1 := Reprioritise(m.l, t, p).k;
    hide Reprioritise, Ok;
    BetweenNeighbours(m.l.k.tcbs, k1.tcbs, l, i, p);
  }

  lemma BetweenNeighbours(tcbs: map<Tid, Tcb>, tcbs1: map<Tid, Tcb>, l: seq<Tid>, i: nat, p: nat)
    requires InOrder(tcbs, l) && NoDup(l) && i < |l|
    requires tcbs1.Keys == tcbs.Keys && tcbs1[l[i]].prio == p && forall u :: u in tcbs && u != l[i] ==> tcbs1[u].prio == tcbs[u].prio
    ensures InOrder(tcbs1, l) <==> (i > 0 ==> tcbs[l[i - 1]].prio <= p) && (i + 1 < |l| ==> p <= tcbs[l[i + 1]].prio)
  {
    if (i > 0 ==> tcbs[l[i - 1]].prio <= p) && (i + 1 < |l| ==> p <= tcbs[l[i + 1]].prio) {
      forall a, b | 0 <= a < b < |l| ensures tcbs1[l[a]].prio <= tcbs1[l[b]].prio {
        if a == i { assert tcbs[l[i + 1]].prio <= tcbs[l[b]].prio; }
        if b == i { assert tcbs[l[a]].prio <= tcbs[l[i - 1]].prio; }
      }
    }
  }

  // ---------- an inversion under RT_IPC_FLAG_FIFO ----------

  /** A first-in first-out mutex, nested at most once, with the threads q waiting for it, in a kernel where cur runs. */
  ghost predicate Scene(m: Mx, cur: Tid, q: seq<Tid>, owner: Owner) {
    && MxInv(m) && m.order == Fifo && m.owner == owner && m.hold <= 1 && Waiters(m) == q
    && (forall t :: t in m.l.calls <==> t in q)
    && m.l.k.current == cur && cur in m.l.k.tcbs && m.l.k.lockNest == 0 && m.l.k.deletions == map[]
  }

  lemma SceneTakes(m: Mx, c: Tid)
    requires Scene(m, c, [], Nobody) && m.l.k.tcbs[c].stat == Running
    ensures MxInv(m) && MxEnabled(m, TakeStep(-1))
    ensures var m1 := MxNext(m, TakeStep(-1)).0; Scene(m1, c, [], Thread(c)) && m1.l.k.tcbs == m.l.k.tcbs[c := m.l.k.tcbs[c].(error := EOK)]
  {
    hide Inv, CallOk, OwnerOk;
    TakeInv(m, -1);
  }

  lemma SceneSleeps(m: Mx, c: Tid, q: seq<Tid>, owner: Owner)
    requires Scene(m, c, q, owner) && m.l.k.tcbs[c].stat == Running && c !in q
    ensures MxInv(m) && MxEnabled(m, ElsewhereStep(DoSleep))
    ensures var m1 := MxNext(m, ElsewhereStep(DoSleep)).0;
      Scene(m1, c, q, owner) && m1.l.k.tcbs == m.l.k.tcbs[c := m.l.k.tcbs[c].(stat := Suspend, timerOn := true)]
  {
    hide Inv, CallOk, OwnerOk;
    ElsewhereInv(m, DoSleep);
    OtherOk(m.l, DoSleep);
    SleepInv(m.l.k);
    CallsFrame(m.l.k, DoSleep);
    hide Sleep, Ok;
  }

  /** Away from a current thread that is suspended, to the only READY one. */
  lemma SceneSwitches(m: Mx, c: Tid, t: Tid, q: seq<Tid>, owner: Owner)
    requires Scene(m, c, q, owner) && m.l.k.tcbs[c].stat == Suspend
    requires t in m.l.k.tcbs && forall u :: u in m.l.k.tcbs ==> (m.l.k.tcbs[u].stat == Ready <==> u == t)
    ensures MxInv(m) && MxEnabled(m, ElsewhereStep(DoSchedule))
    ensures var m1 := MxNext(m, ElsewhereStep(DoSchedule)).0;
      Scene(m1, t, q, owner) && m1.l.k.tcbs == m.l.k.tcbs[t := m.l.k.tcbs[t].(stat := Running)]
  {
    hide Inv, CallOk, OwnerOk, Choice, Apply, Schedule, Loose, Takeable;
    ElsewhereInv(m, DoSchedule);
    OtherOk(m.l, DoSchedule);
    OnlyChoice(m.l.k, t);
    ScheduleEffect(m.l.k);
    AppliedSchedule(m.l.k);
    CallsFrame(m.l.k, DoSchedule);
    hide Ok;
    assert m.l.k.tcbs[c := m.l.k.tcbs[c]] == m.l.k.tcbs;
  }

  lemma AppliedSchedule(k: State)
    requires Inv(k)
    ensures Apply(k, DoSchedule) == Schedule(k)
  {
    hide Inv, Schedule;
  }

  lemma OnlyChoice(k: State, t: Tid)
    requires Inv(k) && k.lockNest == 0 && k.deletions == map[] && k.tcbs[k.current].stat == Suspend
    requires t in k.tcbs && forall u :: u in k.tcbs ==> (k.tcbs[u].stat == Ready <==> u == t)
    ensures Choice(k) == t
  {
    hide Inv, Placement;
    PlacementOf(k);
    SomethingReady(k, t);
    InvCurrent(k);
    HighestKnown(k);
    FrontIsReady(k, HighestOf(k));
  }

  lemma SceneTimesOut(m: Mx, c: Tid, t: Tid, q: seq<Tid>, owner: Owner)
    requires Scene(m, c, q, owner) && t in m.l.k.tcbs && m.l.k.tcbs[t].timerOn && t != c && t !in q
    ensures MxInv(m) && MxEnabled(m, ElsewhereStep(DoTimeout(t)))
    ensures var m1 := MxNext(m, ElsewhereStep(DoTimeout(t))).0;
      Scene(m1, c, q, owner) && m1.l.k.tcbs == m.l.k.tcbs[t := m.l.k.tcbs[t].(stat := Ready, timerOn := false, error := ETIMEOUT)]
  {
    hide Inv, CallOk, OwnerOk, Apply;
    ElsewhereInv(m, DoTimeout(t));
    OtherOk(m.l, DoTimeout(t));
    TimedOutKernel(m.l.k, t);
    hide Ok;
  }

  lemma TimedOutKernel(k: State, t: Tid)
    requires Inv(k) && Enabled(k, DoTimeout(t)) && t != k.current
    ensures var k1 := Apply(k, DoTimeout(t));
      && k1.tcbs == k.tcbs[t := k.tcbs[t].(stat := Ready, timerOn := false, error := ETIMEOUT)]
      && k1.current == k.current && k1.lockNest == k.lockNest && k1.deletions == k.deletions && k1.lists.Keys == k.lists.Keys
  {
    hide Inv;
    TimeoutInv(k, t);
    CallsFrame(k, DoTimeout(t));
    hide Timeout;
  }

  /** The current thread asks for a mutex that another thread owns: it boosts the owner if it is more urgent, and waits. */
  lemma SceneWaits(m: Mx, c: Tid, q: seq<Tid>, o: Tid)
    requires Scene(m, c, q, Thread(o)) && m.l.k.tcbs[c].stat == Running && c != o && c !in q
    ensures MxInv(m) && MxEnabled(m, TakeStep(-1)) && o in m.l.k.tcbs
    ensures var m1, p, p0 := MxNext(m, TakeStep(-1)).0, m.l.k.tcbs[c].prio, m.l.k.tcbs[o].prio;
      && Scene(m1, c, q + [c], Thread(o)) && m1.l.k.tcbs.Keys == m.l.k.tcbs.Keys
      && m1.l.k.tcbs[c] == m.l.k.tcbs[c].(error := EOK, stat := Suspend, timerOn := false)
      && m1.l.k.tcbs[o] == m.l.k.tcbs[o].(prio := if p < p0 then p else p0, attr := m1.l.k.tcbs[o].attr)
      && forall u :: u in m.l.k.tcbs && u != c && u != o ==> m1.l.k.tcbs[u] == m.l.k.tcbs[u]
  {
    hide Inv, CallOk, OwnerOk, Boost, Begin, Lists;
    OwnerIsThread(m);
    TakeInv(m, -1);
    MxError(m, EOK);
    var m1 := m.(l := WithError(m.l, EOK));
    BoostOk(m1);
    BoostCalls(m1);
    SceneBegins(Boost(m1).l, m.wid, c, q);
    hide Ok;
  }

  lemma OwnerIsThread(m: Mx)
    requires MxInv(m) && m.owner.Thread?
    ensures m.owner.t in m.l.k.tcbs
  {
    hide Ok;
  }

  lemma SceneBegins(l: Layer, w: Wid, c: Tid, q: seq<Tid>)
    requires Ok(l) && w in l.ours && c == l.k.current && CanBlock(l) && l.k.lists[WaitQ(w)] == q
    ensures var l1 := Begin(l, w, Fifo, false);
      && l1.k.tcbs == l.k.tcbs[c := l.k.tcbs[c].(error := EOK, stat := Suspend, timerOn := false)]
      && l1.k.current == c && l1.k.lockNest == l.k.lockNest && l1.k.deletions == l.k.deletions
      && WaitQ(w) in l1.k.lists && l1.k.lists[WaitQ(w)] == q + [c] && l1.calls == l.calls[c := Call(w, Waits)] && l1.ours == l.ours
  {
    hide Inv, CallOk;
    BeginOk(l, w, Fifo, false);
    BlockInv(l.k, w, Fifo, false);
    InvTables(l.k);
    BlockCalls(l.k, w, Fifo, false);
    hide Ok, Block;
    assert q[..|q|] + [c] + q[|q|..] == q + [c];
  }

  lemma BoostCalls(m: Mx)
    requires Ok(m.l) && OwnerOk(m) && m.owner.Thread? && m.l.k.current in m.l.k.tcbs
    ensures Boost(m).l.k.deletions == m.l.k.deletions && Boost(m).l.k.lockNest == m.l.k.lockNest
  {
    hide Inv, CallOk;
    InvPlaces(m.l.k, m.l.k.current);
    InvTables(m.l.k);
    var p := m.l.k.tcbs[m.l.k.current].prio;
    if p < m.l.k.tcbs[m.owner.t].prio {
      ChangePriorityInv(m.l.k, m.owner.t, p);
      ChangeCalls(m.l.k, m.owner.t, p);
    }
    hide ChangePriority;
  }

  /** o takes the mutex and sleeps, a waits for it, b wakes up and waits for it too, o wakes up and releases it. */
  function FifoSteps(o: Tid, b: Tid): seq<MxStep> {
    [TakeStep(-1), ElsewhereStep(DoSleep), ElsewhereStep(DoSchedule), TakeStep(-1), ElsewhereStep(DoTimeout(b)),
     ElsewhereStep(DoSchedule), TakeStep(-1), ElsewhereStep(DoTimeout(o)), ElsewhereStep(DoSchedule), ReleaseStep]
  }

  /** a owns the mutex and the more urgent b waits for it. */
  ghost predicate Inverted(m: Mx, a: Tid, b: Tid) {
    && MxInv(m) && m.owner == Thread(a) && Waiters(m) == [b]
    && a in m.l.k.tcbs && b in m.l.k.tcbs && m.l.k.tcbs[b].prio < m.l.k.tcbs[a].prio
  }

  /** Of three threads, o runs, a is READY and no more urgent, and b, more urgent, sleeps. */
  ghost predicate Trio(m: Mx, o: Tid, a: Tid, b: Tid) {
    && MxStart(m) && m.order == Fifo && m.l.k.lockNest == 0 && m.l.k.deletions == map[]
    && m.l.k.tcbs.Keys == {o, a, b} && o != a && a != b && b != o && m.l.k.current == o
    && m.l.k.tcbs[o].stat == Running && m.l.k.tcbs[a].stat == Ready && m.l.k.tcbs[b].stat == Suspend && m.l.k.tcbs[b].timerOn
    && m.l.k.tcbs[b].prio < m.l.k.tcbs[a].prio && m.l.k.tcbs[o].prio <= m.l.k.tcbs[a].prio
  }

  /** Priority inversion from any such start: hand-off in the order of arrival leaves b waiting for a. */
  lemma FifoHandOffInverts(m: Mx, o: Tid, a: Tid, b: Tid)
    requires Trio(m, o, a, b)
    ensures exists ms :: MxRun(ms, FifoSteps(o, b)) && ms[0] == m && Inverted(ms[10], a, b)
  {
    hide MxInv, MxEnabled, MxNext, Trio, Inverted, Scene;
    var ms := FifoFirst(m, o, a, b);
    var ms1 := FifoSecond(ms[4], o, a, b);
    var ms2 := FifoThird(ms1[2], o, a, b);
    var all := ms + ms1 + ms2;
    assert forall i :: 0 <= i < 10 ==> Goes(all[i], FifoSteps(o, b)[i], all[i + 1]);
    FifoRun(all, o, b);
    assert all[0] == m && Inverted(all[10], a, b);
  }

  ghost predicate Goes(m: Mx, step: MxStep, m1: Mx) {
    MxInv(m) && MxEnabled(m, step) && m1 == MxNext(m, step).0
  }

  /** Up to where a waits and b still sleeps. */
  lemma FifoFirst(m: Mx, o: Tid, a: Tid, b: Tid) returns (ms: seq<Mx>)
    requires Trio(m, o, a, b)
    ensures |ms| == 5 && ms[0] == m && forall i :: 0 <= i < 4 ==> Goes(ms[i], FifoSteps(o, b)[i], ms[i + 1])
    ensures Scene(ms[4], a, [a], Thread(o)) && Halfway(ms[4].l.k, o, a, b)
  {
    hide MxInv, MxEnabled, MxNext, MxStart, Scene;
    FifoStart(m, o, a, b);
    SceneTakes(m, o);
    var m1 := MxNext(m, TakeStep(-1)).0;
    SceneSleeps(m1, o, [], Thread(o));
    var m2 := MxNext(m1, ElsewhereStep(DoSleep)).0;
    SceneSwitches(m2, o, a, [], Thread(o));
    var m3 := MxNext(m2, ElsewhereStep(DoSchedule)).0;
    SceneWaits(m3, a, [], o);
    var m4 := MxNext(m3, TakeStep(-1)).0;
    assert [] + [a] == [a];
    ms := [m, m1, m2, m3, m4];
  }

  /** o and b sleep and a is suspended. */
  ghost predicate Halfway(k: State, o: Tid, a: Tid, b: Tid) {
    && k.tcbs.Keys == {o, a, b} && o != a && a != b && b != o
    && k.tcbs[o].stat == Suspend && k.tcbs[o].timerOn && k.tcbs[a].stat == Suspend && k.tcbs[b].stat == Suspend && k.tcbs[b].timerOn
    && k.tcbs[b].prio < k.tcbs[a].prio
  }

  /** Up to where both wait. */
  lemma FifoSecond(m: Mx, o: Tid, a: Tid, b: Tid) returns (ms: seq<Mx>)
    requires Scene(m, a, [a], Thread(o)) && Halfway(m.l.k, o, a, b)
    ensures |ms| == 3 && Goes(m, FifoSteps(o, b)[4], ms[0]) && forall i :: 0 <= i < 2 ==> Goes(ms[i], FifoSteps(o, b)[i + 5], ms[i + 1])
    ensures Scene(ms[2], b, [a, b], Thread(o)) && BothWait(ms[2].l.k, o, a, b)
  {
    hide MxInv, MxEnabled, MxNext, Scene;
    SceneTimesOut(m, a, b, [a], Thread(o));
    var m5 := MxNext(m, ElsewhereStep(DoTimeout(b))).0;
    SceneSwitches(m5, a, b, [a], Thread(o));
    var m6 := MxNext(m5, ElsewhereStep(DoSchedule)).0;
    SceneWaits(m6, b, [a], o);
    var m7 := MxNext(m6, TakeStep(-1)).0;
    assert [a] + [b] == [a, b];
    ms := [m5, m6, m7];
  }

  ghost predicate BothWait(k: State, o: Tid, a: Tid, b: Tid) {
    && k.tcbs.Keys == {o, a, b} && o != a && a != b && b != o
    && k.tcbs[o].stat == Suspend && k.tcbs[o].timerOn && k.tcbs[a].stat == Suspend && k.tcbs[b].stat == Suspend
    && k.tcbs[b].prio < k.tcbs[a].prio
  }

  lemma FifoThird(m: Mx, o: Tid, a: Tid, b: Tid) returns (ms: seq<Mx>)
    requires Scene(m, b, [a, b], Thread(o)) && BothWait(m.l.k, o, a, b)
    ensures |ms| == 3 && Goes(m, FifoSteps(o, b)[7], ms[0]) && forall i :: 0 <= i < 2 ==> Goes(ms[i], FifoSteps(o, b)[i + 8], ms[i + 1])
    ensures Inverted(ms[2], a, b)
  {
    hide MxInv, MxEnabled, MxNext, Scene, Inverted;
    SceneTimesOut(m, b, o, [a, b], Thread(o));
    var m8 := MxNext(m, ElsewhereStep(DoTimeout(o))).0;
    SceneSwitches(m8, b, o, [a, b], Thread(o));
    var m9 := MxNext(m8, ElsewhereStep(DoSchedule)).0;
    SceneReleases(m9, o, a, b);
    var m10 := MxNext(m9, ReleaseStep).0;
    ms := [m8, m9, m10];
  }

  lemma FifoStart(m: Mx, o: Tid, a: Tid, b: Tid)
    requires Trio(m, o, a, b)
    ensures Scene(m, o, [], Nobody) && MxInv(m)
  {
    hide Inv;
    StartInv(m);
  }

  lemma SceneReleases(m: Mx, o: Tid, a: Tid, b: Tid)
    requires Scene(m, o, [a, b], Thread(o)) && m.l.k.tcbs[o].stat == Running && o != a && o != b && a != b
    requires a in m.l.k.tcbs && b in m.l.k.tcbs && m.l.k.tcbs[b].prio < m.l.k.tcbs[a].prio
    ensures MxInv(m) && MxEnabled(m, ReleaseStep) && Inverted(MxNext(m, ReleaseStep).0, a, b)
  {
    hide Inv, CallOk, OwnerOk, Restore;
    HandOff(m);
    HandOffInheritance(m, Release(m).0);
    assert [a, b][1..] == [b];
    hide Ok;
  }

  lemma FifoRun(ms: seq<Mx>, o: Tid, b: Tid)
    requires |ms| == 11 && forall i :: 0 <= i < 10 ==> Goes(ms[i], FifoSteps(o, b)[i], ms[i + 1])
    ensures MxRun(ms, FifoSteps(o, b))
  {
    hide MxInv, MxEnabled, MxNext;
  }

  // ---------- the object ----------

  class RtMutex {
    const kernel: Kernel
    const wid: Wid
    const order: Order
    var value: nat
    var owner: Owner
    var orig: nat
    var hold: nat
    ghost var calls: map<Tid, Call>
    ghost var base: map<Tid, nat>

    ghost function Abs(): Mx
      reads this, kernel
    {
      Mx(Layer(kernel.St(), {wid}, calls), wid, order, value, owner, orig, hold, base)
    }

    /** rt_mutex_init */
    constructor (kernel: Kernel, wid: Wid, order: Order)
      requires Inv(kernel.St()) && WaitQ(wid) in kernel.lists && kernel.lists[WaitQ(wid)] == []
      ensures this.kernel == kernel && this.wid == wid && this.order == order && MxStart(Abs()) && MxInv(Abs())
    {
      hide Inv;
      this.kernel, this.wid, this.order := kernel, wid, order;
      value, owner, orig, hold := 1, Nobody, 0xff, 0;
      calls, base := map[], map t | t in kernel.tcbs :: OwnPriority(kernel.tcbs[t]);
      new;
      StartInv(Abs());
    }

    /** rt_mutex_take up to its rt_schedule. */
    method TakeRegion(time: int) returns (r: Outcome)
      requires MxInv(Abs()) && CanBlock(Abs().l) && hold < HOLD_MAX
      modifies this, kernel
      ensures (Abs(), r) == Take(old(Abs()), time) && MxInv(Abs())
    {
      hide Ok, OwnerOk, Boost, Begin;
      TakeInv(Abs(), time);
      WithErrorOk(Abs().l, EOK);
      var thread := kernel.current;
      MxError(Abs(), EOK);
      kernel.SetThreadError(thread, EOK);
      if owner == Thread(thread) {
        hold := hold + 1;
        return Done(EOK);
      }
      if value > 0 {
        value := value - 1;
        owner := Thread(thread);
        orig := kernel.tcbs[thread].prio;
        hold := hold + 1;
        return Done(EOK);
      }
      if time == 0 {
        kernel.SetThreadError(thread, ETIMEOUT);
        return Done(ETIMEOUT);
      }
      r := Pending;
      TakeWaits(time > 0);
    }

    /** The owner is boosted and the current thread suspended. */
    method TakeWaits(timed: bool)
      requires MxInv(Abs()) && CanBlock(Abs().l) && owner.Thread? && owner.t != kernel.current
      modifies this`calls, kernel
      ensures Ok(Boost(old(Abs())).l) && CanBlock(Boost(old(Abs())).l) && Boost(old(Abs())).l.ours == {wid}
      ensures Abs() == Boost(old(Abs())).(l := Begin(Boost(old(Abs())).l, wid, order, timed))
    {
      hide Inv, CallOk, Lists, OwnerOk, Boost, Begin;
      TakeBlocks(Abs(), timed);
      BoostOwner();
      Suspend(timed);
    }

    method BoostOwner()
      requires MxInv(Abs()) && CanBlock(Abs().l) && owner.Thread? && owner.t != kernel.current
      modifies kernel
      ensures Abs() == Boost(old(Abs()))
    {
      hide Inv, CallOk;
      var thread := kernel.current;
      if kernel.tcbs[thread].prio < kernel.tcbs[owner.t].prio {
        KnownPriority(kernel.St(), owner.t, thread);
        kernel.ThreadChangePriority(owner.t, kernel.tcbs[thread].prio);
      }
    }

    method Suspend(timed: bool)
      requires Ok(Abs().l) && CanBlock(Abs().l)
      modifies this`calls, kernel
      ensures Abs() == old(Abs()).(l := Begin(old(Abs().l), wid, order, timed))
    {
      hide Inv, CallOk, Lists;
      calls := calls[kernel.current := Call(wid, Waits)];
      kernel.BlockCurrent(wid, order, timed);
    }

    /** rt_mutex_take after its rt_schedule. */
    method TakeReturns() returns (e: Err)
      requires MxInv(Abs()) && Back(Abs().l)
      modifies this`calls
      ensures (Abs(), Done(e)) == Finish(old(Abs())) && MxInv(Abs())
    {
      hide MxInv, Ok, Inv;
      FinishInv(Abs());
      calls := map t | t in calls && t != kernel.current :: calls[t];
      e := kernel.tcbs[kernel.current].error;
    }

    method ReleaseRegion() returns (r: Outcome)
      requires MxInv(Abs()) && kernel.current in kernel.tcbs && kernel.current !in calls
      modifies this, kernel
      ensures (Abs(), r) == Release(old(Abs())) && MxInv(Abs())
    {
      hide Ok, OwnerOk, Restore;
      ghost var m := Abs();
      ReleaseInv(m);
      var thread := kernel.current;
      if owner != Thread(thread) {
        kernel.SetThreadError(thread, ERROR);
        return Done(ERROR);
      }
      hold := hold - 1;
      r := Done(EOK);
      if hold == 0 {
        GiveBack(m);
        PassOn(m);
      }
    }

    /** The owner's priority at acquisition, restored. */
    method GiveBack(ghost m: Mx)
      requires MxInv(m) && m.owner == Thread(kernel.current) && Abs() == m.(hold := 0)
      modifies kernel
      ensures Abs() == Restore(m).(hold := 0) && Ok(Restore(m).l) && OwnerAt(m, Restore(m), m.orig)
    {
      hide Inv, CallOk;
      RestoreOk(m);
      if orig != kernel.tcbs[kernel.current].prio {
        RestoreKnown(kernel.St(), kernel.current, orig);
        kernel.ThreadChangePriority(kernel.current, orig);
      }
    }

    method HandTo()
      requires Ok(Abs().l) && WaitQ(wid) in kernel.lists && kernel.lists[WaitQ(wid)] != []
      modifies this, kernel
      ensures var t := old(kernel.lists)[WaitQ(wid)][0];
        && t in old(kernel.tcbs) && kernel.tcbs.Keys == old(kernel.tcbs.Keys)
        && Abs() == old(Abs()).(l := WakeOne(old(Abs().l), wid, t), owner := Thread(t), orig := old(kernel.tcbs)[t].prio, hold := old(hold) + 1)
    {
      hide Inv, CallOk, Without;
      var thread := kernel.lists[WaitQ(wid)][0];
      WakeOneOk(Abs().l, wid, thread);
      owner := Thread(thread);
      orig := kernel.tcbs[thread].prio;
      hold := hold + 1;
      calls := calls[thread := Call(wid, Woke(EOK))];
      kernel.IpcListResume(wid);
    }

    /** To the first waiter, or to nobody. */
    method PassOn(ghost m: Mx)
      requires MxInv(m) && m.l.k.current in m.l.k.tcbs && m.l.k.current !in m.l.calls && m.owner == Thread(m.l.k.current) && m.hold == 1
      requires Ok(Restore(m).l) && OwnerAt(m, Restore(m), m.orig) && Abs() == Restore(m).(hold := 0)
      modifies this, kernel
      ensures Abs() == Release(m).0
    {
      hide CallOk, OwnerOk, Restore, Release, MxInv;
      LastRelease(m);
      hide OwnerAt, Without;
      assert Inv(kernel.St());
      hide Ok, Inv;
      if kernel.lists[WaitQ(wid)] != [] {
        HandTo();
      } else {
        value := value + 1;
        owner := Nobody;
        orig := 0xff;
      }
    }
  }

  lemma LastRelease(m: Mx)
    requires MxInv(m) && m.l.k.current in m.l.k.tcbs && m.l.k.current !in m.l.calls && m.owner == Thread(m.l.k.current) && m.hold == 1
    requires Ok(Restore(m).l) && OwnerAt(m, Restore(m), m.orig)
    ensures var m1 := Restore(m); var q := Waiters(m1);
      && (forall u :: u in q ==> u in m1.l.k.tcbs)
      && Release(m).0 ==
         if q == [] then m1.(value := m1.value + 1, owner := Nobody, orig := 0xff, hold := 0)
         else m1.(l := WakeOne(m1.l, m1.wid, q[0]), owner := Thread(q[0]), orig := m1.l.k.tcbs[q[0]].prio, hold := 1)
  {
    hide Inv, CallOk, OwnerOk, Restore, WakeOne;
    InvLists(Restore(m).l.k);
  }

  lemma MxError(m: Mx, e: Err)
    requires MxInv(m) && CanBlock(m.l)
    ensures MxInv(m.(l := WithError(m.l, e)))
  {
    hide Ok;
    WithErrorOk(m.l, e);
  }

  lemma RestoreKnown(k: State, t: Tid, p: nat)
    requires Inv(k) && t in k.tcbs && Started(k.tcbs[t]) && ReadyQ(p) in k.lists
    ensures Known(k, t) && (k.bits.TwoLevel? ==> p / 8 < |k.bits.table|)
  {
    hide Placement;
    InvPlaces(k, t);
  }

  lemma KnownPriority(k: State, t: Tid, u: Tid)
    requires Inv(k) && t in k.tcbs && Started(k.tcbs[t]) && u in k.tcbs
    ensures Known(k, t) && ReadyQ(k.tcbs[u].prio) in k.lists && (k.bits.TwoLevel? ==> k.tcbs[u].prio / 8 < |k.bits.table|)
  {
    hide Placement;
    InvPlaces(k, t);
  }
}
