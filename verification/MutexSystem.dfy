/** Several mutexes with priority inheritance, each thread holding or asking for at most one of them at a time
    (rt-thread/src/ipc.c). What one mutex does to the kernel is a few steps of the rest of the system for every other
    one, and disturbs none of them. */
module MutexSystem {
  import opened Seqs
  import opened ReadyBitmap
  import opened KernelSpec
  import opened KernelRuns
  import opened ThreadSteps
  import opened Waiting
  import opened Mutex

  /** Mutex i as it sees the kernel; own is each thread's own priority. */
  datatype Sys = Sys(k: State, ms: map<Wid, Mx>, own: map<Tid, nat>)

  /** A call on a mutex, or anything else. */
  datatype SysStep = OnMutex(i: Wid, op: MxStep) | OnKernel(x: Step)

  // ---------- what one mutex means to another ----------

  /** A step of the rest of the system, if it is one. */
  ghost function Aside(m: Mx, x: Step): Mx {
    if MxInv(m) && Outside(m, x) then Elsewhere(m, x) else m
  }

  /** Mutex n after a call on mutex m. */
  ghost function Beside(m: Mx, op: MxStep, n: Mx): Mx
    requires MxInv(m) && MxEnabled(m, op) && m.l.k.current in m.l.k.tcbs
  {
    match op
    case TakeStep(time) => BesideTake(m, time, n)
    case ReleaseStep => BesideRelease(m, n)
    case FinishStep => n
    case ElsewhereStep(_) => n
  }

  /** thread->error is set, the owner perhaps raised, and the current thread perhaps suspended. */
  ghost function BesideTake(m: Mx, time: int, n: Mx): Mx
    requires MxInv(m) && m.l.k.current in m.l.k.tcbs
  {
    var k, c := m.l.k, m.l.k.current;
    var a := Aside(n, DoSetError(c, EOK));
    if m.owner == Thread(c) || m.value > 0 then a
    else if time == 0 then Aside(a, DoSetError(c, ETIMEOUT))
    else
      var p := k.tcbs[c].prio;
      var b := if p < k.tcbs[m.owner.t].prio then Aside(a, DoChangePriority(m.owner.t, p)) else a;
      Aside(b, DoBlock(m.wid, m.order, time > 0))
  }

  /** The owner perhaps gets its priority back, and the first waiter is perhaps resumed. */
  ghost function BesideRelease(m: Mx, n: Mx): Mx
    requires MxInv(m) && m.l.k.current in m.l.k.tcbs
  {
    var k, c := m.l.k, m.l.k.current;
    if m.owner != Thread(c) then Aside(n, DoSetError(c, ERROR))
    else if m.hold > 1 then n
    else
      var a := if m.orig != k.tcbs[c].prio then Aside(n, DoChangePriority(c, m.orig)) else n;
      if Waiters(m) != [] then Aside(a, DoResume(Waiters(m)[0])) else a
  }

  /** n1 is n after steps that concern neither its owner nor its callers, and that may have given thread o a priority. */
  ghost predicate Undisturbed(n: Mx, n1: Mx, k1: State, o: Owner) {
    && PiInv(n1) && n1.l.k == k1 && n1.wid == n.wid && n1.owner == n.owner && n1.l.calls == n.l.calls
    && forall t :: t in n.base && o != Thread(t) ==> t in n1.base && n1.base[t] == n.base[t]
  }

  ghost predicate NotHere(n: Mx, t: Tid) {
    n.owner != Thread(t) && t !in n.l.calls
  }

  lemma AsideError(n: Mx, c: Tid, e: Err, o: Owner)
    requires PiInv(n) && c in n.l.k.tcbs && c !in n.l.calls
    ensures Undisturbed(n, Aside(n, DoSetError(c, e)), SetError(n.l.k, c, e), o)
  {
    hide Inv, Ok, Pi, OwnerOk, BasesOk;
    PiElsewhere(n, DoSetError(c, e));
  }

  lemma AsidePriority(n: Mx, t: Tid, p: nat)
    requires PiInv(n) && t in n.l.k.tcbs && Started(n.l.k.tcbs[t]) && ReadyQ(p) in n.l.k.lists && NotHere(n, t)
    ensures Known(n.l.k, t) && (n.l.k.bits.TwoLevel? ==> p / 8 < |n.l.k.bits.table|)
    ensures Undisturbed(n, Aside(n, DoChangePriority(t, p)), ChangePriority(n.l.k, t, p), Thread(t))
  {
    hide Inv, CallOk, Pi, OwnerOk, BasesOk, ChangePriority, PriorityChanged;
    InvTables(n.l.k);
    ReadyLevels(n.l.k, p);
    ChangePriorityInv(n.l.k, t, p);
    hide Lists;
    PiElsewhere(n, DoChangePriority(t, p));
    hide Ok;
  }

  lemma ReadyLevels(k: State, p: nat)
    requires Inv(k) && ReadyQ(p) in k.lists
    ensures p < k.bits.Levels()
  {
  }

  lemma AsideBlock(n: Mx, w: Wid, order: Order, timed: bool, o: Owner)
    requires PiInv(n) && w != n.wid && WaitQ(w) in n.l.k.lists && n.l.k.current !in n.l.calls
    requires n.l.k.current in n.l.k.tcbs && n.l.k.tcbs[n.l.k.current].stat == Running
    ensures Known(n.l.k, n.l.k.current) && Lists(n.l.k)
    ensures Undisturbed(n, Aside(n, DoBlock(w, order, timed)), Block(n.l.k, w, order, timed), o)
  {
    hide Inv, CallOk, Pi, OwnerOk, BasesOk, Block, Blocked;
    InvTables(n.l.k);
    BlockInv(n.l.k, w, order, timed);
    hide Lists;
    PiElsewhere(n, DoBlock(w, order, timed));
    hide Ok;
  }

  lemma AsideResume(n: Mx, t: Tid, o: Owner)
    requires PiInv(n) && t in n.l.k.tcbs && n.l.k.tcbs[t].stat == Suspend && t !in n.l.calls
    ensures Known(n.l.k, t)
    ensures Undisturbed(n, Aside(n, DoResume(t)), ResumeThread(n.l.k, t), o)
  {
    hide Inv, CallOk, Pi, OwnerOk, BasesOk, ResumeThread, Woken;
    ResumeThreadInv(n.l.k, t);
    PiElsewhere(n, DoResume(t));
    hide Ok;
  }

  lemma Twice(n: Mx, a: Mx, b: Mx, o: Owner)
    requires Undisturbed(n, a, a.l.k, o) && Undisturbed(a, b, b.l.k, o)
    ensures Undisturbed(n, b, b.l.k, o)
  {
    hide PiInv;
  }

  lemma TakeBeside(m: Mx, time: int, n: Mx)
    requires PiInv(m) && CanBlock(m.l) && m.hold < HOLD_MAX
    requires PiInv(n) && n.l.k == m.l.k && n.wid != m.wid && m.l.k.current !in n.l.calls
    requires m.owner.Thread? ==> NotHere(n, m.owner.t)
    ensures Undisturbed(n, BesideTake(m, time, n), Take(m, time).0.l.k, m.owner)
  {
    hide Inv, Ok, OwnerOk, Pi, PiInv, Aside, Undisturbed, Boost, Begin, BasesOk;
    var c, o := m.l.k.current, m.owner;
    PiIsMx(m);
    AsideError(n, c, EOK, o);
    var a := Aside(n, DoSetError(c, EOK));
    SeenBy(n, a, SetError(m.l.k, c, EOK), o);
    if m.owner != Thread(c) && m.value == 0 {
      if time == 0 {
        AsideError(a, c, ETIMEOUT, o);
        var b := Aside(a, DoSetError(c, ETIMEOUT));
        SeenBy(a, b, SetError(a.l.k, c, ETIMEOUT), o);
        Twice(n, a, b, o);
      } else {
        PiError(m, EOK);
        OwnerKnown(m);
        WaitBeside(m.(l := WithError(m.l, EOK)), time > 0, n, a);
      }
    }
  }

  lemma SeenBy(n: Mx, a: Mx, k: State, o: Owner)
    requires Undisturbed(n, a, k, o)
    ensures PiInv(a) && a.l.k == k && a.wid == n.wid && a.owner == n.owner && a.l.calls == n.l.calls
  {
    hide PiInv;
  }

  /** The owner boosted and the current thread on the wait list; k is the kernel with the owner boosted. */
  lemma WaitBeside(m: Mx, timed: bool, n: Mx, a: Mx)
    requires PiInv(m) && CanBlock(m.l) && m.owner.Thread? && m.owner.t != m.l.k.current && m.owner.t in m.l.k.tcbs
    requires n.wid != m.wid && m.l.k.current !in n.l.calls && NotHere(n, m.owner.t)
    requires a.l.k == m.l.k && Undisturbed(n, a, m.l.k, m.owner)
    ensures Ok(m.l) && OwnerOk(m) && m.l.k.current in m.l.k.tcbs
    ensures Ok(Boost(m).l) && CanBlock(Boost(m).l) && Boost(m).l.ours == m.l.ours && m.wid in m.l.ours
    ensures var p, o := m.l.k.tcbs[m.l.k.current].prio, m.owner.t;
      var b := if p < m.l.k.tcbs[o].prio then Aside(a, DoChangePriority(o, p)) else a;
      Undisturbed(n, Aside(b, DoBlock(m.wid, m.order, timed)), Begin(Boost(m).l, m.wid, m.order, timed).k, m.owner)
  {
    hide Inv, CallOk, Pi, PiInv, Aside, Undisturbed, BasesOk, OwnerOk, Boost;
    PiIsMx(m);
    TakeBlocks(m, timed);
    BoostOk(m);
    var p, o := m.l.k.tcbs[m.l.k.current].prio, m.owner.t;
    SeenBy(n, a, m.l.k, m.owner);
    BoostBeside(m, n, a);
    hide Boost, OwnerOk;
    BlockBeside(Boost(m).l, m.wid, m.order, timed, n, if p < m.l.k.tcbs[o].prio then Aside(a, DoChangePriority(o, p)) else a, m.owner);
  }

  lemma BlockBeside(l: Layer, w: Wid, order: Order, timed: bool, n: Mx, b: Mx, o: Owner)
    requires Ok(l) && CanBlock(l) && w in l.ours && n.wid != w && l.k.current !in n.l.calls
    requires Undisturbed(n, b, l.k, o)
    ensures Undisturbed(n, Aside(b, DoBlock(w, order, timed)), Begin(l, w, order, timed).k, o)
  {
    hide Inv, CallOk, PiInv, Aside, Undisturbed, Block;
    SeenBy(n, b, l.k, o);
    AsideBlock(b, w, order, timed, o);
    var d := Aside(b, DoBlock(w, order, timed));
    SeenBy(b, d, Block(l.k, w, order, timed), o);
    Twice(n, b, d, o);
  }

  lemma OwnerKnown(m: Mx)
    requires PiInv(m) && m.owner.Thread?
    ensures m.owner.t in m.l.k.tcbs && Started(m.l.k.tcbs[m.owner.t]) && ReadyQ(m.orig) in m.l.k.lists
  {
    hide Ok, Pi;
  }

  lemma BoostBeside(m: Mx, n: Mx, a: Mx)
    requires Ok(m.l) && OwnerOk(m) && CanBlock(m.l) && m.owner.Thread? && m.owner.t in m.l.k.tcbs && NotHere(n, m.owner.t)
    requires a.l.k == m.l.k && Undisturbed(n, a, m.l.k, m.owner)
    ensures var p, o := m.l.k.tcbs[m.l.k.current].prio, m.owner.t;
      Undisturbed(n, if p < m.l.k.tcbs[o].prio then Aside(a, DoChangePriority(o, p)) else a, Boost(m).l.k, m.owner)
  {
    hide Inv, CallOk, Pi, PiInv, Aside, Undisturbed, BasesOk, ChangePriority;
    var p, o := m.l.k.tcbs[m.l.k.current].prio, m.owner.t;
    SeenBy(n, a, m.l.k, m.owner);
    OwnLevel(m.l.k, m.l.k.current);
    if p < m.l.k.tcbs[o].prio {
      AsidePriority(a, o, p);
      var b := Aside(a, DoChangePriority(o, p));
      SeenBy(a, b, ChangePriority(a.l.k, o, p), m.owner);
      Twice(n, a, b, m.owner);
    }
  }

  lemma OwnLevel(k: State, t: Tid)
    requires Inv(k) && t in k.tcbs
    ensures ReadyQ(k.tcbs[t].prio) in k.lists
  {
    InvPlaces(k, t);
  }

  lemma ReleaseBeside(m: Mx, n: Mx)
    requires PiInv(m) && m.l.k.current in m.l.k.tcbs && m.l.k.current !in m.l.calls
    requires PiInv(n) && n.l.k == m.l.k && n.wid != m.wid && m.l.k.current !in n.l.calls
    requires (m.owner.Thread? ==> NotHere(n, m.owner.t)) && forall t :: t in m.l.calls ==> t !in n.l.calls
    ensures Undisturbed(n, BesideRelease(m, n), Release(m).0.l.k, m.owner)
  {
    hide Inv, Ok, OwnerOk, Pi, PiInv, Aside, Undisturbed, Restore, BasesOk;
    var c, o := m.l.k.current, m.owner;
    PiIsMx(m);
    if m.owner != Thread(c) {
      AsideError(n, c, ERROR, o);
    } else if m.hold > 1 {
      NoChange(n, o);
    } else {
      LastBeside(m, n);
    }
  }

  lemma NoChange(n: Mx, o: Owner)
    requires PiInv(n)
    ensures Undisturbed(n, n, n.l.k, o)
  {
    hide PiInv;
  }

  lemma LastBeside(m: Mx, n: Mx)
    requires PiInv(m) && m.owner == Thread(m.l.k.current) && m.hold == 1 && m.l.k.current in m.l.k.tcbs && m.l.k.current !in m.l.calls
    requires PiInv(n) && n.l.k == m.l.k && n.wid != m.wid && NotHere(n, m.l.k.current)
    requires forall t :: t in m.l.calls ==> t !in n.l.calls
    ensures Undisturbed(n, BesideRelease(m, n), Release(m).0.l.k, m.owner)
  {
    hide Inv, CallOk, Pi, PiInv, Aside, Undisturbed, BasesOk, OwnerOk, Restore;
    PiIsMx(m);
    RestoreOk(m);
    RestoreBeside(m, n);
    if Waiters(m) != [] {
      var a := if m.orig != m.l.k.tcbs[m.l.k.current].prio then Aside(n, DoChangePriority(m.l.k.current, m.orig)) else n;
      WakeBeside(m, Restore(m), n, a);
    }
  }

  lemma RestoreBeside(m: Mx, n: Mx)
    requires MxInv(m) && m.owner == Thread(m.l.k.current) && m.l.k.current in m.l.k.tcbs
    requires PiInv(n) && n.l.k == m.l.k && NotHere(n, m.l.k.current)
    ensures var c := m.l.k.current;
      Undisturbed(n, if m.orig != m.l.k.tcbs[c].prio then Aside(n, DoChangePriority(c, m.orig)) else n, Restore(m).l.k, m.owner)
  {
    hide Inv, Ok, PiInv, Aside, Undisturbed, ChangePriority;
    var c := m.l.k.current;
    if m.orig != m.l.k.tcbs[c].prio { AsidePriority(n, c, m.orig); } else { NoChange(n, m.owner); }
  }

  /** The first waiter of mutex m resumed; m1 is m with the priority given back. */
  lemma WakeBeside(m: Mx, m1: Mx, n: Mx, a: Mx)
    requires MxInv(m) && m.owner.Thread? && m.owner.t !in m.l.calls && m.owner.t in m.l.k.tcbs && Waiters(m) != []
    requires Ok(m1.l) && OwnerAt(m, m1, m.orig) && Undisturbed(n, a, m1.l.k, m.owner)
    requires forall t :: t in m.l.calls ==> t !in n.l.calls
    ensures m1.wid in m1.l.ours && Waiters(m)[0] in m1.l.k.lists[WaitQ(m1.wid)] && m1.wid == m.wid
    ensures var t := Waiters(m)[0];
      Undisturbed(n, Aside(a, DoResume(t)), WakeOne(m1.l, m1.wid, t).k, m.owner)
  {
    hide Inv, CallOk, PiInv, Aside, Undisturbed, OwnerOk, ResumeThread;
    var t, o := Waiters(m)[0], m.owner;
    WaiterInv(m1.l.k, m.wid, t);
    SeenBy(n, a, m1.l.k, o);
    AsideResume(a, t, o);
    var b := Aside(a, DoResume(t));
    SeenBy(a, b, ResumeThread(a.l.k, t), o);
    Twice(n, a, b, o);
  }

  // ---------- the system ----------

  ghost predicate Views(s: Sys) {
    forall i :: i in s.ms ==> s.ms[i].wid == i && s.ms[i].l.k == s.k && PiInv(s.ms[i])
  }

  /** The owner and the callers of mutex m have nothing to do with mutex n. */
  ghost predicate KeepsTo(m: Mx, n: Mx) {
    (m.owner.Thread? ==> NotHere(n, m.owner.t)) && forall t :: t in m.l.calls ==> t !in n.l.calls
  }

  ghost predicate OneEach(s: Sys) {
    forall i, j :: i in s.ms && j in s.ms && i != j ==> KeepsTo(s.ms[i], s.ms[j])
  }

  /** Thread t owns no mutex other than i. */
  ghost predicate OwnsNoOther(s: Sys, i: Wid, t: Tid) {
    forall j :: j in s.ms && j != i ==> s.ms[j].owner != Thread(t)
  }

  /** What a thread would run at without mutex i is its own priority, unless it owns another one. */
  ghost predicate OwnPriorities(s: Sys) {
    forall i, t :: i in s.ms && t in s.k.tcbs && OwnsNoOther(s, i, t) ==>
      t in s.own && t in s.ms[i].base && s.ms[i].base[t] == s.own[t]
  }

  ghost predicate SysInv(s: Sys) { Views(s) && OneEach(s) && OwnPriorities(s) }

  /** The current thread is not inside a call on a mutex other than i. */
  ghost predicate NotElsewhere(s: Sys, i: Wid) {
    forall j :: j in s.ms && j != i ==> s.k.current !in s.ms[j].l.calls
  }

  /** May the step be taken? A thread asks for a mutex only while it owns no other. The rest of the system closes no
      owner, and gives no owner and no waiter another priority. */
  ghost predicate SysEnabled(s: Sys, step: SysStep)
    requires SysInv(s)
  {
    match step
    case OnMutex(i, op) =>
      && i in s.ms && !op.ElsewhereStep? && MxInv(s.ms[i]) && MxEnabled(s.ms[i], op) && NotElsewhere(s, i)
      && (op.TakeStep? ==> OwnsNoOther(s, i, s.k.current))
    case OnKernel(x) =>
      && Inv(s.k) && Enabled(s.k, x) && forall i :: i in s.ms ==> MxInv(s.ms[i]) && PiEnabled(s.ms[i], ElsewhereStep(x))
  }

  ghost function SysNext(s: Sys, step: SysStep): Sys
    requires SysInv(s) && SysEnabled(s, step)
  {
    match step
    case OnMutex(i, op) =>
      CurrentKnown(s.ms[i]);
      var m1 := MxNext(s.ms[i], op).0;
      s.(k := m1.l.k, ms := map j | j in s.ms :: if j == i then m1 else Beside(s.ms[i], op, s.ms[j]))
    case OnKernel(x) =>
      Sys(Apply(s.k, x), map j | j in s.ms :: Aside(s.ms[j], x),
          match x case DoChangePriority(t, p) => s.own[t := p] case _ => s.own)
  }

  lemma CurrentKnown(m: Mx)
    requires MxInv(m)
    ensures m.l.k.current in m.l.k.tcbs
  {
  }

  // ---------- a call on one mutex ----------

  /** What a call on a mutex does to its owner and its callers. */
  ghost predicate Handled(m: Mx, m1: Mx, op: MxStep) {
    && m1.wid == m.wid && m1.base == m.base
    && (m1.owner != m.owner ==>
          || m1.owner == Nobody
          || (op.TakeStep? && m1.owner == Thread(m.l.k.current))
          || (m1.owner.Thread? && m1.owner.t in m.l.calls))
    && (m1.owner != m.owner && m.owner.Thread? ==> op.ReleaseStep? && m.owner.t == m.l.k.current)
    && forall t :: t in m1.l.calls ==> t in m.l.calls || (op.TakeStep? && t == m.l.k.current)
  }

  lemma MxHandled(m: Mx, op: MxStep)
    requires MxInv(m) && MxEnabled(m, op) && !op.ElsewhereStep?
    ensures Handled(m, MxNext(m, op).0, op)
  {
    hide Inv, CallOk, OwnerOk;
    if op.TakeStep? { HandledTake(m, op.time); }
    else if op.ReleaseStep? { HandledRelease(m); }
  }

  lemma HandledTake(m: Mx, time: int)
    requires MxInv(m) && CanBlock(m.l) && m.hold < HOLD_MAX
    ensures Handled(m, Take(m, time).0, TakeStep(time))
  {
    hide Inv, CallOk;
    WithErrorOk(m.l, EOK);
    var m1 := m.(l := WithError(m.l, EOK));
    if m.owner.Thread? && m.owner.t != m.l.k.current { BoostOk(m1); BoostKeeps(m1); }
    hide Boost;
  }

  lemma BoostKeeps(m: Mx)
    requires Ok(m.l) && OwnerOk(m) && m.owner.Thread? && m.l.k.current in m.l.k.tcbs
    ensures Boost(m) == m.(l := Boost(m).l) && Boost(m).l.calls == m.l.calls && Boost(m).l.k.current == m.l.k.current
  {
    hide Inv, CallOk, OwnerOk;
    BoostOk(m);
  }

  lemma HandledRelease(m: Mx)
    requires MxInv(m) && m.l.k.current in m.l.k.tcbs && m.l.k.current !in m.l.calls
    ensures Handled(m, Release(m).0, ReleaseStep)
  {
    hide Inv, CallOk, OwnerOk, Restore;
    if m.owner == Thread(m.l.k.current) && m.hold == 1 {
      RestoreOk(m);
      if Waiters(m) != [] { assert Waiters(m)[0] in m.l.calls; }
    }
  }

  /** For every other mutex, the call is a few steps of the rest of the system. */
  lemma OpBeside(m: Mx, op: MxStep, n: Mx)
    requires PiInv(m) && MxInv(m) && MxEnabled(m, op) && !op.ElsewhereStep? && m.l.k.current in m.l.k.tcbs
    requires PiInv(n) && n.l.k == m.l.k && n.wid != m.wid && KeepsTo(m, n) && (!op.FinishStep? ==> m.l.k.current !in n.l.calls)
    ensures Undisturbed(n, Beside(m, op, n), MxNext(m, op).0.l.k, m.owner)
  {
    hide MxInv, PiInv, BesideTake, BesideRelease, Take, Release, Undisturbed, Back, CanBlock;
    if op.TakeStep? { TakeBeside(m, op.time, n); }
    else if op.ReleaseStep? { ReleaseBeside(m, n); }
    else { NoChange(n, m.owner); }
  }

  lemma MutexViews(s: Sys, i: Wid, op: MxStep)
    requires SysInv(s) && SysEnabled(s, OnMutex(i, op))
    ensures Views(SysNext(s, OnMutex(i, op)))
    ensures forall j :: j in s.ms && j != i ==>
      Undisturbed(s.ms[j], SysNext(s, OnMutex(i, op)).ms[j], SysNext(s, OnMutex(i, op)).k, s.ms[i].owner)
  {
    hide MxInv, PiInv, MxEnabled, MxNext, Beside, Undisturbed, OwnPriorities, KeepsTo;
    var m, s1 := s.ms[i], SysNext(s, OnMutex(i, op));
    CurrentKnown(m);
    PiEnablesOp(m, op);
    PiStepInv(m, op);
    MxHandled(m, op);
    forall j | j in s.ms && j != i ensures Undisturbed(s.ms[j], s1.ms[j], s1.k, m.owner) {
      OpBeside(m, op, s.ms[j]);
    }
    forall j | j in s1.ms && j != i ensures s1.ms[j].wid == j && s1.ms[j].l.k == s1.k && PiInv(s1.ms[j]) {
      SeenBy(s.ms[j], s1.ms[j], s1.k, m.owner);
    }
  }

  lemma PiEnablesOp(m: Mx, op: MxStep)
    requires MxInv(m) && MxEnabled(m, op) && !op.ElsewhereStep?
    ensures PiEnabled(m, op)
  {
  }

  lemma MutexOneEach(s: Sys, i: Wid, op: MxStep)
    requires SysInv(s) && SysEnabled(s, OnMutex(i, op))
    ensures OneEach(SysNext(s, OnMutex(i, op)))
  {
    hide MxInv, PiInv, MxEnabled, MxNext, Beside, Undisturbed, OwnPriorities, Views;
    var m, s1 := s.ms[i], SysNext(s, OnMutex(i, op));
    MutexViews(s, i, op);
    MxHandled(m, op);
    CurrentOf(s, i);
    forall j | j in s.ms && j != i ensures s1.ms[j].owner == s.ms[j].owner && s1.ms[j].l.calls == s.ms[j].l.calls {
      SeenBy(s.ms[j], s1.ms[j], s1.k, m.owner);
    }
    forall a, b | a in s1.ms && b in s1.ms && a != b ensures KeepsTo(s1.ms[a], s1.ms[b]) {
      assert KeepsTo(s.ms[a], s.ms[b]) && KeepsTo(s.ms[b], s.ms[a]);
      if a == i { KeepsToOthers(s, i, op, s1.ms[i], s1.ms[b], b); }
      else if b == i { OthersKeepTo(s, i, op, s1.ms[i], s1.ms[a], a); }
    }
  }

  lemma CurrentOf(s: Sys, i: Wid)
    requires Views(s) && i in s.ms
    ensures s.ms[i].l.k.current == s.k.current
  {
    hide PiInv;
  }

  lemma KeepsToOthers(s: Sys, i: Wid, op: MxStep, m1: Mx, n1: Mx, j: Wid)
    requires i in s.ms && j in s.ms && i != j && Handled(s.ms[i], m1, op) && s.ms[i].l.k.current == s.k.current
    requires n1.owner == s.ms[j].owner && n1.l.calls == s.ms[j].l.calls
    requires KeepsTo(s.ms[i], s.ms[j]) && KeepsTo(s.ms[j], s.ms[i])
    requires NotElsewhere(s, i) && (op.TakeStep? ==> OwnsNoOther(s, i, s.k.current))
    ensures KeepsTo(m1, n1)
  {
  }

  lemma OthersKeepTo(s: Sys, i: Wid, op: MxStep, m1: Mx, n1: Mx, j: Wid)
    requires i in s.ms && j in s.ms && i != j && Handled(s.ms[i], m1, op) && s.ms[i].l.k.current == s.k.current
    requires n1.owner == s.ms[j].owner && n1.l.calls == s.ms[j].l.calls
    requires KeepsTo(s.ms[i], s.ms[j]) && KeepsTo(s.ms[j], s.ms[i])
    requires NotElsewhere(s, i) && (op.TakeStep? ==> OwnsNoOther(s, i, s.k.current))
    ensures KeepsTo(n1, m1)
  {
  }

  /** A started thread that does not own the mutex runs at its base priority there. */
  lemma AtBase(m: Mx, t: Tid)
    requires PiInv(m) && t in m.l.k.tcbs && Started(m.l.k.tcbs[t]) && m.owner != Thread(t)
    ensures t in m.base && m.base[t] == m.l.k.tcbs[t].prio
  {
    hide MxInv;
    assert BaseOk(m, t);
  }

  lemma InBase(m: Mx, t: Tid)
    requires PiInv(m) && t in m.l.k.tcbs
    ensures t in m.base
  {
    hide MxInv;
    assert BaseOk(m, t);
  }

  lemma MutexOwn(s: Sys, i: Wid, op: MxStep)
    requires SysInv(s) && SysEnabled(s, OnMutex(i, op))
    ensures OwnPriorities(SysNext(s, OnMutex(i, op)))
  {
    hide MxInv, PiInv, MxEnabled, MxNext, Beside, Undisturbed, OwnPriorities, OneEach;
    var m, s1 := s.ms[i], SysNext(s, OnMutex(i, op));
    MutexViews(s, i, op);
    MxHandled(m, op);
    CurrentOf(s, i);
    SameThreads(s, i, op);
    forall j, t | j in s1.ms && t in s1.k.tcbs && OwnsNoOther(s1, j, t)
      ensures t in s1.own && t in s1.ms[j].base && s1.ms[j].base[t] == s1.own[t]
    {
      ThreadOwn(s, i, op, s1, j, t);
    }
    OwnFrom(s1);
  }

  lemma OwnFrom(s: Sys)
    requires forall i, t :: i in s.ms && t in s.k.tcbs && OwnsNoOther(s, i, t) ==>
      t in s.own && t in s.ms[i].base && s.ms[i].base[t] == s.own[t]
    ensures OwnPriorities(s)
  {
  }

  lemma SameThreads(s: Sys, i: Wid, op: MxStep)
    requires SysInv(s) && SysEnabled(s, OnMutex(i, op))
    ensures StillStarted(s.k, SysNext(s, OnMutex(i, op)).k)
  {
    hide MxInv, PiInv, MxEnabled, MxNext, Beside, OwnPriorities, OneEach, NotElsewhere, OwnsNoOther, StillStarted;
    OpThreads(s.ms[i], op);
  }

  ghost predicate StillStarted(k: State, k1: State) {
    k1.tcbs.Keys == k.tcbs.Keys && forall t :: t in k.tcbs && Started(k.tcbs[t]) ==> Started(k1.tcbs[t])
  }

  lemma OpThreads(m: Mx, op: MxStep)
    requires MxInv(m) && MxEnabled(m, op) && !op.ElsewhereStep?
    ensures StillStarted(m.l.k, MxNext(m, op).0.l.k)
  {
    hide Inv, CallOk, OwnerOk, Take, Release;
    if op.TakeStep? { TakeThreads(m, op.time); }
    else if op.ReleaseStep? { ReleaseThreads(m); }
  }

  lemma TakeThreads(m: Mx, time: int)
    requires MxInv(m) && CanBlock(m.l) && m.hold < HOLD_MAX
    ensures StillStarted(m.l.k, Take(m, time).0.l.k)
  {
    hide Inv, CallOk, Boost, Begin, StillStarted;
    WithErrorOk(m.l, EOK);
    var m1 := m.(l := WithError(m.l, EOK));
    ErrorThreads(m.l.k, m.l.k.current, EOK);
    if m.owner != Thread(m.l.k.current) && m.value == 0 {
      if time == 0 {
        ErrorThreads(m1.l.k, m.l.k.current, ETIMEOUT);
        StillThen(m.l.k, m1.l.k, Take(m, time).0.l.k);
      } else {
        TakeInv(m, time);
        BoostOk(m1);
        BoostThreads(m1, Boost(m1), if m1.l.k.tcbs[m.l.k.current].prio < m1.l.k.tcbs[m.owner.t].prio
                                    then m1.l.k.tcbs[m.l.k.current].prio else m1.l.k.tcbs[m.owner.t].prio);
        hide OwnerOk, MxInv;
        BeginThreads(Boost(m1).l, m.wid, m.order, time > 0);
        StillThen(m.l.k, m1.l.k, Boost(m1).l.k);
        StillThen(m.l.k, Boost(m1).l.k, Take(m, time).0.l.k);
      }
    }
  }

  lemma StillThen(k: State, k1: State, k2: State)
    requires StillStarted(k, k1) && StillStarted(k1, k2)
    ensures StillStarted(k, k2)
  {
  }

  lemma ErrorThreads(k: State, t: Tid, e: Err)
    requires t in k.tcbs
    ensures StillStarted(k, SetError(k, t, e))
  {
  }

  lemma BoostThreads(m: Mx, m1: Mx, p: nat)
    requires m.owner.Thread? && m.owner.t in m.l.k.tcbs && OwnerAt(m, m1, p)
    ensures StillStarted(m.l.k, m1.l.k)
  {
  }

  lemma BeginThreads(l: Layer, w: Wid, order: Order, timed: bool)
    requires Ok(l) && CanBlock(l) && w in l.ours
    ensures StillStarted(l.k, Begin(l, w, order, timed).k)
  {
    hide Inv, CallOk, Begin, Position;
    BeginOk(l, w, order, timed);
    InvLists(l.k);
    hide Lists, Ok;
  }

  lemma ReleaseThreads(m: Mx)
    requires MxInv(m) && m.l.k.current in m.l.k.tcbs && m.l.k.current !in m.l.calls
    ensures StillStarted(m.l.k, Release(m).0.l.k)
  {
    hide Inv, CallOk, Restore, OwnerOk, StillStarted;
    if m.owner != Thread(m.l.k.current) {
      ErrorThreads(m.l.k, m.l.k.current, ERROR);
    } else if m.hold == 1 {
      RestoreOk(m);
      BoostThreads(m, Restore(m), m.orig);
      if Waiters(m) != [] {
        HandOff(m);
        hide Ok, Release;
        WokenThreads(Restore(m).l.k, Release(m).0.l.k, Waiters(m)[0]);
        StillThen(m.l.k, Restore(m).l.k, Release(m).0.l.k);
      }
    } else {
      NothingStops(m.l.k);
    }
  }

  lemma NothingStops(k: State)
    ensures StillStarted(k, k)
  {
  }

  lemma WokenThreads(k: State, k1: State, t: Tid)
    requires t in k.tcbs && Woken(k, k1, t, EOK)
    ensures StillStarted(k, k1)
  {
  }

  lemma ThreadOwn(s: Sys, i: Wid, op: MxStep, s1: Sys, j: Wid, t: Tid)
    requires SysInv(s) && i in s.ms && s1.ms.Keys == s.ms.Keys && s1.own == s.own && Views(s1) && StillStarted(s.k, s1.k)
    requires Handled(s.ms[i], s1.ms[i], op) && forall n :: n in s.ms && n != i ==> Undisturbed(s.ms[n], s1.ms[n], s1.k, s.ms[i].owner)
    requires j in s.ms && t in s.k.tcbs && OwnsNoOther(s1, j, t)
    ensures t in s.own && t in s1.ms[j].base && s1.ms[j].base[t] == s.own[t]
  {
    hide MxInv, PiInv;
    if j == i || s.ms[i].owner != Thread(t) {
      OwnedBefore(s, i, s1, j, t);
      assert OwnsNoOther(s, j, t);
      InBase(s.ms[j], t);
    } else {
      LetGo(s, i, op, s1, j, t);
    }
  }

  lemma OwnedBefore(s: Sys, i: Wid, s1: Sys, j: Wid, t: Tid)
    requires i in s.ms && s1.ms.Keys == s.ms.Keys && (j == i || s.ms[i].owner != Thread(t)) && OwnsNoOther(s1, j, t)
    requires forall n :: n in s.ms && n != i ==> Undisturbed(s.ms[n], s1.ms[n], s1.k, s.ms[i].owner)
    ensures OwnsNoOther(s, j, t)
  {
    hide PiInv;
  }

  /** The thread has just released the mutex: it runs at the same priority without either mutex. */
  lemma LetGo(s: Sys, i: Wid, op: MxStep, s1: Sys, j: Wid, t: Tid)
    requires SysInv(s) && i in s.ms && s1.ms.Keys == s.ms.Keys && s1.own == s.own && Views(s1) && StillStarted(s.k, s1.k)
    requires Handled(s.ms[i], s1.ms[i], op) && forall n :: n in s.ms && n != i ==> Undisturbed(s.ms[n], s1.ms[n], s1.k, s.ms[i].owner)
    requires j in s.ms && j != i && t in s.k.tcbs && OwnsNoOther(s1, j, t) && s.ms[i].owner == Thread(t)
    ensures t in s.own && t in s1.ms[j].base && s1.ms[j].base[t] == s.own[t]
  {
    hide MxInv, PiInv;
    assert KeepsTo(s.ms[i], s.ms[j]);
    SeenBy(s.ms[j], s1.ms[j], s1.k, s.ms[i].owner);
    OwnerKnown(s.ms[i]);
    AtBase(s1.ms[i], t);
    AtBase(s1.ms[j], t);
    assert OwnsNoOther(s, i, t) by {
      forall n | n in s.ms && n != i ensures s.ms[n].owner != Thread(t) { assert KeepsTo(s.ms[i], s.ms[n]); }
    }
  }

  // ---------- a step of the rest of the system ----------

  lemma KernelViews(s: Sys, x: Step)
    requires SysInv(s) && SysEnabled(s, OnKernel(x))
    ensures Views(SysNext(s, OnKernel(x)))
  {
    hide Inv, PiInv, Apply, Enabled, OwnPriorities, OneEach;
    var s1 := SysNext(s, OnKernel(x));
    forall i | i in s.ms ensures s1.ms[i].wid == i && s1.ms[i].l.k == s1.k && PiInv(s1.ms[i]) {
      AsideStep(s.ms[i], x);
    }
  }

  lemma AsideStep(m: Mx, x: Step)
    requires PiInv(m) && MxInv(m) && PiEnabled(m, ElsewhereStep(x)) && Enabled(m.l.k, x)
    ensures Outside(m, x) && Aside(m, x) == Elsewhere(m, x) && PiInv(Aside(m, x))
    ensures Inv(m.l.k) && Aside(m, x).wid == m.wid && Aside(m, x).l.k == Apply(m.l.k, x) && Aside(m, x).owner == m.owner
    ensures Aside(m, x).base == match x case DoChangePriority(t, p) => m.base[t := p] case _ => m.base
    ensures forall t :: t in Aside(m, x).l.calls ==> t in m.l.calls
  {
    hide Inv, CallOk, OwnerOk, Pi, BasesOk, Apply, Closes;
    PiElsewhere(m, x);
  }

  lemma KernelOneEach(s: Sys, x: Step)
    requires SysInv(s) && SysEnabled(s, OnKernel(x))
    ensures OneEach(SysNext(s, OnKernel(x)))
  {
    hide Inv, PiInv, MxInv, Apply, Enabled, OwnPriorities, PiEnabled, Aside;
    var s1 := SysNext(s, OnKernel(x));
    forall i, j | i in s1.ms && j in s1.ms && i != j ensures KeepsTo(s1.ms[i], s1.ms[j]) {
      assert KeepsTo(s.ms[i], s.ms[j]);
      AsideStep(s.ms[i], x);
      AsideStep(s.ms[j], x);
    }
  }

  lemma KernelOwn(s: Sys, x: Step)
    requires SysInv(s) && SysEnabled(s, OnKernel(x))
    ensures OwnPriorities(SysNext(s, OnKernel(x)))
  {
    hide Inv, PiInv, MxInv, Apply, Enabled, OneEach, PiEnabled, Aside, OwnPriorities;
    var s1 := SysNext(s, OnKernel(x));
    forall i, t | i in s1.ms && t in s1.k.tcbs && OwnsNoOther(s1, i, t)
      ensures t in s1.own && t in s1.ms[i].base && s1.ms[i].base[t] == s1.own[t]
    {
      AsideStep(s.ms[i], x);
      SameKeys(s.k, x);
      assert OwnsNoOther(s, i, t) by {
        forall j | j in s.ms && j != i ensures s.ms[j].owner != Thread(t) { AsideStep(s.ms[j], x); assert s1.ms[j].owner == s.ms[j].owner; }
      }
      OwnAt(s, i, t);
    }
    OwnFrom(s1);
  }

  lemma OwnAt(s: Sys, i: Wid, t: Tid)
    requires OwnPriorities(s) && i in s.ms && t in s.k.tcbs && OwnsNoOther(s, i, t)
    ensures t in s.own && t in s.ms[i].base && s.ms[i].base[t] == s.own[t]
  {
  }

  lemma SameKeys(k: State, x: Step)
    requires Inv(k) && Enabled(k, x)
    ensures Apply(k, x).tcbs.Keys == k.tcbs.Keys
  {
    hide Inv, Apply, Enabled;
    CurrentThread(k);
    LifeFrames(k, x, k.current);
  }

  lemma CurrentThread(k: State)
    requires Inv(k)
    ensures k.current in k.tcbs
  {
  }

  // ---------- runs ----------

  lemma SysStepInv(s: Sys, step: SysStep)
    requires SysInv(s) && SysEnabled(s, step)
    ensures SysInv(SysNext(s, step))
  {
    hide Views, OneEach, OwnPriorities, SysNext, SysEnabled;
    match step {
      case OnMutex(i, op) => MutexViews(s, i, op); MutexOneEach(s, i, op); MutexOwn(s, i, op);
      case OnKernel(x) => KernelViews(s, x); KernelOneEach(s, x); KernelOwn(s, x);
    }
  }

  /** A step from s to s1. The functions that describe steps are defined where the invariant holds; that it holds in
      every state of a run is shown, not assumed. */
  ghost predicate SysSteps(s: Sys, step: SysStep, s1: Sys) {
    SysInv(s) ==> SysEnabled(s, step) && s1 == SysNext(s, step)
  }

  ghost predicate SysRun(ss: seq<Sys>, steps: seq<SysStep>) {
    |ss| == |steps| + 1 && forall i :: 0 <= i < |steps| ==> SysSteps(ss[i], steps[i], ss[i + 1])
  }

  lemma {:induction false} SysRunInv(ss: seq<Sys>, steps: seq<SysStep>, i: nat)
    requires SysRun(ss, steps) && SysInv(ss[0]) && i < |ss|
    ensures SysInv(ss[i])
  {
    hide SysInv, SysEnabled, SysNext;
    if i > 0 {
      SysRunInv(ss, steps, i - 1);
      assert SysSteps(ss[i - 1], steps[i - 1], ss[i]);
      SysStepInv(ss[i - 1], steps[i - 1]);
    }
  }

  /** The mutexes as rt_mutex_init leaves them, all with RT_IPC_FLAG_PRIO. */
  ghost predicate SysStart(s: Sys) {
    && s.own == (map t | t in s.k.tcbs :: OwnPriority(s.k.tcbs[t]))
    && forall i :: i in s.ms ==> s.ms[i].wid == i && s.ms[i].l.k == s.k && s.ms[i].order == Prio && MxStart(s.ms[i])
  }

  lemma SysStartInv(s: Sys)
    requires SysStart(s)
    ensures SysInv(s)
  {
    hide Inv, PiInv;
    forall i | i in s.ms ensures PiInv(s.ms[i]) { PiStart(s.ms[i]); }
  }

  /** The owner is at least as urgent as itself without the mutex and as every waiter, and the priority saved for it is
      its own. */
  ghost predicate OwnerInherits(s: Sys, i: Wid)
    requires i in s.ms
  {
    var m := s.ms[i];
    m.owner.Thread? ==>
      && m.owner.t in s.k.tcbs && m.owner.t in s.own && m.orig == s.own[m.owner.t] && s.k.tcbs[m.owner.t].prio <= m.orig
      && WaitQ(i) in s.k.lists
      && forall u :: u in s.k.lists[WaitQ(i)] ==> u in s.k.tcbs && u in s.own && s.k.tcbs[u].prio == s.own[u]
                                                  && s.k.tcbs[m.owner.t].prio <= s.own[u]
  }

  /** Priority inheritance in a system of mutexes with RT_IPC_FLAG_PRIO, where a thread asks for a mutex only while it
      owns no other and the rest of the system gives no owner and no waiter another priority: in every state of every
      run, the owner of each mutex is at least as urgent as all its waiters and as its own priority, which is the one
      saved; and every started thread that owns no mutex, whatever it has owned before, runs at its own priority. */
  lemma InheritanceInEveryRun(ss: seq<Sys>, steps: seq<SysStep>, n: nat, i: Wid, t: Tid)
    requires SysRun(ss, steps) && SysStart(ss[0]) && n < |ss| && i in ss[n].ms && t in ss[n].k.tcbs
    ensures OwnerInherits(ss[n], i)
    ensures Started(ss[n].k.tcbs[t]) && (forall j :: j in ss[n].ms ==> ss[n].ms[j].owner != Thread(t)) ==>
      t in ss[n].own && ss[n].k.tcbs[t].prio == ss[n].own[t]
  {
    hide SysInv, SysRun, SysStart;
    SysStartInv(ss[0]);
    SysRunInv(ss, steps, n);
    InheritsNow(ss[n], i);
    if Started(ss[n].k.tcbs[t]) && forall j :: j in ss[n].ms ==> ss[n].ms[j].owner != Thread(t) { OwnNow(ss[n], i, t); }
  }

  lemma OwnNow(s: Sys, i: Wid, t: Tid)
    requires SysInv(s) && i in s.ms && t in s.k.tcbs && Started(s.k.tcbs[t]) && forall j :: j in s.ms ==> s.ms[j].owner != Thread(t)
    ensures t in s.own && s.k.tcbs[t].prio == s.own[t]
  {
    hide PiInv, OneEach;
    assert OwnsNoOther(s, i, t);
    AtBase(s.ms[i], t);
  }

  lemma InheritsNow(s: Sys, i: Wid)
    requires SysInv(s) && i in s.ms
    ensures OwnerInherits(s, i)
  {
    hide PiInv, MxInv;
    var m := s.ms[i];
    if m.owner.Thread? {
      Inherited(m);
      assert OwnsNoOther(s, i, m.owner.t) by {
        forall j | j in s.ms && j != i ensures s.ms[j].owner != Thread(m.owner.t) { assert KeepsTo(m, s.ms[j]); }
      }
      forall u | u in Waiters(m) ensures u in s.own && m.base[u] == s.own[u] {
        assert OwnsNoOther(s, i, u) by {
          forall j | j in s.ms && j != i ensures s.ms[j].owner != Thread(u) { assert KeepsTo(s.ms[j], m); }
        }
      }
    }
  }

  /** What inheritance says of one mutex. */
  lemma Inherited(m: Mx)
    requires PiInv(m) && m.owner.Thread?
    ensures m.owner.t in m.l.k.tcbs && m.owner.t in m.base && m.orig == m.base[m.owner.t] && m.l.k.tcbs[m.owner.t].prio <= m.orig
    ensures WaitQ(m.wid) in m.l.k.lists && MxInv(m)
    ensures forall u :: u in Waiters(m) ==>
      u in m.l.k.tcbs && u in m.l.calls && u in m.base && m.l.k.tcbs[u].prio == m.base[u] && m.l.k.tcbs[m.owner.t].prio <= m.base[u]
  {
    hide Inv, CallOk, OwnerOk;
    WaitersAtBase(m);
  }
}
