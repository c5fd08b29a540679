/** The answer of every call on a semaphore, mutex, event, mailbox, message queue or memory pool (rt-thread/src/ipc.c,
    rt-thread/src/mempool.c), and what the object and the threads are like after it, in terms of the object before. */
module IpcAnswers {
  import opened Seqs
  import opened KernelSpec
  import opened Waiting
  import opened WaitAnswers
  import Sem = Semaphore
  import Mut = Mutex
  import Ev = Event
  import Mb = Mailbox
  import Mq = MessageQueue
  import N = MessageNodes
  import Mp = MemPool

  /** No thread, list or call has changed. */
  ghost predicate Same(l: Layer, l1: Layer) { l1 == l }

  /** The current thread is inside a call on list w. */
  ghost predicate Entered(l: Layer, l1: Layer, w: Wid) { l1.ours == l.ours && l1.calls == l.calls[l.k.current := Call(w, Waits)] }

  // ---------- semaphores ----------

  /** rt_sem_take gets a token if there is one, gives up if it may not wait, and waits otherwise. */
  lemma SemTakeAnswer(s: Sem.Sem, time: int)
    requires Sem.SemInv(s) && Sem.SemEnabled(s, Sem.TakeStep(time))
    ensures Lists(s.l.k) && s.l.k.current in s.l.k.tcbs && WaitQ(s.wid) in s.l.k.lists
    ensures var (s1, r) := Sem.Take(s, time);
      if s.value > 0 then r == Sem.Done(EOK) && s1.value == s.value - 1 && s1.l == s.l
      else if time == 0 then r == Sem.Done(ETIMEOUT) && s1 == s
      else r == Sem.Pending && s1.value == 0 && StartsWaiting(s.l.k, s1.l.k, s.wid, s.order, time) && Entered(s.l, s1.l, s.wid)
  {
    hide Inv, CallOk, StartsWaiting, Begin;
    InvCurrent(s.l.k);
    if s.value == 0 && time != 0 { BeginsWaiting(s.l, s.wid, s.order, time); }
    hide Ok;
  }

  /** rt_sem_release hands its token to the first waiter, or adds it to the value. */
  lemma SemReleaseAnswer(s: Sem.Sem)
    requires Sem.SemInv(s) && s.value < Sem.VALUE_MAX
    ensures WaitQ(s.wid) in s.l.k.lists
    ensures var s1 := Sem.Release(s); var q := s.l.k.lists[WaitQ(s.wid)];
      if q == [] then s1.value == s.value + 1 && s1.l == s.l
      else s1.value == s.value && q[0] in s.l.k.tcbs && FirstWoken(s.l.k, s1.l.k, s.wid, EOK)
  {
    hide Inv, CallOk, FirstWoken, WakeOne;
    if s.l.k.lists[WaitQ(s.wid)] != [] { WakesFirst(s.l, s.wid); }
    hide Ok;
  }

  /** rt_sem_control(RT_IPC_CMD_RESET) sets the value and wakes everybody with an error. */
  lemma SemResetAnswer(s: Sem.Sem, v: nat)
    requires Sem.SemInv(s) && v <= Sem.VALUE_MAX
    ensures WaitQ(s.wid) in s.l.k.lists && Sem.Reset(s, v).value == v && AllWoken(s.l.k, Sem.Reset(s, v).l.k, s.wid)
  {
    hide Inv, CallOk, AllWoken, WakeAll;
    WakeAllOk(s.l, s.wid);
    hide Ok;
  }

  // ---------- mutexes ----------

  /** The mutex belongs to thread t, taken the given number of times. */
  ghost predicate OwnedBy(m: Mut.Mx, t: Tid, hold: nat) { m.owner == Mut.Thread(t) && m.hold == hold && m.value == 0 }

  ghost predicate Free(m: Mut.Mx) { m.owner == Mut.Nobody && m.hold == 0 && m.value == 1 }

  /** The current thread waits for the mutex from now on, for time ticks if that is positive, and the owner, if it was
      less urgent, has become as urgent; nothing else has changed. */
  ghost predicate TakeWaits(m: Mut.Mx, m1: Mut.Mx, time: int) {
    var k, k1, c, w := m.l.k, m1.l.k, m.l.k.current, WaitQ(m.wid);
    && m.owner.Thread? && m.owner.t in k.tcbs && c in k.tcbs && Lists(k) && w in k.lists
    && m1 == m.(l := m1.l) && Entered(m.l, m1.l, m.wid)
    && time != 0 && k1.current == c && k1.lists.Keys == k.lists.Keys && k1.tcbs.Keys == k.tcbs.Keys
    && k1.tcbs[c] == k.tcbs[c].(error := EOK, stat := Suspend, timerOn := time > 0)
    && k1.tcbs[m.owner.t] == k.tcbs[m.owner.t].(attr := k1.tcbs[m.owner.t].attr,
         prio := if k.tcbs[c].prio < k.tcbs[m.owner.t].prio then k.tcbs[c].prio else k.tcbs[m.owner.t].prio)
    && (forall u :: u in k.tcbs && u != c && u != m.owner.t ==> k1.tcbs[u] == k.tcbs[u])
    && CameIn(k.tcbs, k.lists[w], k1.lists[w], c, k.tcbs[c].prio, m.order)
    && forall v :: WaitQ(v) in k.lists && v != m.wid ==> k1.lists[WaitQ(v)] == k.lists[WaitQ(v)]
  }

  /** rt_mutex_take answers RT_EOK iff the mutex is the caller's afterwards: because it was, or because it was free.
      Otherwise another thread owns it: then the caller gives up if it may not wait, and waits if it may. */
  lemma MutexTakeAnswer(m: Mut.Mx, time: int)
    requires Mut.MxInv(m) && CanBlock(m.l) && m.hold < Mut.HOLD_MAX
    ensures var (m1, r) := Mut.Take(m, time); var c := m.l.k.current;
      && (r == Mut.Done(EOK) <==> m1.owner == Mut.Thread(c))
      && (r == Mut.Pending <==> WaitQ(m.wid) in m1.l.k.lists && c in m1.l.k.lists[WaitQ(m.wid)])
      && (if m.owner == Mut.Thread(c) then
            r == Mut.Done(EOK) && OwnedBy(m1, c, m.hold + 1) && OnlyError(m.l, m1.l, EOK) && m1.orig == m.orig
          else if Free(m) then
            r == Mut.Done(EOK) && OwnedBy(m1, c, 1) && OnlyError(m.l, m1.l, EOK) && m1.orig == m.l.k.tcbs[c].prio
          else if time == 0 then
            r == Mut.Done(ETIMEOUT) && m.owner.Thread? && m1 == m.(l := m1.l) && OnlyError(m.l, m1.l, ETIMEOUT)
          else r == Mut.Pending && TakeWaits(m, m1, time))
  {
    hide Inv, CallOk, Mut.Boost, Mut.OwnerOk, StartsWaiting, Begin, TakeWaits;
    InvCurrent(m.l.k);
    NotListed(m.l, m.wid);
    WithErrorOk(m.l, EOK);
    if m.owner != Mut.Thread(m.l.k.current) && m.value == 0 {
      if time != 0 { MutexWaits(m, time); }
    }
    hide Ok;
  }

  /** A thread that runs and is in no call is on none of our lists. */
  lemma NotListed(l: Layer, w: Wid)
    requires Ok(l) && w in l.ours && CanBlock(l)
    ensures l.k.current !in l.k.lists[WaitQ(w)]
  {
    hide Inv, CallOk;
  }

  lemma MutexWaits(m: Mut.Mx, time: int)
    requires Mut.MxInv(m) && CanBlock(m.l) && m.owner.Thread? && m.owner.t != m.l.k.current && time != 0 && m.value == 0
    ensures var m1 := Mut.Take(m, time).0; TakeWaits(m, m1, time) && m1.owner == m.owner
    ensures var m1 := Mut.Take(m, time).0; WaitQ(m.wid) in m1.l.k.lists && m.l.k.current in m1.l.k.lists[WaitQ(m.wid)]
  {
    hide Inv, CallOk, Mut.Boost, StartsWaiting, Begin, Mut.OwnerAt, TakeWaits;
    InvCurrent(m.l.k);
    OwnerNotWaiting(m);
    WithErrorOk(m.l, EOK);
    var m0 := m.(l := WithError(m.l, EOK));
    Mut.BoostOk(m0);
    Mut.TakeBlocks(m0, time > 0);
    var mid := Mut.Boost(m0);
    Begun(mid.l, m.wid, m.order, time > 0);
    BeginsWaiting(mid.l, m.wid, m.order, time);
    hide Ok, Mut.OwnerOk;
    RaisedOnly(m0, mid);
    Combined(m, m0, mid, Mut.Take(m, time).0, time);
  }

  lemma RaisedOnly(m: Mut.Mx, mid: Mut.Mx)
    requires m.owner.Thread? && m.owner.t in m.l.k.tcbs && m.l.k.current in m.l.k.tcbs
    requires var p, q := m.l.k.tcbs[m.l.k.current].prio, m.l.k.tcbs[m.owner.t].prio; Mut.OwnerAt(m, mid, if p < q then p else q)
    ensures mid == m.(l := mid.l) && mid.l.ours == m.l.ours && mid.l.calls == m.l.calls && mid.l.k.current == m.l.k.current
  {
  }

  lemma OwnerNotWaiting(m: Mut.Mx)
    requires Mut.MxInv(m) && m.owner.Thread?
    ensures WaitQ(m.wid) in m.l.k.lists && m.owner.t !in m.l.k.lists[WaitQ(m.wid)] && m.owner.t in m.l.k.tcbs
  {
    hide Inv, CallOk;
  }

  /** The error reset, the owner raised, and the thread suspended. */
  lemma Combined(m: Mut.Mx, m0: Mut.Mx, mid: Mut.Mx, m1: Mut.Mx, time: int)
    requires m.owner.Thread? && m.owner.t in m.l.k.tcbs && m.l.k.current in m.l.k.tcbs && m.owner.t != m.l.k.current
    requires Lists(m.l.k) && WaitQ(m.wid) in m.l.k.lists && m.owner.t !in m.l.k.lists[WaitQ(m.wid)]
    requires m0 == m.(l := WithError(m.l, EOK))
    requires var p, q := m.l.k.tcbs[m.l.k.current].prio, m.l.k.tcbs[m.owner.t].prio; Mut.OwnerAt(m0, mid, if p < q then p else q)
    requires Lists(mid.l.k) && mid.l.k.current in mid.l.k.tcbs && WaitQ(m.wid) in mid.l.k.lists
    requires StartsWaiting(mid.l.k, m1.l.k, m.wid, m.order, time)
    requires m1.l.k.tcbs == mid.l.k.tcbs[m.l.k.current := mid.l.k.tcbs[m.l.k.current].(error := EOK, stat := Suspend, timerOn := time > 0)]
    requires m1.l.ours == mid.l.ours && m1.l.calls == mid.l.calls[m.l.k.current := Call(m.wid, Waits)] && m1 == mid.(l := m1.l)
    ensures TakeWaits(m, m1, time)
  {
    hide CameIn;
    SameRightPlace(m.l.k.tcbs, mid.l.k.tcbs, m.l.k.lists[WaitQ(m.wid)], m1.l.k.lists[WaitQ(m.wid)], m.l.k.current,
                   m.l.k.tcbs[m.l.k.current].prio, m.order);
  }

  lemma SameRightPlace(tcbs: map<Tid, Tcb>, tcbs1: map<Tid, Tcb>, l: seq<Tid>, l1: seq<Tid>, t: Tid, p: nat, order: Order)
    requires forall u :: u in l ==> u in tcbs && u in tcbs1 && tcbs1[u].prio == tcbs[u].prio
    ensures CameIn(tcbs1, l, l1, t, p, order) ==> CameIn(tcbs, l, l1, t, p, order)
  {
    if CameIn(tcbs1, l, l1, t, p, order) {
      var i: nat :| RightPlace(tcbs1, l, i, p, order) && l1 == l[..i] + [t] + l[i..];
      assert RightPlace(tcbs, l, i, p, order);
    }
  }

  /** Nothing about any thread has changed but the priority of the current one, which is p, and no wait list. */
  ghost predicate OnlyPriority(k: State, k1: State, p: nat) {
    var c := k.current;
    && c in k.tcbs && c in k1.tcbs && k1.current == c && k1.lists.Keys == k.lists.Keys
    && k1.tcbs == k.tcbs[c := k.tcbs[c].(prio := p, attr := k1.tcbs[c].attr)]
    && forall w :: WaitQ(w) in k.lists ==> k1.lists[WaitQ(w)] == k.lists[WaitQ(w)]
  }

  /** The first waiter t owns the mutex from now on, awake and with RT_EOK, and the current thread has its own priority
      again; nobody else has changed, and the others wait on in their order. */
  ghost predicate HandedOver(m: Mut.Mx, m1: Mut.Mx, t: Tid) {
    var k, k1, c, w := m.l.k, m1.l.k, m.l.k.current, WaitQ(m.wid);
    && c in k.tcbs && t in k.tcbs && w in k.lists && k.lists[w] != [] && k.lists[w][0] == t && t != c
    && OwnedBy(m1, t, 1) && m1.orig == k.tcbs[t].prio
    && k1.current == c && k1.lists.Keys == k.lists.Keys && k1.tcbs.Keys == k.tcbs.Keys
    && k1.tcbs[c] == k.tcbs[c].(prio := m.orig, attr := k1.tcbs[c].attr)
    && k1.tcbs[t] == k.tcbs[t].(error := EOK, timerOn := false, stat := Ready)
    && (forall u :: u in k.tcbs && u != c && u != t ==> k1.tcbs[u] == k.tcbs[u])
    && k1.lists[w] == k.lists[w][1..] && m1.l.calls == m.l.calls[t := Call(m.wid, Woke(EOK))]
  }

  /** rt_mutex_release by the owner counts down a nested take; the last one gives the owner its own priority back and
      hands the mutex to the first waiter, or frees it. Anybody else is refused. */
  lemma MutexReleaseAnswer(m: Mut.Mx)
    requires Mut.MxInv(m) && m.l.k.current in m.l.k.tcbs && m.l.k.current !in m.l.calls
    ensures WaitQ(m.wid) in m.l.k.lists
    ensures var (m1, r) := Mut.Release(m); var c, q := m.l.k.current, m.l.k.lists[WaitQ(m.wid)];
      && (r == Mut.Done(EOK) <==> m.owner == Mut.Thread(c))
      && (if m.owner != Mut.Thread(c) then r == Mut.Done(ERROR) && m1 == m.(l := m1.l) && OnlyError(m.l, m1.l, ERROR)
          else if m.hold > 1 then m1 == m.(hold := m.hold - 1)
          else if q == [] then Free(m1) && m1.orig == 0xff && OnlyPriority(m.l.k, m1.l.k, m.orig) && m1.l.calls == m.l.calls
          else HandedOver(m, m1, q[0]))
  {
    hide Inv, CallOk, Mut.Restore, HandedOver, Mut.OwnerOk, OnlyPriority;
    if m.owner == Mut.Thread(m.l.k.current) && m.hold == 1 {
      Mut.RestoreOk(m);
      if m.l.k.lists[WaitQ(m.wid)] != [] { MutexHandsOver(m); } else { RestoredOnly(m, Mut.Restore(m)); }
    }
    hide Ok;
  }

  lemma RestoredOnly(m: Mut.Mx, m1: Mut.Mx)
    requires m.owner == Mut.Thread(m.l.k.current) && m.l.k.current in m.l.k.tcbs && Mut.OwnerAt(m, m1, m.orig)
    ensures OnlyPriority(m.l.k, m1.l.k, m.orig) && m1.l.calls == m.l.calls && m1 == m.(l := m1.l)
  {
  }

  lemma MutexHandsOver(m: Mut.Mx)
    requires Mut.MxInv(m) && m.l.k.current in m.l.k.tcbs && m.l.k.current !in m.l.calls
    requires m.owner == Mut.Thread(m.l.k.current) && m.hold == 1
    requires WaitQ(m.wid) in m.l.k.lists && m.l.k.lists[WaitQ(m.wid)] != []
    ensures HandedOver(m, Mut.Release(m).0, m.l.k.lists[WaitQ(m.wid)][0])
  {
    hide Inv, CallOk, Mut.Restore, HandedOver, Mut.OwnerOk, Mut.OwnerAt;
    Mut.HandOff(m);
    Mut.RestoreOk(m);
    var t := m.l.k.lists[WaitQ(m.wid)][0];
    OwnerNotWaiting(m);
    InvCurrent(m.l.k);
    assert t in m.l.k.lists[WaitQ(m.wid)];
    FirstOff(m.l, m.wid);
    hide Ok;
    HandedIs(m, Mut.Restore(m), Mut.Release(m).0, t);
  }

  lemma FirstOff(l: Layer, w: Wid)
    requires Ok(l) && w in l.ours && l.k.lists[WaitQ(w)] != []
    ensures Without(l.k.lists[WaitQ(w)], l.k.lists[WaitQ(w)][0]) == l.k.lists[WaitQ(w)][1..]
  {
    hide CallOk;
    InvCurrent(l.k);
    WithoutFirst(l.k.lists[WaitQ(w)]);
  }

  lemma HandedIs(m: Mut.Mx, mid: Mut.Mx, m1: Mut.Mx, t: Tid)
    requires m.owner == Mut.Thread(m.l.k.current) && m.l.k.current in m.l.k.tcbs && WaitQ(m.wid) in m.l.k.lists
    requires m.l.k.lists[WaitQ(m.wid)] != [] && m.l.k.lists[WaitQ(m.wid)][0] == t && t in m.l.k.tcbs && t != m.l.k.current
    requires Without(m.l.k.lists[WaitQ(m.wid)], t) == m.l.k.lists[WaitQ(m.wid)][1..]
    requires Mut.OwnerAt(m, mid, m.orig) && t in mid.l.k.tcbs && Woken(mid.l.k, m1.l.k, t, EOK)
    requires m1.owner == Mut.Thread(t) && m1.hold == 1 && m1.value == 0 && m1.orig == mid.l.k.tcbs[t].prio
    requires m1.l.calls == mid.l.calls[t := Call(m.wid, Woke(EOK))]
    ensures HandedOver(m, m1, t)
  {
    hide Without;
  }

  // ---------- coming back from rt_schedule ----------

  /** What a call answers that was taken off its list with error e: the other calls, and all threads, are as they were. */
  ghost predicate CameBack(l: Layer, l1: Layer, e: Err) {
    && l.k.current in l.calls && l.calls[l.k.current].phase == Woke(e)
    && l1.k == l.k && l1.ours == l.ours && l1.calls == l.calls - {l.k.current}
  }

  lemma BackAnswer(l: Layer)
    requires Ok(l) && Back(l)
    ensures CameBack(l, Leave(l), l.k.tcbs[l.k.current].error)
  {
    hide Inv, CallOk;
    LeaveOk(l);
  }

  /** rt_sem_take, rt_mutex_take and rt_event_recv answer what their wait ended with; the events received are those in
      the thread's record. */
  lemma FinishAnswers(s: Sem.Sem, m: Mut.Mx, e: Ev.Ev)
    ensures Sem.SemInv(s) && Back(s.l) ==>
      Sem.Finish(s).1.Done? && Sem.Finish(s).0 == s.(l := Sem.Finish(s).0.l) && CameBack(s.l, Sem.Finish(s).0.l, Sem.Finish(s).1.error)
    ensures Mut.MxInv(m) && Back(m.l) ==>
      Mut.Finish(m).1.Done? && Mut.Finish(m).0 == m.(l := Mut.Finish(m).0.l) && CameBack(m.l, Mut.Finish(m).0.l, Mut.Finish(m).1.error)
    ensures Ev.EvInv(e) && Back(e.l) ==>
      var (e1, r) := Ev.Finish(e);
      && e1 == e.(l := e1.l)
      && match r
         case Received(bits) => CameBack(e.l, e1.l, EOK) && bits == e.l.k.tcbs[e.l.k.current].eventSet
         case Done(err) => err != EOK && CameBack(e.l, e1.l, err)
         case Pending => false
  {
    hide Inv, CallOk;
    if Ok(s.l) && Back(s.l) { BackAnswer(s.l); }
    if Ok(m.l) && Back(m.l) { BackAnswer(m.l); }
    if Ok(e.l) && Back(e.l) { BackAnswer(e.l); }
    hide Ok;
  }

  // ---------- events ----------

  function Common(a: bv32, b: bv32): bv32 { a & b }

  function Except(a: bv32, b: bv32): bv32 { a & !b }

  function Joined(a: bv32, b: bv32): bv32 { a | b }

  lemma BitSets(a: bv32, b: bv32)
    ensures Ev.And(a, b) == Common(a, b) && Ev.Minus(a, b) == Except(a, b) && Ev.Or(a, b) == Joined(a, b)
  {
  }

  /** Are the events now there enough for someone who asks for bits, all of them or any? */
  predicate Enough(now: bv32, bits: bv32, all: bool) { if all then Common(now, bits) == bits else Common(now, bits) != 0 }

  lemma SatisfiedEnough(now: bv32, w: Ev.Want)
    requires Ev.ValidWant(w)
    ensures Ev.Satisfied(now, w) <==> Enough(now, w.bits, w.info.all)
  {
    hide Common, Ev.And;
    BitSets(now, w.bits);
  }

  /** A receive answers at once with the events asked for that are there, if they are enough, and takes them away if told
      to clear; gives up if it may not wait; and else waits, its request in its record. */
  ghost predicate RecvAnswered(e: Ev.Ev, e1: Ev.Ev, r: Ev.Outcome, req: bv32, info: EventInfo, time: int) {
    var c := e.l.k.current;
    if req == 0 then r == Ev.Done(ERROR) && e1 == e
    else if Enough(e.events, req, info.all) then
      && r == Ev.Received(Common(e.events, req)) && OnlyError(e.l, e1.l, EOK)
      && e1 == e.(l := e1.l, events := if info.clear then Except(e.events, req) else e.events)
    else if time == 0 then r == Ev.Done(ETIMEOUT) && e1 == e.(l := e1.l) && OnlyError(e.l, e1.l, ETIMEOUT)
    else
      && r == Ev.Pending && e1 == e.(l := e1.l, want := e.want[c := Ev.Want(req, info)]) && Entered(e.l, e1.l, e.wid)
      && c in e.l.k.tcbs && Lists(Asking(e.l, req, info)) && WaitQ(e.wid) in e.l.k.lists
      && StartsWaiting(Asking(e.l, req, info), e1.l.k, e.wid, e.order, time)
  }

  lemma EventRecvAnswer(e: Ev.Ev, req: bv32, info: EventInfo, time: int)
    requires Ev.EvInv(e) && CanBlock(e.l) && (req != 0 ==> info.all || info.any)
    ensures RecvAnswered(e, Ev.Recv(e, req, info, time).0, Ev.Recv(e, req, info, time).1, req, info, time)
  {
    hide Inv, CallOk, Ev.Satisfied, Enough, Common, RecvAnswered, Ev.Recv;
    if req == 0 || Enough(e.events, req, info.all) || time == 0 {
      EventRecvNow(e, req, info, time);
    } else {
      EventRecvLater(e, req, info, time);
    }
  }

  lemma EventRecvNow(e: Ev.Ev, req: bv32, info: EventInfo, time: int)
    requires Ev.EvInv(e) && CanBlock(e.l) && (req != 0 ==> info.all || info.any)
    requires req == 0 || Enough(e.events, req, info.all) || time == 0
    ensures RecvAnswered(e, Ev.Recv(e, req, info, time).0, Ev.Recv(e, req, info, time).1, req, info, time)
  {
    hide Inv, CallOk, StartsWaiting, Begin, Ev.Satisfied, Enough, Common, Except, Ev.And, Ev.Minus;
    BitSets(e.events, req);
    if req != 0 {
      SatisfiedEnough(e.events, Ev.Want(req, info));
      WithErrorOk(e.l, EOK);
    }
    hide Ok;
  }

  lemma EventRecvLater(e: Ev.Ev, req: bv32, info: EventInfo, time: int)
    requires Ev.EvInv(e) && CanBlock(e.l) && (info.all || info.any)
    requires req != 0 && !Enough(e.events, req, info.all) && time != 0
    ensures RecvAnswered(e, Ev.Recv(e, req, info, time).0, Ev.Recv(e, req, info, time).1, req, info, time)
  {
    hide Inv, CallOk, StartsWaiting, Begin, Ev.Satisfied, Enough, Ev.SetEvents;
    SatisfiedEnough(e.events, Ev.Want(req, info));
    EventWaits(e, req, info, time);
    WithErrorOk(e.l, EOK);
    Ev.SetEventsOk(WithError(e.l, EOK), e.l.k.current, req, info);
    hide Ok;
  }

  /** The kernel with the request in the current thread's record. */
  ghost function Asking(l: Layer, req: bv32, info: EventInfo): State
    requires l.k.current in l.k.tcbs
  {
    l.k.(tcbs := l.k.tcbs[l.k.current := l.k.tcbs[l.k.current].(error := EOK, eventSet := req, eventInfo := info)])
  }

  lemma EventWaits(e: Ev.Ev, req: bv32, info: EventInfo, time: int)
    requires Ev.EvInv(e) && CanBlock(e.l) && (info.all || info.any) && req != 0 && time != 0
    requires !Ev.Satisfied(e.events, Ev.Want(req, info))
    ensures var e1 := Ev.Recv(e, req, info, time).0; var k := Asking(e.l, req, info);
      && Lists(k) && WaitQ(e.wid) in k.lists && StartsWaiting(k, e1.l.k, e.wid, e.order, time)
      && Entered(e.l, e1.l, e.wid) && e1 == e.(l := e1.l, want := e.want[e.l.k.current := Ev.Want(req, info)])
  {
    hide Inv, CallOk, StartsWaiting, Begin, Ev.Satisfied;
    WithErrorOk(e.l, EOK);
    var l0 := WithError(e.l, EOK);
    Ev.SetEventsOk(l0, e.l.k.current, req, info);
    var l1 := Ev.SetEvents(l0, e.l.k.current, req, info);
    BeginsWaiting(l1, e.wid, e.order, time);
    hide Ok;
    var c, x := e.l.k.current, e.l.k.tcbs[e.l.k.current];
    assert e.l.k.tcbs[c := x.(error := EOK)][c := x.(error := EOK, eventSet := req, eventInfo := info)]
        == e.l.k.tcbs[c := x.(error := EOK, eventSet := req, eventInfo := info)];
  }

  /** rt_event_send adds the events to those that are there, keeps every one of them, and serves the waiters in list
      order out of all of these. */
  lemma EventSendAnswer(e: Ev.Ev, req: bv32)
    requires Ev.EvInv(e)
    ensures SendAnswered(e, Ev.Send(e, req).0, Ev.Send(e, req).1, req)
  {
    hide Ok, Ev.Satisfied, Ev.Walk, Ev.Linked, Ev.Walked, Ev.Or, Joined;
    BitSets(e.events, req);
    Ev.SendServes(e, req);
    if req != 0 { NobodyServed(e.(events := Joined(e.events, req)), Ev.Send(e, req).0); }
  }

  ghost predicate SendAnswered(e: Ev.Ev, e1: Ev.Ev, r: Ev.Outcome, req: bv32) {
    && WaitQ(e.wid) in e.l.k.lists && (forall u :: u in e.l.k.lists[WaitQ(e.wid)] ==> u in e.want)
    && if req == 0 then r == Ev.Done(ERROR) && e1 == e
       else
         && r == Ev.Done(EOK) && Ev.Walked(e.(events := Joined(e.events, req)), 0, e1)
         && (e.l.k.lists[WaitQ(e.wid)] == [] ==> e1.events == Joined(e.events, req))
  }

  lemma NobodyServed(e: Ev.Ev, e1: Ev.Ev)
    requires WaitQ(e.wid) in e.l.k.lists && forall u :: u in Ev.Waiters(e) ==> u in e.want
    requires Ev.Walked(e, 0, e1)
    ensures Ev.Waiters(e) == [] ==> e1.events == e.events
  {
  }

  /** rt_event_control(RT_IPC_CMD_RESET) takes all events away and wakes everybody with an error. */
  lemma EventResetAnswer(e: Ev.Ev)
    requires Ev.EvInv(e)
    ensures WaitQ(e.wid) in e.l.k.lists && Ev.Reset(e).events == 0 && AllWoken(e.l.k, Ev.Reset(e).l.k, e.wid)
  {
    hide Inv, CallOk, AllWoken, WakeAll;
    WakeAllOk(e.l, e.wid);
    hide Ok;
  }

  // ---------- mailboxes ----------

  /** The current thread waits on list w for the time given, and remembers what it was doing. */
  ghost predicate MailWaits(m: Mb.Mb, m1: Mb.Mb, w: Wid, value: Mb.Msg, time: int) {
    && Lists(m.l.k) && m.l.k.current in m.l.k.tcbs && WaitQ(w) in m.l.k.lists
    && StartsWaiting(m.l.k, m1.l.k, w, m.order, time) && Entered(m.l, m1.l, w)
    && m1 == m.(l := m1.l, args := m.args[m.l.k.current := Mb.Arg(value, time)])
  }

  /** A waiter of list w, if there is one, was woken. */
  ghost predicate HeadWoken(l: Layer, l1: Layer, w: Wid) {
    && WaitQ(w) in l.k.lists
    && var q := l.k.lists[WaitQ(w)];
       if q == [] then l1 == l
       else q[0] in l.k.tcbs && FirstWoken(l.k, l1.k, w, EOK) && l1.calls == l.calls[q[0] := Call(w, Woke(EOK))] && l1.ours == l.ours
  }

  /** A pass through the loop of rt_mb_send_wait with the given time left: stored if there is room, and a receiver woken;
      refused if it may not wait; else waiting. */
  ghost predicate SendPass(m: Mb.Mb, m1: Mb.Mb, r: Mb.Outcome, value: Mb.Msg, time: int) {
    if m.entry < m.Size() then
      && r == Mb.Done(EOK) && Mb.RingOk(m) && Mb.RingOk(m1) && Mb.Contents(m1) == Mb.Contents(m) + [value]
      && m1.args == m.args && HeadWoken(m.l, m1.l, m.rx)
    else if time == 0 then r == Mb.Done(EFULL) && m1 == m
    else r == Mb.Pending && MailWaits(m, m1, m.tx, value, time)
  }

  ghost predicate RecvPass(m: Mb.Mb, m1: Mb.Mb, r: Mb.Outcome, time: int) {
    if m.entry > 0 then
      && r.Received? && Mb.RingOk(m) && Mb.RingOk(m1) && Mb.Contents(m) == [r.msg] + Mb.Contents(m1)
      && m1.args == m.args && HeadWoken(m.l, m1.l, m.tx)
    else if time == 0 then r == Mb.Done(ETIMEOUT) && m1 == m
    else r == Mb.Pending && MailWaits(m, m1, m.rx, 0, time)
  }

  lemma MailSendPass(m: Mb.Mb, value: Mb.Msg, time: int)
    requires Mb.Shape(m) && (m.entry == m.Size() && time != 0 ==> CanBlock(m.l))
    ensures SendPass(m, Mb.SendLoop(m, value, time).0, Mb.SendLoop(m, value, time).1, value, time)
  {
    hide Inv, CallOk, Mb.RingOk, Mb.Contents, StartsWaiting, Begin, WakeOne, FirstWoken, Mb.Store;
    if m.entry == m.Size() {
      if time != 0 { MailSuspends(m, m.tx, value, time); }
    } else {
      Mb.StoreShape(m, value);
      Mb.StoreAppends(m, value);
      MailWakes(Mb.Store(m, value), m.rx);
      StoreRest(m, value);
    }
    hide Ok;
  }

  lemma StoreRest(m: Mb.Mb, value: Mb.Msg)
    requires Mb.RingOk(m) && m.entry < m.Size()
    ensures Mb.Store(m, value).args == m.args
  {
  }

  lemma FetchRest(m: Mb.Mb)
    requires Mb.RingOk(m) && 0 < m.entry
    ensures Mb.Fetch(m).args == m.args
  {
  }

  lemma MailRecvPass(m: Mb.Mb, time: int)
    requires Mb.Shape(m) && (m.entry == 0 && time != 0 ==> CanBlock(m.l))
    ensures RecvPass(m, Mb.RecvLoop(m, time).0, Mb.RecvLoop(m, time).1, time)
  {
    hide Inv, CallOk, Mb.RingOk, Mb.Contents, StartsWaiting, Begin, WakeOne, FirstWoken, Mb.Fetch;
    if m.entry == 0 {
      if time != 0 { MailSuspends(m, m.rx, 0, time); }
    } else {
      Mb.FetchShape(m);
      Mb.FetchTakesFirst(m);
      MailWakes(Mb.Fetch(m), m.tx);
      FetchRest(m);
    }
    hide Ok;
  }

  lemma MailSuspends(m: Mb.Mb, w: Wid, value: Mb.Msg, time: int)
    requires Ok(m.l) && w in m.l.ours && CanBlock(m.l) && time != 0
    ensures MailWaits(m, Mb.Suspend1(m, w, Mb.Arg(value, time)), w, value, time)
  {
    hide Inv, CallOk, StartsWaiting, Begin;
    InvCurrent(m.l.k);
    BeginsWaiting(m.l, w, m.order, time);
    hide Ok;
  }

  lemma MailWakes(m: Mb.Mb, w: Wid)
    requires Mb.Shape(m) && w in m.l.ours
    ensures var m1 := Mb.WakeHead(m, w);
      HeadWoken(m.l, m1.l, w) && m1 == m.(l := m1.l) && Mb.RingOk(m1) && Mb.Contents(m1) == Mb.Contents(m)
  {
    hide Inv, CallOk, FirstWoken, WakeOne, Mb.RingOk, Mb.Contents;
    if m.l.k.lists[WaitQ(w)] != [] { WakesFirst(m.l, w); }
    Mb.SameRing(m, Mb.WakeHead(m, w));
    hide Ok;
  }

  /** A sender that is back from rt_schedule gives up with the error its wait ended with, or makes another pass with the
      time that is left of what it was given. */
  lemma MailSendAgain(m: Mb.Mb, elapsed: nat, left: int)
    requires Mb.MbInv(m) && Back(m.l) && m.l.calls[m.l.k.current].wid == m.tx
    requires m.l.k.current in m.args ==> TimeLeft(m.args[m.l.k.current].timeout, elapsed, left)
    ensures var (m1, r) := Mb.SendAgain(m, elapsed); var mid, c := Mb.Resumed(m), m.l.k.current;
      && c in m.args && c in m.l.k.tcbs && CameBack(m.l, mid.l, m.l.k.tcbs[c].error) && mid == m.(l := mid.l, args := m.args - {c})
      && if m.l.k.tcbs[c].error != EOK then r == Mb.Done(m.l.k.tcbs[c].error) && m1 == mid
         else SendPass(mid, m1, r, m.args[c].value, left)
  {
    hide Ok, Mb.RingOk, Mb.Contents, Mb.SendLoop, SendPass;
    Mb.ResumedShape(m);
    BackAnswer(m.l);
    RemainingLeft(m.args[m.l.k.current].timeout, elapsed);
    if m.l.k.tcbs[m.l.k.current].error == EOK { MailSendPass(Mb.Resumed(m), m.args[m.l.k.current].value, left); }
  }

  /** So does a receiver; when its time is up and there is still nothing, thread->error says so. */
  lemma MailRecvAgain(m: Mb.Mb, elapsed: nat, left: int)
    requires Mb.MbInv(m) && Back(m.l) && m.l.calls[m.l.k.current].wid == m.rx
    requires m.l.k.current in m.args ==> TimeLeft(m.args[m.l.k.current].timeout, elapsed, left)
    ensures var (m1, r) := Mb.RecvAgain(m, elapsed); var mid, c := Mb.Resumed(m), m.l.k.current;
      && c in m.args && c in m.l.k.tcbs && CameBack(m.l, mid.l, m.l.k.tcbs[c].error) && mid == m.(l := mid.l, args := m.args - {c})
      && if m.l.k.tcbs[c].error != EOK then r == Mb.Done(m.l.k.tcbs[c].error) && m1 == mid
         else if mid.entry == 0 && left == 0 then
           r == Mb.Done(ETIMEOUT) && m1 == mid.(l := m1.l) && OnlyError(mid.l, m1.l, ETIMEOUT)
         else RecvPass(mid, m1, r, left)
  {
    hide Ok, Mb.RingOk, Mb.Contents, Mb.RecvLoop, RecvPass;
    Mb.ResumedShape(m);
    BackAnswer(m.l);
    RemainingLeft(m.args[m.l.k.current].timeout, elapsed);
    if m.l.k.tcbs[m.l.k.current].error == EOK && !(m.entry == 0 && left == 0) { MailRecvPass(Mb.Resumed(m), left); }
  }

  /** rt_mb_control(RT_IPC_CMD_RESET) empties the ring and wakes everybody, receivers and senders, with an error. */
  lemma MailResetAnswer(m: Mb.Mb)
    requires Mb.MbInv(m)
    ensures var m1, mid := Mb.Reset(m), WakeAll(m.l, m.rx);
      && WaitQ(m.rx) in m.l.k.lists && AllWoken(m.l.k, mid.k, m.rx) && WaitQ(m.tx) in mid.k.lists && AllWoken(mid.k, m1.l.k, m.tx)
      && Mb.RingOk(m1) && Mb.Contents(m1) == []
  {
    hide Inv, CallOk, AllWoken, ResumeAll;
    WakeAllOk(m.l, m.rx);
    WakeAllOk(WakeAll(m.l, m.rx), m.tx);
    hide Ok;
  }

  // ---------- message queues ----------

  /** The last region of rt_mq_send and rt_mq_urgent wakes the first receiver, if there is one. */
  lemma QueueSendAnswer(m: Mq.Mq, h: N.Holder)
    requires Mq.MqInv(m) && h in m.s.flight && m.s.flight[h].Filled?
    ensures Mq.SendLink(m, h).1 == Mq.Done(EOK) && HeadWoken(m.l, Mq.SendLink(m, h).0.l, m.rx)
  {
    hide Inv, CallOk, FirstWoken, WakeOne, N.NodesInv, N.LinkFirst, N.LinkLast;
    if m.l.k.lists[WaitQ(m.rx)] != [] { WakesFirst(m.l, m.rx); }
    hide Ok;
  }

  /** A pass through the loop of rt_mq_recv with the given time left. */
  ghost predicate QueuePass(m: Mq.Mq, m1: Mq.Mq, r: Mq.Outcome, h: N.Holder, size: nat, time: int) {
    if m.s.items != [] then r == Mq.InFlight && Mq.TakenFrom(m, h, r, m1) && m1.l == m.l && m1.args == m.args
    else if time == 0 then r == Mq.Done(ETIMEOUT) && m1 == m
    else
      && r == Mq.Pending && Lists(m.l.k) && m.l.k.current in m.l.k.tcbs && WaitQ(m.rx) in m.l.k.lists
      && StartsWaiting(m.l.k, m1.l.k, m.rx, m.order, time) && Entered(m.l, m1.l, m.rx)
      && m1 == m.(l := m1.l, args := m.args[m.l.k.current := Mq.Arg(size, time)])
  }

  lemma QueueRecvPass(m: Mq.Mq, h: N.Holder, size: nat, time: int)
    requires Mq.Shape(m) && h !in m.s.flight && (m.s.entry == 0 && time != 0 ==> CanBlock(m.l))
    ensures QueuePass(m, Mq.RecvLoop(m, h, size, time).0, Mq.RecvLoop(m, h, size, time).1, h, size, time)
  {
    hide Inv, CallOk, StartsWaiting, Begin, N.NodesInv, N.TakeHead;
    EntryItems(m.s);
    if m.s.entry != 0 {
      QueueTakes(m.s, h, size);
    } else if time != 0 {
      InvCurrent(m.l.k);
      BeginsWaiting(m.l, m.rx, m.order, time);
    }
    hide Ok;
  }

  lemma QueueTakes(s: N.Nodes, h: N.Holder, size: nat)
    requires N.NodesInv(s) && s.head.At? && h !in s.flight
    ensures var s1 := N.TakeHead(s, h, size); h in s1.flight && s.items == [s1.flight[h].msg] + s1.items
  {
    N.TakeHeadOk(s, h, size);
    N.HeadFacts(s);
  }

  lemma EntryItems(s: N.Nodes)
    requires N.NodesInv(s)
    ensures s.entry == 0 <==> s.items == []
    ensures s.entry != 0 ==> s.head.At?
  {
    N.HeadFacts(s);
  }

  lemma QueueRecvAgain(m: Mq.Mq, h: N.Holder, elapsed: nat, left: int)
    requires Mq.MqInv(m) && Back(m.l) && h !in m.s.flight
    requires m.l.k.current in m.args ==> TimeLeft(m.args[m.l.k.current].timeout, elapsed, left)
    ensures var (m1, r) := Mq.RecvAgain(m, h, elapsed); var mid, c := Mq.Resumed(m), m.l.k.current;
      && c in m.args && c in m.l.k.tcbs && CameBack(m.l, mid.l, m.l.k.tcbs[c].error) && mid == m.(l := mid.l, args := m.args - {c})
      && if m.l.k.tcbs[c].error != EOK then r == Mq.Done(m.l.k.tcbs[c].error) && m1 == mid
         else if mid.s.items == [] && left == 0 then
           r == Mq.Done(ETIMEOUT) && m1 == mid.(l := m1.l) && OnlyError(mid.l, m1.l, ETIMEOUT)
         else QueuePass(mid, m1, r, h, m.args[c].size, left)
  {
    hide Ok, N.NodesInv, Mq.RecvLoop, QueuePass;
    Mq.ResumedShape(m);
    EntryItems(m.s);
    BackAnswer(m.l);
    RemainingLeft(m.args[m.l.k.current].timeout, elapsed);
    if m.l.k.tcbs[m.l.k.current].error == EOK && !(m.s.entry == 0 && left == 0) {
      QueueRecvPass(Mq.Resumed(m), h, m.args[m.l.k.current].size, left);
    }
  }

  lemma QueueResetAnswer(m: Mq.Mq)
    requires Mq.MqInv(m)
    ensures WaitQ(m.rx) in m.l.k.lists && AllWoken(m.l.k, Mq.Reset(m).l.k, m.rx) && Mq.Reset(m).s.items == []
  {
    hide Inv, CallOk, AllWoken, WakeAll, N.NodesOk;
    WakeAllOk(m.l, m.rx);
    N.ClearOk(m.s);
    hide Ok;
  }

  // ---------- memory pools ----------

  /** A pass through the loop of rt_mp_alloc with the given time left: the first free block, if there is one, which is
      the caller's from now on. */
  ghost predicate PoolPass(m: Mp.Pool, m1: Mp.Pool, r: Mp.Outcome, time: int, inThread: bool) {
    if m.idle != [] then
      && r == Mp.Block(m.idle[0]) && m1.idle == m.idle[1..] && m1.blockFreeCount == m.blockFreeCount - 1
      && m.idle[0] < |m1.header| && m1.header[m.idle[0]].Owner? && m1.l == m.l && m1.args == m.args
    else if time == 0 then
      && r == Mp.Done(ETIMEOUT) && m1 == m.(l := m1.l)
      && if inThread then OnlyError(m.l, m1.l, ETIMEOUT) else m1.l == m.l
    else
      && r == Mp.Pending && Lists(m.l.k) && m.l.k.current in m.l.k.tcbs && WaitQ(m.wid) in m.l.k.lists
      && StartsWaiting(m.l.k, m1.l.k, m.wid, Lifo, time) && Entered(m.l, m1.l, m.wid)
      && m1 == m.(l := m1.l, args := m.args[m.l.k.current := time], suspendCount := m.suspendCount + 1)
  }

  lemma PoolAllocPass(m: Mp.Pool, time: int, inThread: bool)
    requires Mp.Shape(m) && (m.blockFreeCount == 0 && inThread ==> CanBlock(m.l))
    requires m.blockFreeCount == 0 && time != 0 ==> inThread
    ensures PoolPass(m, Mp.AllocLoop(m, time, inThread).0, Mp.AllocLoop(m, time, inThread).1, time, inThread)
  {
    hide Inv, CallOk, StartsWaiting, Begin, Mp.Chain;
    if m.blockFreeCount == 0 {
      if time != 0 {
        InvCurrent(m.l.k);
        BeginsWaiting(m.l, m.wid, Lifo, time);
      }
    } else {
      Mp.TakeBlock(m.header, m.blockList, m.blockFreeCount, m.idle);
    }
    hide Ok, Mp.BlocksOk;
  }

  lemma PoolAllocAgain(m: Mp.Pool, elapsed: nat, left: int)
    requires Mp.PoolInv(m) && Back(m.l)
    requires m.l.k.current in m.args ==> TimeLeft(m.args[m.l.k.current], elapsed, left)
    ensures var (m1, r) := Mp.AllocAgain(m, elapsed); var mid, c := Mp.Resumed(m), m.l.k.current;
      && c in m.args && c in m.l.k.tcbs && CameBack(m.l, mid.l, m.l.k.tcbs[c].error) && mid == m.(l := mid.l, args := m.args - {c})
      && if m.l.k.tcbs[c].error != EOK then r == Mp.Done(m.l.k.tcbs[c].error) && m1 == mid
         else PoolPass(mid, m1, r, left, true)
  {
    hide Ok, Mp.BlocksOk, Mp.AllocLoop, PoolPass;
    Mp.ResumedShape(m);
    BackAnswer(m.l);
    RemainingLeft(m.args[m.l.k.current], elapsed);
    if m.l.k.tcbs[m.l.k.current].error == EOK { PoolAllocPass(Mp.Resumed(m), left, true); }
  }

  /** rt_mp_free puts the block in front of the free ones, and wakes the first waiter if it counts one. */
  lemma PoolFreeAnswer(m: Mp.Pool, b: nat)
    requires Mp.PoolInv(m) && b < |m.header| && m.header[b].Owner? && Mp.FindsWaiter(m)
    ensures var m1 := Mp.Free(m, b);
      && m1.idle == [b] + m.idle && m1.blockFreeCount == m.blockFreeCount + 1 && m1.args == m.args
      && if m.suspendCount > 0 then HeadWoken(m.l, m1.l, m.wid) && m1.suspendCount == m.suspendCount - 1
         else m1.l == m.l && m1.suspendCount == m.suspendCount
  {
    hide Inv, CallOk, FirstWoken, WakeOne, Mp.BlocksOk;
    if m.suspendCount > 0 { WakesFirst(m.l, m.wid); }
    hide Ok;
  }
}
