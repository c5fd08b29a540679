/** What the blocking calls of rt-thread/src/ipc.c and rt-thread/src/mempool.c answer, and when they make their caller
    wait: the answer in terms of the object before the call, and the timeout given. */
module WaitAnswers {
  import opened Seqs
  import opened KernelSpec
  import opened Waiting

  /** Is place i of wait list l right for a thread of priority p: last, in front of the first less urgent waiter, or
      first? */
  ghost predicate RightPlace(tcbs: map<Tid, Tcb>, l: seq<Tid>, i: nat, p: nat, order: Order)
    requires forall u :: u in l ==> u in tcbs
  {
    && i <= |l|
    && match order
       case Fifo => i == |l|
       case Prio => (forall j :: 0 <= j < i ==> tcbs[l[j]].prio <= p) && (i < |l| ==> p < tcbs[l[i]].prio)
       case Lifo => i == 0
  }

  /** The list after t has come in at place i. */
  ghost predicate CameIn(tcbs: map<Tid, Tcb>, l: seq<Tid>, l1: seq<Tid>, t: Tid, p: nat, order: Order)
    requires forall u :: u in l ==> u in tcbs
  {
    exists i: nat :: RightPlace(tcbs, l, i, p, order) && l1 == l[..i] + [t] + l[i..]
  }

  /** The current thread waits on list w from now on, suspended, for time ticks if that is positive and else for as long
      as it takes: its timer runs iff the time is limited. No other thread and no other wait list has changed. */
  ghost predicate StartsWaiting(k: State, k1: State, w: Wid, order: Order, time: int)
    requires Lists(k) && k.current in k.tcbs && WaitQ(w) in k.lists
  {
    var t := k.current;
    && time != 0 && k1.current == t && k1.lists.Keys == k.lists.Keys
    && t in k1.tcbs && k1.tcbs[t].stat == Suspend && k1.tcbs[t].error == EOK && (k1.tcbs[t].timerOn <==> time > 0)
    && k1.tcbs[t].prio == k.tcbs[t].prio && k1.tcbs[t].eventSet == k.tcbs[t].eventSet && k1.tcbs[t].eventInfo == k.tcbs[t].eventInfo
    && k1.tcbs.Keys == k.tcbs.Keys && (forall u :: u in k.tcbs && u != t ==> k1.tcbs[u] == k.tcbs[u])
    && CameIn(k.tcbs, k.lists[WaitQ(w)], k1.lists[WaitQ(w)], t, k.tcbs[t].prio, order)
    && forall v :: WaitQ(v) in k.lists && v != w ==> k1.lists[WaitQ(v)] == k.lists[WaitQ(v)]
  }

  /** The first waiter of list w waits no longer: it is READY, or RUNNING if it is the current thread, with the given
      error and its timer stopped. The others wait on in their order, and no other thread has changed. */
  ghost predicate FirstWoken(k: State, k1: State, w: Wid, e: Err)
    requires WaitQ(w) in k.lists && k.lists[WaitQ(w)] != [] && k.lists[WaitQ(w)][0] in k.tcbs
  {
    var t := k.lists[WaitQ(w)][0];
    && k1.current == k.current && k1.lists.Keys == k.lists.Keys && k1.lists[WaitQ(w)] == k.lists[WaitQ(w)][1..]
    && k1.tcbs.Keys == k.tcbs.Keys && (forall u :: u in k.tcbs && u != t ==> k1.tcbs[u] == k.tcbs[u])
    && k1.tcbs[t] == k.tcbs[t].(error := e, timerOn := false, stat := if t == k.current then Running else Ready)
    && forall v :: WaitQ(v) in k.lists && v != w ==> k1.lists[WaitQ(v)] == Without(k.lists[WaitQ(v)], t)
  }

  /** Nothing in the kernel has changed but thread->error of the current thread, which is e. */
  ghost predicate OnlyError(l: Layer, l1: Layer, e: Err) {
    var c := l.k.current;
    && c in l.k.tcbs && c in l1.k.tcbs && l1.k.tcbs[c].error == e
    && l1 == l.(k := l.k.(tcbs := l.k.tcbs[c := l.k.tcbs[c].(error := l1.k.tcbs[c].error)]))
  }

  /** The place the list helpers insert at is the right one. */
  lemma PositionRight(tcbs: map<Tid, Tcb>, l: seq<Tid>, p: nat, order: Order)
    requires forall u :: u in l ==> u in tcbs
    ensures RightPlace(tcbs, l, Position(tcbs, l, p, order), p, order)
  {
  }

  /** The current thread begins a call that has to wait for the given time. */
  lemma BeginsWaiting(l: Layer, w: Wid, order: Order, time: int)
    requires Ok(l) && w in l.ours && CanBlock(l) && time != 0
    ensures Lists(l.k) && StartsWaiting(l.k, Begin(l, w, order, time > 0).k, w, order, time)
    ensures Begin(l, w, order, time > 0).calls == l.calls[l.k.current := Call(w, Waits)] && Begin(l, w, order, time > 0).ours == l.ours
  {
    hide Inv, CallOk, CameIn, Blocked, StartsWaiting, Block;
    BeginOk(l, w, order, time > 0);
    InvCurrent(l.k);
    PlaceCameIn(l, Begin(l, w, order, time > 0).k, w, order, time > 0);
    BlockedStarts(l.k, Begin(l, w, order, time > 0).k, w, order, time);
    hide Ok;
  }

  lemma BlockedStarts(k: State, k1: State, w: Wid, order: Order, time: int)
    requires Lists(k) && k.current in k.tcbs && WaitQ(w) in k.lists && Blocked(k, k1, w, order, time > 0) && time != 0
    requires CameIn(k.tcbs, k.lists[WaitQ(w)], k1.lists[WaitQ(w)], k.current, k.tcbs[k.current].prio, order)
    ensures StartsWaiting(k, k1, w, order, time)
  {
    hide CameIn, Lists, Position;
  }

  lemma PlaceCameIn(l: Layer, k1: State, w: Wid, order: Order, timed: bool)
    requires l.k.current in l.k.tcbs && WaitQ(w) in l.k.lists && Lists(l.k) && Blocked(l.k, k1, w, order, timed)
    ensures CameIn(l.k.tcbs, l.k.lists[WaitQ(w)], k1.lists[WaitQ(w)], l.k.current, l.k.tcbs[l.k.current].prio, order)
  {
    hide RightPlace;
    PositionRight(l.k.tcbs, l.k.lists[WaitQ(w)], l.k.tcbs[l.k.current].prio, order);
  }

  /** The first waiter of one of our lists is resumed. */
  lemma WakesFirst(l: Layer, w: Wid)
    requires Ok(l) && w in l.ours && l.k.lists[WaitQ(w)] != []
    ensures var t := l.k.lists[WaitQ(w)][0]; var l1 := WakeOne(l, w, t);
      t in l.k.tcbs && FirstWoken(l.k, l1.k, w, EOK) && l1.calls == l.calls[t := Call(w, Woke(EOK))] && l1.ours == l.ours
  {
    hide Inv, CallOk, Placed, Priorities, BitmapExact;
    var t := l.k.lists[WaitQ(w)][0];
    InvCurrent(l.k);
    WakeOneOk(l, w, t);
    WithoutFirst(l.k.lists[WaitQ(w)]);
    hide Ok;
  }

  // ---------- time ----------

  /** What is left of a timeout: all of it if it is zero or unlimited; else the elapsed ticks are taken off, down to
      nothing. */
  ghost predicate TimeLeft(timeout: int, elapsed: nat, left: int) {
    if timeout <= 0 then left == timeout else left == if elapsed < timeout then timeout - elapsed else 0
  }

  lemma RemainingLeft(timeout: int, elapsed: nat)
    ensures TimeLeft(timeout, elapsed, Remaining(timeout, elapsed))
  {
  }

  /** Passes through the loop of a call add up: a call waits as long as it was given to wait, however often it is woken
      in between. */
  lemma PassesAddUp(timeout: int, first: nat, second: nat, left: int, last: int)
    requires TimeLeft(timeout, first, left) && TimeLeft(left, second, last)
    ensures TimeLeft(timeout, first + second, last)
  {
  }
}
