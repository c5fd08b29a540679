/** Event sets: rt_event_send, rt_event_recv, rt_event_control (rt-thread/src/ipc.c). */
module Event {
  import opened Seqs
  import opened KernelSpec
  import opened KernelRuns
  import opened Waiting
  import opened KernelObject

  datatype Outcome = Done(error: Err) | Received(bits: bv32) | Pending

  /** What a thread asks for: a set of events and how it wants them. */
  datatype Want = Want(bits: bv32, info: EventInfo)

  datatype Ev = Ev(l: Layer, wid: Wid, order: Order, events: bv32, want: map<Tid, Want>)

  ghost function Waiters(e: Ev): seq<Tid>
    requires WaitQ(e.wid) in e.l.k.lists
  {
    e.l.k.lists[WaitQ(e.wid)]
  }

  predicate ValidWant(w: Want) { w.bits != 0 && (w.info.all || w.info.any) }

  function And(a: bv32, b: bv32): bv32 { a & b }

  function Minus(a: bv32, b: bv32): bv32 { a & !b }

  function Or(a: bv32, b: bv32): bv32 { a | b }

  /** RT_EVENT_FLAG_AND wins over RT_EVENT_FLAG_OR. */
  predicate Satisfied(now: bv32, w: Want) {
    if w.info.all then And(now, w.bits) == w.bits else w.info.any && And(now, w.bits) != 0
  }

  /** What an immediate receive returns, and what it leaves in the event. */
  function Answer(now: bv32, w: Want): bv32 { And(now, w.bits) }

  function Remaining(now: bv32, w: Want): bv32 { if w.info.clear then Minus(now, w.bits) else now }

  /** A thread's call and its record agree: a waiting thread's request is in its record; a thread that was woken
      with events has them there, and they answer its request. */
  ghost predicate Linked(e: Ev, t: Tid)
    requires t in e.l.calls
  {
    && t in e.l.k.tcbs && t in e.want && ValidWant(e.want[t])
    && var c, w := e.l.k.tcbs[t], e.want[t];
    && match e.l.calls[t].phase
       case Waits => c.eventSet == w.bits && c.eventInfo == w.info
       case Woke(EOK) => Answers(c.eventSet, w)
       case _ => true
  }

  /** All the events asked for, or some of them. */
  predicate Answers(bits: bv32, w: Want) {
    if w.info.all then bits == w.bits else bits != 0 && And(bits, w.bits) == bits
  }

  ghost predicate LinkInv(e: Ev) {
    && Ok(e.l) && e.l.ours == {e.wid} && WaitQ(e.wid) in e.l.k.lists
    && forall t :: t in e.l.calls ==> Linked(e, t)
  }

  /** No waiting thread's condition is satisfied. */
  ghost predicate EvInv(e: Ev) {
    LinkInv(e) && forall t :: t in e.l.calls && e.l.calls[t].phase.Waits? ==> !Satisfied(e.events, e.want[t])
  }

  // ---------- the critical regions ----------

  /** thread->event_set and thread->event_info. */
  ghost function SetEvents(l: Layer, t: Tid, req: bv32, info: EventInfo): Layer
    requires t in l.k.tcbs
  {
    l.(k := SetTcb(l.k, t, l.k.tcbs[t].(eventSet := req, eventInfo := info)))
  }

  lemma SetEventsOk(l: Layer, t: Tid, req: bv32, info: EventInfo)
    requires Ok(l) && t in l.k.tcbs
    ensures Ok(SetEvents(l, t, req, info))
  {
    hide Inv;
    var l1, c := SetEvents(l, t, req, info), l.k.tcbs[t].(eventSet := req, eventInfo := info);
    SetEventsInv(l.k, t, c);
    forall u | u in l1.calls ensures CallOk(l1, u) { assert CallOk(l, u); }
  }

  lemma SetEventsInv(k: State, t: Tid, c: Tcb)
    requires Inv(k) && t in k.tcbs && c == k.tcbs[t].(eventSet := c.eventSet, eventInfo := c.eventInfo)
    ensures Inv(SetTcb(k, t, c))
  {
    assert Placed(k, t);
    SetTcbInv(k, t, c);
  }

  ghost function Recv(e: Ev, req: bv32, info: EventInfo, timeout: int): (Ev, Outcome)
    requires EvInv(e) && CanBlock(e.l) && (req != 0 ==> info.all || info.any)
  {
    if req == 0 then (e, Done(ERROR))
    else
      WithErrorOk(e.l, EOK);
      var c, w, e1 := e.l.k.current, Want(req, info), e.(l := WithError(e.l, EOK));
      if Satisfied(e.events, w) then (e1.(events := Remaining(e.events, w)), Received(Answer(e.events, w)))
      else if timeout == 0 then (e1.(l := WithError(e1.l, ETIMEOUT)), Done(ETIMEOUT))
      else
        SetEventsOk(e1.l, c, req, info);
        (e1.(l := Begin(SetEvents(e1.l, c, req, info), e.wid, e.order, timeout > 0), want := e.want[c := w]), Pending)
  }

  /** The rest of rt_event_recv once the suspended thread runs again. */
  ghost function Finish(e: Ev): (Ev, Outcome)
    requires EvInv(e) && Back(e.l)
  {
    var c := e.l.k.current;
    (e.(l := Leave(e.l)), if e.l.k.tcbs[c].error == EOK then Received(e.l.k.tcbs[c].eventSet) else Done(e.l.k.tcbs[c].error))
  }

  /** What rt_event_send leaves in event_set of a thread whose condition is satisfied, and in the event. */
  function Catch(c: Tcb, now: bv32): bv32 { if c.eventInfo.all then c.eventSet else And(c.eventSet, now) }

  function After(c: Tcb, now: bv32): bv32 { if c.eventInfo.clear then Minus(now, Catch(c, now)) else now }

  /** The thread at position i of the wait list in rt_event_send's walk, when its condition is satisfied. */
  ghost function Grant(e: Ev, t: Tid): Ev
    requires Ok(e.l) && e.wid in e.l.ours && t in Waiters(e)
  {
    WaiterInv(e.l.k, e.wid, t);
    var c := e.l.k.tcbs[t];
    var bits := Catch(c, e.events);
    SetEventsOk(e.l, t, bits, c.eventInfo);
    var l1 := SetEvents(e.l, t, bits, c.eventInfo);
    e.(events := After(c, e.events), l := WakeOne(l1, e.wid, t))
  }

  /** rt_event_send's walk from position i of the wait list. */
  ghost function Walk(e: Ev, i: nat): Ev
    requires Ok(e.l) && e.wid in e.l.ours && i <= |Waiters(e)|
    decreases |Waiters(e)| - i
  {
    if i == |Waiters(e)| then e
    else
      var t := Waiters(e)[i];
      WaiterInv(e.l.k, e.wid, t);
      if Satisfied(e.events, Want(e.l.k.tcbs[t].eventSet, e.l.k.tcbs[t].eventInfo)) then
        GrantOk(e, i);
        Walk(Grant(e, t), i)
      else Walk(e, i + 1)
  }

  /** e1 is e after the thread at position i was woken with its events. */
  ghost predicate Granted(e: Ev, e1: Ev, i: nat)
    requires WaitQ(e.wid) in e.l.k.lists && i < |Waiters(e)|
  {
    var t, k, k1 := Waiters(e)[i], e.l.k, e1.l.k;
    && e1.wid == e.wid && e1.order == e.order && e1.want == e.want && e1.l.ours == e.l.ours
    && e1.l.calls == e.l.calls[t := Call(e.wid, Woke(EOK))]
    && k1.current == k.current && WaitQ(e.wid) in k1.lists
    && Waiters(e1) == Waiters(e)[..i] + Waiters(e)[i + 1..]
    && t in k.tcbs && k1.tcbs.Keys == k.tcbs.Keys
    && (forall u :: u in k.tcbs && u != t ==> k1.tcbs[u] == k.tcbs[u])
    && k1.tcbs[t].eventInfo == k.tcbs[t].eventInfo
    && k1.tcbs[t].eventSet == Catch(k.tcbs[t], e.events)
    && e1.events == After(k.tcbs[t], e.events)
  }

  lemma GrantOk(e: Ev, i: nat)
    requires Ok(e.l) && e.wid in e.l.ours && i < |Waiters(e)|
    ensures var t := Waiters(e)[i];
      Ok(Grant(e, t).l) && Granted(e, Grant(e, t), i) && t in e.l.calls && e.l.calls[t] == Call(e.wid, Waits)
  {
    hide Inv, CallOk, Granted, Catch, After;
    var t := Waiters(e)[i];
    WaiterInv(e.l.k, e.wid, t);
    var c := e.l.k.tcbs[t];
    SetEventsOk(e.l, t, Catch(c, e.events), c.eventInfo);
    WakeOneOk(SetEvents(e.l, t, Catch(c, e.events), c.eventInfo), e.wid, t);
    NoDupWaiters(e);
    hide Ok;
    GrantEffect(e, SetEvents(e.l, t, Catch(c, e.events), c.eventInfo), Grant(e, t), i, t);
  }

  lemma GrantEffect(e: Ev, l1: Layer, e1: Ev, i: nat, t: Tid)
    requires WaitQ(e.wid) in e.l.k.lists && i < |Waiters(e)| && NoDup(Waiters(e)) && Waiters(e)[i] == t && t in e.l.k.tcbs
    requires l1 == SetEvents(e.l, t, Catch(e.l.k.tcbs[t], e.events), e.l.k.tcbs[t].eventInfo)
    requires Woken(l1.k, e1.l.k, t, EOK)
    requires e1 == e.(events := e1.events, l := e1.l) && e1.l.ours == e.l.ours
    requires e1.l.calls == e.l.calls[t := Call(e.wid, Woke(EOK))]
    requires e1.events == After(e.l.k.tcbs[t], e.events)
    ensures Granted(e, e1, i)
  {
    hide Catch, After, Without, NoDup;
    WithoutAt(Waiters(e), i);
  }

  lemma NoDupWaiters(e: Ev)
    requires Ok(e.l) && e.wid in e.l.ours
    ensures NoDup(Waiters(e))
  {
  }

  ghost function Send(e: Ev, req: bv32): (Ev, Outcome)
    requires EvInv(e)
  {
    if req == 0 then (e, Done(ERROR)) else (Walk(e.(events := Or(e.events, req)), 0), Done(EOK))
  }

  ghost function Reset(e: Ev): Ev
    requires EvInv(e)
  {
    e.(l := WakeAll(e.l, e.wid), events := 0)
  }

  ghost function Elsewhere(e: Ev, x: Step): Ev
    requires EvInv(e) && Foreign(e.l, x)
  {
    e.(l := Other(e.l, x))
  }

  // ---------- a wake-up is an immediate receive ----------

  /** What waking a satisfied thread gives it, and leaves, is what receiving there and then would. */
  lemma CatchIsAnswer(c: Tcb, now: bv32, w: Want)
    requires c.eventSet == w.bits && c.eventInfo == w.info && Satisfied(now, w)
    ensures Catch(c, now) == Answer(now, w) && After(c, now) == Remaining(now, w)
    ensures ValidWant(w) ==> Answers(Answer(now, w), w)
  {
    hide And, Minus;
    Masking(now, w.bits);
  }

  lemma Masking(a: bv32, b: bv32)
    ensures And(b, a) == And(a, b) && And(And(a, b), b) == And(a, b)
    ensures Minus(a, And(a, b)) == Minus(a, b)
  {
  }

  /** Taking events away satisfies nobody. */
  lemma FewerEvents(now: bv32, less: bv32, w: Want)
    requires !Satisfied(now, w)
    ensures !Satisfied(Minus(now, less), w)
  {
    hide And, Minus;
    FewerAll(now, w.bits, less);
    FewerAny(now, w.bits, less);
  }

  lemma FewerAll(a: bv32, b: bv32, x: bv32)
    ensures And(Minus(a, x), b) == b ==> And(a, b) == b
  {
  }

  lemma FewerAny(a: bv32, b: bv32, x: bv32)
    ensures And(a, b) == 0 ==> And(Minus(a, x), b) == 0
  {
  }

  datatype Served = Served(events: bv32, left: seq<Tid>, got: map<Tid, bv32>)

  /** The threads of a list, one after the other, each receiving immediately if it can. */
  ghost function Serve(now: bv32, q: seq<Tid>, want: map<Tid, Want>): Served
    requires forall u :: u in q ==> u in want
    decreases |q|
  {
    if q == [] then Served(now, [], map[])
    else
      var t, w := q[0], want[q[0]];
      if Satisfied(now, w) then
        var r := Serve(Remaining(now, w), q[1..], want);
        r.(got := r.got[t := Answer(now, w)])
      else
        var r := Serve(now, q[1..], want);
        r.(left := [t] + r.left)
  }

  lemma ServeKeys(now: bv32, q: seq<Tid>, want: map<Tid, Want>)
    requires forall u :: u in q ==> u in want
    ensures forall u :: u in Serve(now, q, want).got ==> u in q
    ensures forall u :: u in Serve(now, q, want).left ==> u in q
    decreases |q|
  {
    hide Satisfied, Remaining, Answer;
    if q != [] {
      ServeKeys(Remaining(now, want[q[0]]), q[1..], want);
      ServeKeys(now, q[1..], want);
    }
  }

  ghost predicate Walkable(e: Ev, i: nat) {
    && LinkInv(e) && i <= |Waiters(e)|
    && forall j :: 0 <= j < i ==> Waiters(e)[j] in e.want && !Satisfied(e.events, e.want[Waiters(e)[j]])
  }

  lemma WaiterLinked(e: Ev, t: Tid)
    requires LinkInv(e) && t in Waiters(e)
    ensures t in e.l.calls && e.l.calls[t] == Call(e.wid, Waits) && Linked(e, t) && t in e.l.k.tcbs
  {
    hide Inv, CallOk;
  }

  lemma GrantWalkable(e: Ev, i: nat)
    requires Walkable(e, i) && i < |Waiters(e)|
    requires var t := Waiters(e)[i]; t in e.want && t in e.l.calls && Linked(e, t) && Satisfied(e.events, e.want[t])
    ensures Walkable(Grant(e, Waiters(e)[i]), i)
  {
    hide Inv, CallOk, Satisfied, Catch, After, Answer, Answers, Remaining, Grant;
    var t := Waiters(e)[i];
    GrantOk(e, i);
    hide Ok;
    var e1 := Grant(e, t);
    CatchIsAnswer(e.l.k.tcbs[t], e.events, e.want[t]);
    forall u | u in e1.l.calls ensures Linked(e1, u) { assert u in e.l.calls && Linked(e, u); }
    hide Linked;
    forall j | 0 <= j < i ensures Waiters(e1)[j] in e1.want && !Satisfied(e1.events, e1.want[Waiters(e1)[j]]) {
      assert Waiters(e1)[j] == Waiters(e)[j];
      AfterIsFewer(e.l.k.tcbs[t], e.events, e.want[Waiters(e)[j]]);
    }
  }

  lemma AfterIsFewer(c: Tcb, now: bv32, w: Want)
    requires !Satisfied(now, w)
    ensures !Satisfied(After(c, now), w)
  {
    FewerEvents(now, Catch(c, now), w);
    hide Satisfied, Catch;
  }

  /** Everything about rt_event_send's walk from position i: what it leaves in the event, who goes on waiting and
      in which order, and what each woken thread finds in its record, are as if the threads of the rest of the
      list had received one after the other. */
  ghost predicate Walked(e: Ev, i: nat, e1: Ev)
    requires WaitQ(e.wid) in e.l.k.lists && i <= |Waiters(e)| && forall u :: u in Waiters(e) ==> u in e.want
  {
    var r := Serve(e.events, Waiters(e)[i..], e.want);
    && e1.want == e.want && e1.wid == e.wid && WaitQ(e1.wid) in e1.l.k.lists
    && e1.events == r.events && Waiters(e1) == Waiters(e)[..i] + r.left
    && e1.l.calls.Keys == e.l.calls.Keys && e1.l.k.tcbs.Keys == e.l.k.tcbs.Keys
    && (forall u :: u in r.got ==> u in e1.l.calls && e1.l.calls[u] == Call(e.wid, Woke(EOK))
                                   && u in e1.l.k.tcbs && e1.l.k.tcbs[u].eventSet == r.got[u])
    && (forall u :: u in e.l.calls && u !in r.got ==> e1.l.calls[u] == e.l.calls[u])
    && (forall u :: u in e.l.k.tcbs && u !in r.got ==> e1.l.k.tcbs[u] == e.l.k.tcbs[u])
  }

  lemma WalkServes(e: Ev, i: nat)
    requires Walkable(e, i)
    ensures (forall u :: u in Waiters(e) ==> u in e.want) && Walked(e, i, Walk(e, i)) && EvInv(Walk(e, i))
    decreases |Waiters(e)| - i
  {
    hide Inv, CallOk, Satisfied, Catch, After, Answer, Remaining, Linked, Walked, Grant;
    forall u | u in Waiters(e) ensures u in e.want { WaiterLinked(e, u); assert u in e.want by { LinkedWant(e, u); } }
    if i == |Waiters(e)| {
      WalkEnds(e, i);
    } else {
      var t := Waiters(e)[i];
      WaiterLinked(e, t);
      LinkedWant(e, t);
      if Satisfied(e.events, e.want[t]) {
        GrantWalkable(e, i);
        GrantOk(e, i);
        NoDupWaiters(e);
        WalkServes(Grant(e, t), i);
        WalkedGrant(e, i, Grant(e, t), Walk(e, i));
      } else {
        WalkServes(e, i + 1);
        WalkedSkip(e, i, Walk(e, i));
      }
    }
  }

  lemma LinkedWant(e: Ev, t: Tid)
    requires t in e.l.calls && Linked(e, t)
    ensures t in e.want && t in e.l.k.tcbs
    ensures e.l.calls[t].phase.Waits? ==> Want(e.l.k.tcbs[t].eventSet, e.l.k.tcbs[t].eventInfo) == e.want[t]
  {
  }

  lemma WalkEnds(e: Ev, i: nat)
    requires Walkable(e, i) && i == |Waiters(e)| && forall u :: u in Waiters(e) ==> u in e.want
    ensures Walked(e, i, e) && EvInv(e)
  {
    hide Inv, Satisfied;
    forall t | t in e.l.calls && e.l.calls[t].phase.Waits? ensures !Satisfied(e.events, e.want[t]) {
      assert CallOk(e.l, t);
      assert t in Waiters(e);
    }
    hide CallOk, Linked;
  }

  lemma WalkedSkip(e: Ev, i: nat, e1: Ev)
    requires WaitQ(e.wid) in e.l.k.lists && i < |Waiters(e)| && forall u :: u in Waiters(e) ==> u in e.want
    requires !Satisfied(e.events, e.want[Waiters(e)[i]]) && Walked(e, i + 1, e1)
    ensures Walked(e, i, e1)
  {
    hide Satisfied, Answer, Remaining;
    var l := Waiters(e);
    assert l[i..][1..] == l[i + 1..] && l[..i + 1] == l[..i] + [l[i]];
  }

  lemma WalkedGrant(e: Ev, i: nat, e0: Ev, e1: Ev)
    requires WaitQ(e.wid) in e.l.k.lists && i < |Waiters(e)| && forall u :: u in Waiters(e) ==> u in e.want
    requires NoDup(Waiters(e)) && Granted(e, e0, i) && Waiters(e)[i] in e.l.calls
    requires Linked(e, Waiters(e)[i]) && e.l.calls[Waiters(e)[i]].phase.Waits?
    requires Satisfied(e.events, e.want[Waiters(e)[i]])
    requires Walked(e0, i, e1)
    ensures Walked(e, i, e1)
  {
    hide Satisfied, Answer, Remaining, Catch, After, Answers, Serve, NoDup;
    var l, t := Waiters(e), Waiters(e)[i];
    ServeTaken(e.events, l[i..], e.want);
    CatchIsAnswer(e.l.k.tcbs[t], e.events, e.want[t]);
    assert l[i..][1..] == l[i + 1..] && (l[..i] + l[i + 1..])[i..] == l[i + 1..] && (l[..i] + l[i + 1..])[..i] == l[..i];
    ServeKeys(Remaining(e.events, e.want[t]), l[i + 1..], e.want);
    NotAfter(l, i);
  }

  lemma NotAfter(l: seq<Tid>, i: nat)
    requires NoDup(l) && i < |l|
    ensures l[i] !in l[i + 1..]
  {
  }

  lemma ServeTaken(now: bv32, q: seq<Tid>, want: map<Tid, Want>)
    requires (forall u :: u in q ==> u in want) && q != [] && Satisfied(now, want[q[0]])
    ensures var r := Serve(Remaining(now, want[q[0]]), q[1..], want);
      Serve(now, q, want) == r.(got := r.got[q[0] := Answer(now, want[q[0]])])
  {
    hide Satisfied, Answer, Remaining;
  }

  /** rt_event_send as a whole: as if every waiting thread, in list order, had received immediately. */
  lemma SendServes(e: Ev, req: bv32)
    requires EvInv(e)
    ensures forall u :: u in Waiters(e) ==> u in e.want
    ensures EvInv(Send(e, req).0)
    ensures req != 0 ==> Walked(e.(events := Or(e.events, req)), 0, Send(e, req).0)
    ensures req == 0 ==> Send(e, req) == (e, Done(ERROR))
  {
    hide Ok, Satisfied, Walk, Walked, Or;
    forall u | u in Waiters(e) ensures u in e.want { WaiterLinked(e, u); }
    if req != 0 {
      var e0 := e.(events := Or(e.events, req));
      forall t | t in e0.l.calls ensures Linked(e0, t) { assert Linked(e, t); }
      hide Linked;
      WalkServes(e0, 0);
    }
  }

  // ---------- every step keeps the invariant ----------

  lemma RecvInv(e: Ev, req: bv32, info: EventInfo, timeout: int)
    requires EvInv(e) && CanBlock(e.l) && (req != 0 ==> info.all || info.any)
    ensures EvInv(Recv(e, req, info, timeout).0)
  {
    hide Inv, CallOk, Satisfied, Answer, Answers, And, Minus, Begin;
    if req != 0 {
      ErrorInv(e, EOK);
      var e1 := e.(l := WithError(e.l, EOK));
      var w := Want(req, info);
      if Satisfied(e.events, w) {
        RemainingInv(e1, w);
      } else if timeout == 0 {
        ErrorInv(e1, ETIMEOUT);
      } else {
        RecvBlocks(e1, w, timeout > 0);
      }
    }
  }

  lemma ErrorInv(e: Ev, err: Err)
    requires EvInv(e) && CanBlock(e.l)
    ensures EvInv(e.(l := WithError(e.l, err)))
  {
    hide Satisfied, Inv, CallOk;
    WithErrorOk(e.l, err);
    BackCurrent(e.l);
    hide Ok, CanBlock;
    var e1 := e.(l := WithError(e.l, err));
    forall t | t in e1.l.calls ensures Linked(e1, t) { assert Linked(e, t); }
    hide Linked;
  }

  lemma BackCurrent(l: Layer)
    requires CanBlock(l)
    ensures l.k.current in l.k.tcbs && l.k.current !in l.calls
  {
  }

  lemma RemainingInv(e: Ev, w: Want)
    requires EvInv(e)
    ensures EvInv(e.(events := Remaining(e.events, w)))
  {
    hide Ok, Satisfied, And, Minus;
    var e1 := e.(events := Remaining(e.events, w));
    forall t | t in e1.l.calls ensures Linked(e1, t) { assert Linked(e, t); }
    forall t | t in e1.l.calls && e1.l.calls[t].phase.Waits? ensures !Satisfied(e1.events, e1.want[t]) {
      FewerEvents(e.events, w.bits, e.want[t]);
    }
  }

  lemma RecvBlocks(e: Ev, w: Want, timed: bool)
    requires EvInv(e) && CanBlock(e.l) && ValidWant(w) && !Satisfied(e.events, w)
    ensures Ok(SetEvents(e.l, e.l.k.current, w.bits, w.info))
    ensures var c := e.l.k.current;
      EvInv(e.(l := Begin(SetEvents(e.l, c, w.bits, w.info), e.wid, e.order, timed), want := e.want[c := w]))
  {
    hide Inv, CallOk, Satisfied;
    var c := e.l.k.current;
    SetEventsOk(e.l, c, w.bits, w.info);
    Begun(SetEvents(e.l, c, w.bits, w.info), e.wid, e.order, timed);
    hide Ok, Begin;
    var e1 := e.(l := Begin(SetEvents(e.l, c, w.bits, w.info), e.wid, e.order, timed), want := e.want[c := w]);
    forall t | t in e1.l.calls ensures Linked(e1, t) { if t != c { assert Linked(e, t); } }
    hide Linked;
  }

  lemma FinishInv(e: Ev)
    requires EvInv(e) && Back(e.l)
    ensures EvInv(Finish(e).0)
  {
    hide Inv, CallOk, Satisfied;
    LeaveOk(e.l);
    hide Ok;
    var e1 := Finish(e).0;
    forall t | t in e1.l.calls ensures Linked(e1, t) { assert Linked(e, t); }
    hide Linked;
  }

  /** A blocked receive that returns events returns events that answer its request. */
  lemma FinishAnswers(e: Ev)
    requires EvInv(e) && Back(e.l) && Finish(e).1.Received?
    ensures e.l.k.current in e.want && Answers(Finish(e).1.bits, e.want[e.l.k.current])
  {
    hide Inv, CallOk, Satisfied, Answers;
    LeaveOk(e.l);
    assert Linked(e, e.l.k.current);
  }

  lemma ResetInv(e: Ev)
    requires EvInv(e)
    ensures EvInv(Reset(e))
  {
    hide Inv, Satisfied;
    WakeAllOk(e.l, e.wid);
    var e1 := Reset(e);
    forall t | t in e1.l.calls ensures Linked(e1, t) && !e1.l.calls[t].phase.Waits? { ResetLinked(e, t); }
    hide Ok, Linked;
  }

  lemma ResetLinked(e: Ev, t: Tid)
    requires EvInv(e) && t in Reset(e).l.calls && AllWoken(e.l.k, WakeAll(e.l, e.wid).k, e.wid)
    ensures Linked(Reset(e), t) && !Reset(e).l.calls[t].phase.Waits?
  {
    hide Inv, ResumeAll;
    assert Linked(e, t) && CallOk(e.l, t);
  }

  lemma ElsewhereInv(e: Ev, x: Step)
    requires EvInv(e) && Foreign(e.l, x)
    ensures EvInv(Elsewhere(e, x))
  {
    hide Inv, CallOk, Satisfied;
    OtherOk(e.l, x);
    var e1 := Elsewhere(e, x);
    forall t | t in e1.l.calls ensures Linked(e1, t) { ElsewhereLinked(e, x, t); }
    hide Ok, Linked, Foreign, Apply;
  }

  lemma ElsewhereLinked(e: Ev, x: Step, t: Tid)
    requires EvInv(e) && Foreign(e.l, x) && t in Elsewhere(e, x).l.calls
    ensures Linked(Elsewhere(e, x), t)
  {
    hide Inv, CallOk, Satisfied, Apply;
    assert t in e.l.calls && Linked(e, t);
    ForeignFrame(e.l, x, t, e.wid);
  }

  // ---------- runs ----------

  datatype EvStep =
    | SendStep(bits: bv32)
    | RecvStep(bits: bv32, info: EventInfo, timeout: int)
    | FinishStep
    | ResetStep
    | ElsewhereStep(x: Step)

  ghost predicate EvEnabled(e: Ev, step: EvStep)
    requires EvInv(e)
  {
    match step
    case SendStep(_) => true
    case RecvStep(bits, info, _) => CanBlock(e.l) && (bits != 0 ==> info.all || info.any)
    case FinishStep => Back(e.l)
    case ResetStep => true
    case ElsewhereStep(x) => Foreign(e.l, x)
  }

  ghost function EvNext(e: Ev, step: EvStep): (Ev, Outcome)
    requires EvInv(e) && EvEnabled(e, step)
  {
    match step
    case SendStep(bits) => Send(e, bits)
    case RecvStep(bits, info, timeout) => Recv(e, bits, info, timeout)
    case FinishStep => Finish(e)
    case ResetStep => (Reset(e), Done(EOK))
    case ElsewhereStep(x) => (Elsewhere(e, x), Pending)
  }

  lemma EvStepInv(e: Ev, step: EvStep)
    requires EvInv(e) && EvEnabled(e, step)
    ensures EvInv(EvNext(e, step).0)
  {
    hide EvInv, Walked, Walk;
    match step {
      case SendStep(bits) => SendServes(e, bits);
      case RecvStep(bits, info, timeout) => RecvInv(e, bits, info, timeout);
      case FinishStep => FinishInv(e);
      case ResetStep => ResetInv(e);
      case ElsewhereStep(x) => ElsewhereInv(e, x);
    }
  }

  /** A step from e to e1. The functions that describe steps are defined where the invariant holds; that it holds in
      every state of a run is shown, not assumed. */
  ghost predicate EvSteps(e: Ev, step: EvStep, e1: Ev) {
    EvInv(e) ==> EvEnabled(e, step) && e1 == EvNext(e, step).0
  }

  ghost predicate EvRun(es: seq<Ev>, steps: seq<EvStep>) {
    && |es| == |steps| + 1
    && forall i :: 0 <= i < |steps| ==> EvSteps(es[i], steps[i], es[i + 1])
  }

  lemma {:induction false} EvRunInv(es: seq<Ev>, steps: seq<EvStep>, i: nat)
    requires EvRun(es, steps) && EvInv(es[0]) && i < |es|
    ensures EvInv(es[i]) && (i < |steps| ==> EvEnabled(es[i], steps[i]))
  {
    hide EvInv, EvEnabled, EvNext;
    if i > 0 {
      EvRunInv(es, steps, i - 1);
      EvStepInv(es[i - 1], steps[i - 1]);
      assert EvSteps(es[i - 1], steps[i - 1], es[i]);
    }
    if i < |steps| { assert EvSteps(es[i], steps[i], es[i + 1]); }
  }

  /** The event as rt_event_init leaves it. */
  ghost predicate EvStart(e: Ev) {
    && Inv(e.l.k) && WaitQ(e.wid) in e.l.k.lists && Waiters(e) == []
    && e == Ev(Layer(e.l.k, {e.wid}, map[]), e.wid, e.order, 0, map[])
  }

  lemma StartInv(e: Ev)
    requires EvStart(e)
    ensures EvInv(e)
  {
    hide Inv;
  }

  /** In every state of every run from rt_event_init, no suspended thread's condition is satisfied by the event,
      and a blocked receive that succeeds returns events that answer its request. */
  lemma EventRuns(es: seq<Ev>, steps: seq<EvStep>, i: nat, t: Tid)
    requires EvRun(es, steps) && EvStart(es[0]) && i < |es|
    ensures var e := es[i];
      && Ok(e.l) && e.wid in e.l.ours
      && (t in Waiters(e) ==> t in e.l.k.tcbs && !Satisfied(e.events, Want(e.l.k.tcbs[t].eventSet, e.l.k.tcbs[t].eventInfo)))
    ensures var e := es[i];
      EvInv(e) && (Back(e.l) && Finish(e).1.Received? ==>
        e.l.k.current in e.want && Answers(Finish(e).1.bits, e.want[e.l.k.current]))
  {
    hide Ok, Satisfied, Answers, Linked, EvStart, EvEnabled, EvNext;
    StartInv(es[0]);
    EvRunInv(es, steps, i);
    hide EvRun;
    var e := es[i];
    if t in Waiters(e) { WaiterLinked(e, t); LinkedWant(e, t); }
    if Back(e.l) && Finish(e).1.Received? { FinishAnswers(e); }
  }

  // ---------- the object ----------

  class RtEvent {
    const kernel: Kernel
    const wid: Wid
    const order: Order
    var events: bv32
    ghost var calls: map<Tid, Call>
    ghost var want: map<Tid, Want>

    ghost function Abs(): Ev
      reads this, kernel
    {
      Ev(Layer(kernel.St(), {wid}, calls), wid, order, events, want)
    }

    /** rt_event_init */
    constructor (kernel: Kernel, wid: Wid, order: Order)
      requires Inv(kernel.St()) && WaitQ(wid) in kernel.lists && kernel.lists[WaitQ(wid)] == []
      ensures this.kernel == kernel && this.wid == wid && this.order == order && EvStart(Abs()) && EvInv(Abs())
    {
      this.kernel, this.wid, this.order, events := kernel, wid, order, 0;
      calls, want := map[], map[];
      new;
      StartInv(Abs());
    }

    method SendRegion(bits: bv32) returns (r: Outcome)
      requires EvInv(Abs())
      modifies this, kernel
      ensures (Abs(), r) == Send(old(Abs()), bits) && EvInv(Abs())
    {
      hide Ok, Linked, Satisfied, Walk, Walked, Or, Grant;
      if bits == 0 { return Done(ERROR); }
      ghost var e := Abs();
      SendServes(e, bits);
      events := Or(events, bits);
      assert Abs() == e.(events := Or(e.events, bits));
      var n := 0;
      while n < |kernel.lists[WaitQ(wid)]|
        invariant Ok(Abs().l) && WaitQ(wid) in kernel.lists && n <= |kernel.lists[WaitQ(wid)]|
        invariant Walk(Abs(), n) == Walk(e.(events := Or(e.events, bits)), 0)
        decreases |kernel.lists[WaitQ(wid)]| - n
      {
        WalkStep(Abs(), n);
        var resumed := Visit(kernel.lists[WaitQ(wid)][n], n);
        if !resumed { n := n + 1; }
      }
      WalkDone(Abs(), n);
      r := Done(EOK);
    }

    /** rt_event_recv up to its rt_schedule. */
    method RecvRegion(bits: bv32, info: EventInfo, timeout: int) returns (r: Outcome)
      requires EvInv(Abs()) && CanBlock(Abs().l) && (bits != 0 ==> info.all || info.any)
      modifies this, kernel
      ensures (Abs(), r) == Recv(old(Abs()), bits, info, timeout) && EvInv(Abs())
    {
      hide Ok, Linked, And, Minus;
      RecvInv(Abs(), bits, info, timeout);
      if bits == 0 { return Done(ERROR); }
      var thread := kernel.current;
      WithErrorOk(Abs().l, EOK);
      kernel.SetThreadError(thread, EOK);
      var satisfied := false;
      if info.all {
        if And(events, bits) == bits { satisfied := true; }
      } else if info.any {
        if And(events, bits) != 0 { satisfied := true; }
      }
      if satisfied {
        r := Received(And(events, bits));
        if info.clear { events := Minus(events, bits); }
      } else if timeout == 0 {
        kernel.SetThreadError(thread, ETIMEOUT);
        r := Done(ETIMEOUT);
      } else {
        SetEventsOk(Abs().l, thread, bits, info);
        kernel.SetThreadEvents(thread, bits, info);
        want := want[thread := Want(bits, info)];
        Suspend(timeout > 0);
        r := Pending;
      }
    }

    method Suspend(timed: bool)
      requires Ok(Abs().l) && CanBlock(Abs().l)
      modifies this`calls, kernel
      ensures Abs() == old(Abs()).(l := Begin(old(Abs().l), wid, order, timed))
    {
      hide Inv, CallOk, Lists;
      calls := calls[kernel.current := Call(wid, Waits)];
      kernel.BlockCurrent(wid, order, timed);
    }

    /** rt_event_recv after its rt_schedule. */
    method RecvReturns() returns (r: Outcome)
      requires EvInv(Abs()) && Back(Abs().l)
      modifies this`calls
      ensures (Abs(), r) == Finish(old(Abs())) && EvInv(Abs())
    {
      FinishInv(Abs());
      hide Ok, Linked;
      calls := map t | t in calls && t != kernel.current :: calls[t];
      var thread := kernel.tcbs[kernel.current];
      if thread.error != EOK { return Done(thread.error); }
      r := Received(thread.eventSet);
    }

    method ResetRegion()
      requires EvInv(Abs())
      modifies this, kernel
      ensures Abs() == Reset(old(Abs())) && EvInv(Abs())
    {
      hide CallOk, Inv, Linked;
      ResetInv(Abs());
      calls := map t | t in calls :: if calls[t] == Call(wid, Waits) then Call(wid, Woke(ERROR)) else calls[t];
      kernel.IpcListResumeAll(wid);
      events := 0;
    }

    /** One round of the walk: the thread at position n of the list. */
    method Visit(thread: Tid, ghost n: nat) returns (resumed: bool)
      requires Ok(Abs().l) && WaitQ(wid) in kernel.lists && n < |kernel.lists[WaitQ(wid)]| && thread == kernel.lists[WaitQ(wid)][n]
      modifies this, kernel
      ensures thread in old(kernel.tcbs)
      ensures resumed == Satisfied(old(events), Want(old(kernel.tcbs[thread].eventSet), old(kernel.tcbs[thread].eventInfo)))
      ensures Ok(Abs().l) && Abs() == if resumed then Grant(old(Abs()), thread) else old(Abs())
      ensures WaitQ(wid) in kernel.lists
      ensures |kernel.lists[WaitQ(wid)]| == |old(kernel.lists[WaitQ(wid)])| - (if resumed then 1 else 0)
    {
      hide Ok, Linked, And, Minus, Grant, Granted;
      ghost var e := Abs();
      ListedThread(e.l, wid, thread);
      GrantOk(e, n);
      resumed := false;
      var c := kernel.tcbs[thread];
      Masking(events, c.eventSet);
      if c.eventInfo.all {
        if And(c.eventSet, events) == c.eventSet { resumed := true; }
      } else if c.eventInfo.any {
        if And(c.eventSet, events) != 0 {
          resumed := true;
        }
      }
      if resumed {
        ResumeGranted(thread);
        GrantedLength(e, Grant(e, thread), n);
      }
    }

    /** Saving what was received, clearing it from the event, and rt_thread_resume. */
    method ResumeGranted(thread: Tid)
      requires Ok(Abs().l) && WaitQ(wid) in kernel.lists && thread in kernel.lists[WaitQ(wid)]
      modifies this, kernel
      ensures Abs() == Grant(old(Abs()), thread)
    {
      hide Ok, And, Minus;
      ghost var e := Abs();
      ListedThread(e.l, wid, thread);
      var c := kernel.tcbs[thread];
      if !c.eventInfo.all {
        kernel.SetThreadEvents(thread, And(c.eventSet, events), c.eventInfo);
      }
      if c.eventInfo.clear { events := Minus(events, kernel.tcbs[thread].eventSet); }
      SetEventsOk(e.l, thread, Catch(c, e.events), c.eventInfo);
      assert Abs().l == SetEvents(e.l, thread, Catch(c, e.events), c.eventInfo);
      hide SetEvents, Catch;
      Resume(thread);
    }

    method Resume(thread: Tid)
      requires Ok(Abs().l) && WaitQ(wid) in kernel.lists && thread in kernel.lists[WaitQ(wid)]
      modifies this`calls, kernel
      ensures Abs() == old(Abs()).(l := WakeOne(old(Abs().l), wid, thread))
    {
      hide CallOk;
      WaiterInv(kernel.St(), wid, thread);
      calls := calls[thread := Call(wid, Woke(EOK))];
      var _ := kernel.ThreadResume(thread);
    }
  }

  lemma ListedThread(l: Layer, w: Wid, t: Tid)
    requires Ok(l) && WaitQ(w) in l.k.lists && t in l.k.lists[WaitQ(w)]
    ensures t in l.k.tcbs
  {
  }

  lemma GrantedLength(e: Ev, e1: Ev, i: nat)
    requires WaitQ(e.wid) in e.l.k.lists && i < |Waiters(e)| && Granted(e, e1, i)
    ensures WaitQ(e.wid) in e1.l.k.lists && e1.wid == e.wid && |Waiters(e1)| == |Waiters(e)| - 1
  {
  }

  lemma WalkStep(e: Ev, n: nat)
    requires Ok(e.l) && e.wid in e.l.ours && n < |Waiters(e)|
    ensures var t := Waiters(e)[n];
      && t in e.l.k.tcbs
      && Walk(e, n) == (if Satisfied(e.events, Want(e.l.k.tcbs[t].eventSet, e.l.k.tcbs[t].eventInfo)) then
                          GrantOk(e, n);
                          Walk(Grant(e, t), n)
                        else Walk(e, n + 1))
  {
    hide Ok, Grant, Satisfied;
    GrantOk(e, n);
  }

  lemma WalkDone(e: Ev, n: nat)
    requires Ok(e.l) && e.wid in e.l.ours && n == |Waiters(e)|
    ensures Walk(e, n) == e
  {
  }
}
