/** When a started timer is due: rt_timer_start, rt_timer_stop and rt_timer_check of rt-thread/src/timer.c in terms of
    the moment of the call and the time the timer was set to. */
module TimerDue {
  import opened Seqs
  import opened Timers

  // ---------- one call ----------

  /** t is set to be due a given time from now, and what is stored is the tick of that, the sum of the present tick and
      init_tick wrapped to 32 bits. Nothing else about any timer changes. */
  ghost predicate DueFromNow(ts: Ts, ts1: Ts, t: Timer) {
    && t in ts.tms && t in ts1.tms && t in ts1.key && ts1.key[t].due == ts.now + ts.tms[t].initTick && ts1.now == ts.now
    && ts1.tms[t].timeoutTick == (Tick(ts.now) + ts.tms[t].initTick) % TICKS
    && ts1.tms[t].initTick == ts.tms[t].initTick && ts1.tms[t].periodic == ts.tms[t].periodic
    && ts1.tms.Keys == ts.tms.Keys && ts1.key.Keys == ts.key.Keys + {t}
    && (forall u :: u in ts.tms && u != t ==> ts1.tms[u] == ts.tms[u])
    && (forall u :: u in ts.key && u != t ==> ts1.key[u] == ts.key[u])
  }

  /** Where rt_timer_start stores the due tick, the timer becomes due init_tick from then on, whether it is in the list
      or not. */
  lemma StoredDue(ts: Ts, t: Timer)
    requires CanStart(ts, t)
    ensures DueFromNow(ts, StartTime(ts, t), t) && StartTime(ts, t).rows == ts.rows
    ensures StartTime(ts, t).tms[t].activated == ts.tms[t].activated
  {
    TickAdds(ts.now, ts.tms[t].initTick);
    hide Tick;
  }

  /** rt_timer_start, not interrupted: besides, the timer is in the list and active. */
  lemma StartedDue(ts: Ts, t: Timer)
    requires TimerInv(ts) && CanStart(ts, t)
    ensures var ts1 := Start(ts, t);
      DueFromNow(ts, ts1, t) && ts1.rows != [] && t in ts1.Last() && ts1.tms[t].activated
  {
    hide TimerInv, Tick, Start, InsertBy;
    TickAdds(ts.now, ts.tms[t].initTick);
    StartedIn(ts, t);
    StartInv(ts, t);
    LastActive(Start(ts, t));
    StartedRecord(ts, t);
  }

  // ---------- the parts together ----------

  lemma {:induction false} InsertByFrame(l: seq<Timer>, t: Timer, d: nat, key: map<Timer, Key>, key1: map<Timer, Key>)
    requires forall u :: u in l ==> u in key && u in key1 && key1[u] == key[u]
    ensures InsertBy(l, t, d, key1) == InsertBy(l, t, d, key)
  {
    if l != [] { InsertByFrame(l[1..], t, d, key, key1); }
  }

  lemma InsertRowsFrame(rows: seq<seq<Timer>>, t: Timer, h: nat, d: nat, key: map<Timer, Key>, key1: map<Timer, Key>)
    requires h <= |rows| && forall i, u :: 0 <= i < |rows| && u in rows[i] ==> u in key && u in key1 && key1[u] == key[u]
    ensures InsertRows(rows, t, h, d, key1) == InsertRows(rows, t, h, d, key)
  {
    hide InsertBy;
    forall i | 0 <= i < |rows| ensures InsertRows(rows, t, h, d, key1)[i] == InsertRows(rows, t, h, d, key)[i] {
      InsertByFrame(rows[i], t, d, key, key1);
    }
  }

  /** The three parts of rt_timer_start one after the other are the uninterrupted call: the same rows, records, due
      times and calls underway. */
  lemma StartParts(ts: Ts, t: Timer)
    requires TimerInv(ts) && CanStart(ts, t)
    ensures var ts2 := StartTime(StartRemove(ts, t), t);
      t in ts2.tms && t in ts2.key && ts2.rows != [] && Keyed(ts2) && StartInsert(ts2, t) == Start(ts, t)
  {
    hide TimerInv, Tick, Put, Absent, StartTime;
    RemovedInv(ts, t);
    FirstParts(ts, t);
    var s, ts2 := Stop(ts, t), StartTime(StartRemove(ts, t), t);
    OutOfRows(s, t);
    PutAfterStore(s, ts2, t, ts.now + ts.tms[t].initTick);
  }

  lemma OutOfRows(ts: Ts, t: Timer)
    requires Absent(ts, t)
    ensures Keyed(ts) && forall i :: 0 <= i < |ts.rows| ==> t !in ts.rows[i]
  {
  }

  /** What the first two parts amount to. */
  lemma FirstParts(ts: Ts, t: Timer)
    requires CanStart(ts, t)
    ensures var s, ts2 := Stop(ts, t), StartTime(StartRemove(ts, t), t); var d := ts.now + ts.tms[t].initTick;
      && t in ts2.tms && t in ts2.key && ts2.key[t].due == d && ts2.rows == s.rows
      && ts2 == s.(tms := s.tms[t := s.tms[t].(timeoutTick := Tick(d))], key := s.key[t := ts2.key[t]],
                   calls := s.calls.(timed := s.calls.timed + multiset{t}))
  {
    hide Tick, RemoveAll;
    assert ts.calls.removed + multiset{t} - multiset{t} == ts.calls.removed;
  }

  /** Putting the timer in does not depend on what was stored for it before. */
  lemma PutAfterStore(s: Ts, ts2: Ts, t: Timer, d: nat)
    requires t in s.tms && s.rows != [] && Keyed(s) && (forall i :: 0 <= i < |s.rows| ==> t !in s.rows[i])
    requires t in ts2.tms && t in ts2.key && ts2.key[t].due == d
    requires ts2 == s.(tms := s.tms[t := s.tms[t].(timeoutTick := Tick(d))], key := s.key[t := ts2.key[t]],
                       calls := s.calls.(timed := s.calls.timed + multiset{t}))
    ensures Keyed(ts2) && StartInsert(ts2, t) == Put(s, t, d)
  {
    hide Tick, InsertBy, Height;
    assert Keyed(ts2);
    SameHeight(ts2, s);
    InsertRowsFrame(s.rows, t, Height(s), d, s.key, ts2.key);
    hide InsertRows, Keyed;
    assert s.calls.timed + multiset{t} - multiset{t} == s.calls.timed;
    var c := s.tms[t].(timeoutTick := Tick(d));
    assert s.tms[t := c][t := c.(activated := true)] == s.tms[t := c.(activated := true)];
  }

  lemma SameHeight(ts: Ts, ts1: Ts)
    requires ts.rows != [] && |ts1.rows| == |ts.rows| && ts1.random == ts.random
    ensures Height(ts1) == Height(ts)
  {
  }

  /** So are those of rt_timer_stop, when the timer is active; it is inactive then and in no row, and no other timer has
      changed. */
  lemma StopParts(ts: Ts, t: Timer)
    requires TimerInv(ts) && t in ts.tms
    ensures StopClear(StopRemove(StopTest(ts, t), t), t) == Stop(ts, t)
    ensures var ts1 := Stop(ts, t);
      && Absent(ts1, t) && t in ts1.tms && ts1.tms == ts.tms[t := ts.tms[t].(activated := false)] && ts1.key == ts.key
      && ts1.now == ts.now && ts1.rows != [] && forall u :: u != t ==> (u in ts1.Last() <==> u in ts.Last())
  {
    hide TimerInv, Tick, RemoveAll, Absent;
    RemovedInv(ts, t);
    LastKeys(ts);
    assert ts.calls.tested + multiset{t} - multiset{t} == ts.calls.tested;
    assert ts.calls.stopping + multiset{t} - multiset{t} == ts.calls.stopping;
  }

  // ---------- rows ----------

  function Power(h: nat): nat { if h == 0 then 1 else 4 * Power(h - 1) }

  lemma PowerPositive(h: nat)
    ensures Power(h) > 0
  {
  }

  /** A timer goes into one more row for every pair of zero bits that random_nr ends in, as far as there are rows: so
      every fourth timer that goes into a row goes into the next one up. */
  lemma {:induction false} RowsByCounter(bits: nat, k: nat)
    ensures var h := Levels(bits, k);
      h <= k && Power(h) > 0 && Power(h + 1) > 0 && bits % Power(h) == 0 && (h < k ==> bits % Power(h + 1) != 0)
    decreases k
  {
    var h := Levels(bits, k);
    PowerPositive(h);
    PowerPositive(h + 1);
    if k > 0 && bits % 4 == 0 {
      RowsByCounter(bits / 4, k - 1);
      PowerPositive(h - 1);
      FourTimes(bits, Power(h - 1));
      FourTimes(bits, Power(h));
    } else {
      assert Power(1) == 4 * Power(0) == 4;
    }
  }

  lemma FourTimes(bits: nat, m: nat)
    requires bits % 4 == 0 && m > 0
    ensures bits % (4 * m) == 0 <==> (bits / 4) % m == 0
  {
    var b := bits / 4;
    assert bits == 4 * b;
    if b % m == 0 {
      var q := b / m;
      assert b == q * m;
      Whole(bits, 4 * m, q);
    }
    if bits % (4 * m) == 0 {
      var q := bits / (4 * m);
      assert bits == q * (4 * m);
      Whole(b, m, q);
    }
  }

  lemma Whole(n: nat, m: nat, q: nat)
    requires m > 0 && n == q * m
    ensures n % m == 0
  {
    var d := q - n / m;
    assert n == n / m * m + n % m;
    assert d * m == n % m;
    Multiple(d, m);
    Multiple(-d, m);
  }

  lemma Multiple(d: int, m: nat)
    ensures d >= 1 ==> d * m >= m
  {
  }

  /** rt_timer_start counts on, and puts the timer into that many of the lowest rows and no other; every other timer
      stays in the rows it is in. */
  lemma RowsJoined(ts: Ts, t: Timer, r: nat)
    requires TimerInv(ts) && CanStart(ts, t) && r < |ts.rows|
    ensures var ts1 := Start(ts, t); var h := 1 + Levels((ts.random + 1) % TICKS, |ts.rows| - 1);
      && |ts1.rows| == |ts.rows| && ts1.random == (ts.random + 1) % TICKS
      && (t in ts1.rows[r] <==> r >= |ts.rows| - h)
      && forall u :: u != t ==> (u in ts1.rows[r] <==> u in ts.rows[r])
  {
    hide TimerInv, Tick, InsertBy, Without, Levels;
    RemovedInv(ts, t);
    var s := Stop(ts, t);
    OutOfRows(s, t);
    InsertByMembers(s.rows[r], t, ts.now + ts.tms[t].initTick, s.key);
  }

  // ---------- runs ----------

  /** The steps that make t due a given time from now. */
  ghost predicate Stores(ts: Ts, step: TimerStep, t: Timer)
    requires TimerInv(ts)
  {
    step == StartStep(t) || step == StartTimeStep(t) || (step.CheckStep? && t in Due(ts) && t in ts.tms && ts.tms[t].periodic)
  }

  /** The due time of t is that of ts, or t has none in either. */
  ghost predicate SameDue(ts: Ts, ts1: Ts, t: Timer) {
    (t in ts1.key <==> t in ts.key) && (t in ts.key ==> ts1.key[t].due == ts.key[t].due)
  }

  ghost predicate SetFrom(ts: Ts, ts1: Ts, t: Timer) {
    t in ts.tms && t in ts1.key && ts1.key[t].due == ts.now + ts.tms[t].initTick
  }

  lemma DueStep(ts: Ts, step: TimerStep, t: Timer)
    requires TimerInv(ts) && TimerEnabled(ts, step)
    ensures if Stores(ts, step, t) then SetFrom(ts, TimerNext(ts, step), t) else SameDue(ts, TimerNext(ts, step), t)
  {
    hide TimerInv, Tick, Start, StartTime, StartInsert, Check, PeriodsOk, StaysInOrder, DueFromNow, Due;
    match step {
      case StartStep(u) => StartedDue(ts, u); SameForOthers(ts, Start(ts, u), u, t);
      case StartTimeStep(u) => StoredDue(ts, u); SameForOthers(ts, StartTime(ts, u), u, t);
      case StartInsertStep(u) => OutAbsent(ts, u); InsertedDue(ts, u);
      case CheckStep => CheckDue(ts, t);
      case _ =>
    }
  }

  lemma SameForOthers(ts: Ts, ts1: Ts, u: Timer, t: Timer)
    requires DueFromNow(ts, ts1, u)
    ensures if t == u then SetFrom(ts, ts1, t) else SameDue(ts, ts1, t)
  {
    assert t in ts1.key <==> t in ts1.key.Keys;
  }

  lemma InsertedDue(ts: Ts, u: Timer)
    requires u in ts.tms && u in ts.key && ts.rows != [] && Keyed(ts)
    ensures forall t :: SameDue(ts, StartInsert(ts, u), t)
  {
    hide Tick, InsertRows, Height, Keyed;
  }

  lemma FireKeys(ts: Ts)
    requires TimerInv(ts) && PeriodsOk(ts) && Expired(ts)
    ensures var t := ts.Last()[0]; var ts1 := Fire(ts);
      && t in ts.tms && (forall u :: u != t || !ts.tms[t].periodic ==> SameDue(ts, ts1, u)) && ts1.now == ts.now
      && (ts.tms[t].periodic ==> SetFrom(ts, ts1, t)) && (forall u :: u in ts1.tms <==> u in ts.tms)
      && forall u :: u in ts.tms ==> ts1.tms[u].periodic == ts.tms[u].periodic && ts1.tms[u].initTick == ts.tms[u].initTick
  {
    hide TimerInv, Tick, Start, RemoveAll, Absent, PeriodsOk;
    LastActive(ts);
    var t := ts.Last()[0];
    FireEffect(ts);
    RemovedInv(ts, t);
    CanRestart(ts, t);
    if ts.tms[t].periodic {
      var s := Stop(ts, t);
      StartedDue(s, t);
      forall u ensures if u == t then SetFrom(s, Start(s, t), u) else SameDue(s, Start(s, t), u) { SameForOthers(s, Start(s, t), t, u); }
    }
  }

  lemma CanRestart(ts: Ts, t: Timer)
    requires TimerInv(ts) && PeriodsOk(ts) && t in ts.tms && ts.tms[t].activated
    ensures ts.tms[t].periodic ==> CanStart(Stop(ts, t), t)
  {
    hide RowsOk, Tick;
  }

  lemma {:induction false} CheckDue(ts: Ts, u: Timer)
    requires TimerInv(ts) && PeriodsOk(ts)
    ensures if u in Due(ts) && u in ts.tms && ts.tms[u].periodic then SetFrom(ts, Check(ts).0, u) else SameDue(ts, Check(ts).0, u)
    decreases |Due(ts)|
  {
    hide TimerInv, Tick, PeriodsOk, DueList, Fire, Fired, FiredOne;
    LastKeys(ts);
    if Expired(ts) {
      FireInv(ts);
      FiredStaysOff(ts);
      FireKeys(ts);
      CheckDue(Fire(ts), u);
      assert Due(ts) == [ts.Last()[0]] + Due(Fire(ts));
      hide Due;
      CheckUnfolds(ts);
      hide Check;
      var ts1, ts2, h := Fire(ts), Check(Fire(ts)).0, ts.Last()[0];
      assert Check(ts).0 == ts2;
      if u == h {
        assert SameDue(ts1, ts2, u);
        assert Due(ts)[0] == u;
        if !ts.tms[u].periodic { assert SameDue(ts, ts1, u); }
      } else {
        assert SameDue(ts, ts1, u);
        assert u in Due(ts) <==> u in Due(ts1);
        if !(u in Due(ts) && u in ts.tms && ts.tms[u].periodic) { assert SameDue(ts1, ts2, u); }
      }
    } else {
      NothingDue(ts);
    }
  }

  /** Step i was the last before state j to set when t is due. */
  ghost predicate LatestStore(tss: seq<Ts>, steps: seq<TimerStep>, i: nat, j: nat, t: Timer) {
    && i < j < |tss| == |steps| + 1
    && TimerInv(tss[i]) && Stores(tss[i], steps[i], t)
    && forall m :: i < m < j ==> TimerInv(tss[m]) && !Stores(tss[m], steps[m], t)
  }

  /** In every state of every run, a timer in the list is due at the moment its due tick was last set, by rt_timer_start
      or on firing, plus the init_tick it had then; the tick stored in it is the tick of that time. */
  lemma {:induction false} DueInEveryRun(tss: seq<Ts>, steps: seq<TimerStep>, j: nat, t: Timer)
    requires TimerRun(tss, steps) && EmptyRows(tss[0]) && j < |tss| && t in tss[j].key
    ensures exists i: nat :: LatestStore(tss, steps, i, j, t) && t in tss[i].tms && tss[j].key[t].due == tss[i].now + tss[i].tms[t].initTick
    ensures t in tss[j].tms && tss[j].tms[t].timeoutTick == Tick(tss[j].key[t].due)
    ensures tss[j].rows != [] && forall u :: u in tss[j].Last() ==> u in tss[j].key
  {
    hide TimerInv, TimerNext, TimerEnabled, TimerSteps, Synced, Stores, Tick, EmptyRows;
    SyncedInEveryRun(tss, steps, j);
    LastKeys(tss[j]);
    IsSynced(tss[j], t);
    StartStateInv(tss[0]);
    if j == 0 {
      NoKeys(tss[0], t);
    } else {
      TimerRunStep(tss, steps, j - 1);
      DueStep(tss[j - 1], steps[j - 1], t);
      if Stores(tss[j - 1], steps[j - 1], t) {
        assert LatestStore(tss, steps, j - 1, j, t);
      } else {
        DueInEveryRun(tss, steps, j - 1, t);
        var i: nat :| LatestStore(tss, steps, i, j - 1, t) && t in tss[i].tms && tss[j - 1].key[t].due == tss[i].now + tss[i].tms[t].initTick;
        assert LatestStore(tss, steps, i, j, t);
      }
    }
  }

  lemma IsSynced(ts: Ts, t: Timer)
    requires Synced(ts) && t in ts.key
    ensures t in ts.tms && ts.tms[t].timeoutTick == Tick(ts.key[t].due)
  {
  }

  lemma NoKeys(ts: Ts, t: Timer)
    requires EmptyRows(ts)
    ensures t !in ts.key
  {
  }
}
