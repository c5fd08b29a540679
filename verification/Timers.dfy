/** Timers in a skip list ordered by a wrapping 32-bit tick: rt-thread/src/timer.c. */
module Timers {
  import opened Seqs
  import opened Events

  type Timer = nat

  const TICKS: nat := 0x1_0000_0000
  /** RT_TICK_MAX / 2 */
  const HALF: nat := 0x7FFF_FFFF
  const TICK_MAX: nat := 0xFFFF_FFFF
  /** How many ticks a timer may be late before comparisons of ticks go wrong. */
  const LATE: nat := 3

  datatype Tm = Tm(initTick: nat, timeoutTick: nat, periodic: bool, activated: bool)

  /** When a timer is due, on a clock that does not wrap, and which start of a timer that was. */
  datatype Key = Key(due: nat, stamp: nat)

  /** The calls of rt_timer_start past their first region and those past the store of the due tick, and the calls of
      rt_timer_stop past their test and those past their region. */
  datatype Calls = Calls(removed: multiset<Timer>, timed: multiset<Timer>, tested: multiset<Timer>, stopping: multiset<Timer>)

  datatype Ts = Ts(tms: map<Timer, Tm>, rows: seq<seq<Timer>>, now: nat, key: map<Timer, Key>, clock: nat, random: nat,
                   calls: Calls)
  {
    function Last(): seq<Timer>
      requires rows != []
    {
      rows[|rows| - 1]
    }
  }

  /** The tick that stands for a time. */
  function Tick(time: nat): (r: nat)
    ensures r < TICKS
  {
    time % TICKS
  }

  /** Subtraction of two ticks. */
  function Diff(a: nat, b: nat): nat
    requires a < TICKS && b < TICKS
  {
    if a >= b then a - b else a + TICKS - b
  }

  /** The comparison of rt_timer_start is right for times less than half the tick range apart. */
  lemma DiffOrders(d: nat, e: nat)
    requires d < e + HALF && e <= d + TICKS - HALF
    ensures Diff(Tick(d), Tick(e)) == 0 <==> d == e
    ensures 0 < Diff(Tick(d), Tick(e)) < HALF <==> d > e
  {
  }

  /** And for no others. */
  lemma DiffRightIff(d: nat, e: nat)
    requires d < e + TICKS && e < d + TICKS
    ensures ((Diff(Tick(d), Tick(e)) == 0 <==> d == e) && (0 < Diff(Tick(d), Tick(e)) < HALF <==> d > e))
            <==> (d < e + HALF && e <= d + TICKS - HALF)
  {
    if d == e + HALF { HalfApart(e); }
  }

  lemma HalfApart(e: nat)
    ensures Diff(Tick(e + HALF), Tick(e)) == HALF
  {
  }

  /** So is the test of rt_timer_check. */
  lemma DiffExpired(now: nat, due: nat)
    requires now <= due + LATE && due < now + HALF
    ensures Diff(Tick(now), Tick(due)) < HALF <==> due <= now
  {
  }

  // ---------- ordered lists and their sublists ----------

  predicate Less(a: Key, b: Key) { a.due < b.due || (a.due == b.due && a.stamp < b.stamp) }

  ghost predicate Sorted(l: seq<Timer>, key: map<Timer, Key>) {
    && (forall t :: t in l ==> t in key)
    && forall i, j :: 0 <= i < j < |l| ==> Less(key[l[i]], key[l[j]])
  }

  /** a can be had from b by leaving members out. */
  ghost predicate Sublist(a: seq<Timer>, b: seq<Timer>) {
    if a == [] then true
    else b != [] && (if a[0] == b[0] then Sublist(a[1..], b[1..]) else Sublist(a, b[1..]))
  }

  /** After the members due no later than d. */
  function InsertBy(l: seq<Timer>, t: Timer, d: nat, key: map<Timer, Key>): seq<Timer>
    requires forall u :: u in l ==> u in key
  {
    if l == [] || key[l[0]].due > d then [t] + l else [l[0]] + InsertBy(l[1..], t, d, key)
  }

  lemma SortedTail(l: seq<Timer>, key: map<Timer, Key>)
    requires Sorted(l, key) && l != []
    ensures Sorted(l[1..], key) && l[0] in key && l[0] !in l[1..]
    ensures forall u :: u in l[1..] ==> u in key && Less(key[l[0]], key[u])
  {
  }

  lemma SortedCons(t: Timer, l: seq<Timer>, key: map<Timer, Key>)
    requires Sorted(l, key) && t in key && forall u :: u in l ==> u in key && Less(key[t], key[u])
    ensures Sorted([t] + l, key)
  {
    assert forall j :: 0 <= j < |l| ==> l[j] in l;
  }

  lemma SortedNoDup(l: seq<Timer>, key: map<Timer, Key>)
    requires Sorted(l, key)
    ensures NoDup(l)
  {
  }

  lemma SortedFrame(l: seq<Timer>, key: map<Timer, Key>, key1: map<Timer, Key>)
    requires Sorted(l, key) && forall u :: u in l ==> u in key1 && key1[u] == key[u]
    ensures Sorted(l, key1)
  {
  }

  lemma {:induction false} InsertByMembers(l: seq<Timer>, t: Timer, d: nat, key: map<Timer, Key>)
    requires forall u :: u in l ==> u in key
    ensures forall u :: u in InsertBy(l, t, d, key) <==> u in l || u == t
  {
    if l != [] && key[l[0]].due <= d {
      InsertByMembers(l[1..], t, d, key);
      assert l == [l[0]] + l[1..];
    }
  }

  /** A timer started now goes behind the ones due at the same time, and the list stays in order. */
  lemma {:induction false} InsertBySorted(l: seq<Timer>, t: Timer, d: nat, s: nat, key: map<Timer, Key>)
    requires Sorted(l, key) && t !in l && forall u :: u in l ==> key[u].stamp < s
    ensures Sorted(InsertBy(l, t, d, key), key[t := Key(d, s)])
  {
    var key1 := key[t := Key(d, s)];
    SortedFrame(l, key, key1);
    if l == [] {
    } else if key[l[0]].due > d {
      SortedTail(l, key1);
      SortedCons(t, l, key1);
    } else {
      SortedTail(l, key);
      InsertBySorted(l[1..], t, d, s, key);
      InsertByMembers(l[1..], t, d, key);
      SortedCons(l[0], InsertBy(l[1..], t, d, key), key1);
    }
  }

  lemma {:induction false} SublistMembers(a: seq<Timer>, b: seq<Timer>)
    requires Sublist(a, b)
    ensures forall u :: u in a ==> u in b
    decreases |b|
  {
    if a != [] {
      if a[0] == b[0] {
        SublistMembers(a[1..], b[1..]);
        assert a == [a[0]] + a[1..];
      } else {
        SublistMembers(a, b[1..]);
      }
    }
  }

  lemma {:induction false} SublistCons(a: seq<Timer>, b: seq<Timer>, t: Timer)
    requires Sublist(a, b) && t !in a
    ensures Sublist(a, [t] + b)
  {
    assert ([t] + b)[1..] == b;
  }

  lemma {:induction false} InsertBySublist(a: seq<Timer>, b: seq<Timer>, t: Timer, d: nat, key: map<Timer, Key>)
    requires Sublist(a, b) && Sorted(b, key) && t !in b
    ensures forall u :: u in a ==> u in key
    ensures Sublist(InsertBy(a, t, d, key), InsertBy(b, t, d, key))
    ensures Sublist(a, InsertBy(b, t, d, key))
    decreases |b|
  {
    SublistMembers(a, b);
    var a1, b1 := InsertBy(a, t, d, key), InsertBy(b, t, d, key);
    if b != [] && key[b[0]].due <= d {
      SortedTail(b, key);
      assert b1[1..] == InsertBy(b[1..], t, d, key);
      if a != [] && a[0] == b[0] {
        InsertBySublist(a[1..], b[1..], t, d, key);
        assert a1[1..] == InsertBy(a[1..], t, d, key);
      } else {
        assert Sublist(a, b[1..]);
        InsertBySublist(a, b[1..], t, d, key);
        SublistSkips(a, b, t, d, key);
      }
    } else {
      SublistCons(a, b, t);
      assert b1[1..] == b;
      if a != [] && key[a[0]].due <= d { SortedHead(b, a[0], key); }
      assert a1[1..] == a;
    }
  }

  lemma SortedHead(l: seq<Timer>, t: Timer, key: map<Timer, Key>)
    requires Sorted(l, key) && t in l
    ensures l[0] in key && key[l[0]].due <= key[t].due
  {
  }

  /** When a does not begin with b's first member, neither does a with t put in. */
  lemma SublistSkips(a: seq<Timer>, b: seq<Timer>, t: Timer, d: nat, key: map<Timer, Key>)
    requires b != [] && (a == [] || a[0] != b[0]) && t !in b && (forall u :: u in a ==> u in key)
    ensures InsertBy(a, t, d, key)[0] != b[0]
  {
  }

  lemma {:induction false} WithoutSublist(a: seq<Timer>, b: seq<Timer>, t: Timer)
    requires Sublist(a, b)
    ensures Sublist(Without(a, t), Without(b, t))
    decreases |b|
  {
    if a != [] {
      if a[0] == b[0] {
        WithoutSublist(a[1..], b[1..], t);
        if a[0] != t {
          assert Without(a, t)[1..] == Without(a[1..], t) && Without(b, t)[1..] == Without(b[1..], t);
        }
      } else {
        WithoutSublist(a, b[1..], t);
        if b[0] != t { WithoutSkips(a, b, t); }
      }
    }
  }

  lemma WithoutSkips(a: seq<Timer>, b: seq<Timer>, t: Timer)
    requires b != [] && b[0] != t && Sublist(Without(a, t), Without(b[1..], t))
    ensures Sublist(Without(a, t), Without(b, t))
  {
    var a1, b1 := Without(a, t), Without(b, t);
    assert b1[1..] == Without(b[1..], t);
    if a1 != [] && a1[0] == b1[0] { SublistTail(a1, Without(b[1..], t)); }
  }

  lemma {:induction false} SublistTail(a: seq<Timer>, b: seq<Timer>)
    requires Sublist(a, b) && a != []
    ensures Sublist(a[1..], b)
    decreases |b|
  {
    if a[0] == b[0] {
      if a[1..] != [] && a[1..][0] == b[0] { SublistTail(a[1..], b[1..]); }
    } else {
      SublistTail(a, b[1..]);
      if a[1..] != [] && a[1..][0] == b[0] { SublistTail(a[1..], b[1..]); }
    }
  }

  lemma {:induction false} WithoutSorted(l: seq<Timer>, t: Timer, key: map<Timer, Key>)
    requires Sorted(l, key)
    ensures Sorted(Without(l, t), key)
  {
    if l != [] {
      SortedTail(l, key);
      WithoutSorted(l[1..], t, key);
      SortedCons(l[0], Without(l[1..], t), key);
    }
  }

  // ---------- the timer list ----------

  /** A timer in the list: it is started and has not fired. */
  ghost predicate ActiveOk(ts: Ts, t: Timer) {
    && t in ts.tms && t in ts.key
    && ts.tms[t].timeoutTick == Tick(ts.key[t].due)
    && ts.now <= ts.key[t].due + LATE && ts.key[t].due < ts.now + HALF
    && ts.key[t].stamp < ts.clock
  }

  /** Every row is in order of time and of start, and each is a sublist of the row below. */
  ghost predicate RowsOk(ts: Ts) {
    && ts.rows != []
    && (forall r :: 0 <= r < |ts.rows| ==> Sorted(ts.rows[r], ts.key))
    && (forall r :: 0 <= r < |ts.rows| - 1 ==> Sublist(ts.rows[r], ts.rows[r + 1]))
  }

  /** The timers in the last row are active, and an active timer is there unless an rt_timer_stop has taken it out and
      not yet cleared its flag. */
  ghost predicate Flags(ts: Ts)
    requires ts.rows != []
  {
    && (forall t :: t in ts.Last() ==> t in ts.tms && ts.tms[t].activated)
    && (forall t :: t in ts.tms && ts.tms[t].activated && t !in ts.calls.stopping ==> t in ts.Last())
  }

  ghost predicate TimerInv(ts: Ts) {
    && ts.rows != [] && RowsOk(ts) && Flags(ts)
    && (forall t :: t in ts.Last() ==> ActiveOk(ts, t))
  }

  /** _rt_timer_remove */
  function RemoveAll(rows: seq<seq<Timer>>, t: Timer): (r: seq<seq<Timer>>)
    ensures |r| == |rows| && forall i :: 0 <= i < |rows| ==> r[i] == Without(rows[i], t)
  {
    seq(|rows|, i requires 0 <= i < |rows| => Without(rows[i], t))
  }

  /** Into the h lowest rows, each in its order. */
  function InsertRows(rows: seq<seq<Timer>>, t: Timer, h: nat, d: nat, key: map<Timer, Key>): (r: seq<seq<Timer>>)
    requires h <= |rows| && forall i, u :: 0 <= i < |rows| && u in rows[i] ==> u in key
    ensures |r| == |rows|
    ensures forall i :: 0 <= i < |rows| ==> r[i] == if i >= |rows| - h then InsertBy(rows[i], t, d, key) else rows[i]
  {
    seq(|rows|, i requires 0 <= i < |rows| => if i >= |rows| - h then InsertBy(rows[i], t, d, key) else rows[i])
  }

  /** rt_timer_stop, not interrupted, and the first region of rt_timer_start. */
  ghost function Stop(ts: Ts, t: Timer): Ts
    requires t in ts.tms
  {
    ts.(rows := RemoveAll(ts.rows, t), tms := ts.tms[t := ts.tms[t].(activated := false)])
  }

  ghost predicate CanStart(ts: Ts, t: Timer) {
    t in ts.tms && ts.tms[t].initTick < HALF && ts.rows != []
  }

  /** random_nr ++ */
  function Bump(random: nat): nat { (random + 1) % TICKS }

  /** How many of k more rows a timer goes into: two bits of the counter at a time, as long as they are zero. */
  function Levels(bits: nat, k: nat): (h: nat)
    ensures h <= k
  {
    if k == 0 || bits % 4 != 0 then 0 else 1 + Levels(bits / 4, k - 1)
  }

  function Height(ts: Ts): (h: nat)
    requires ts.rows != []
    ensures 1 <= h <= |ts.rows|
  {
    1 + Levels(Bump(ts.random), |ts.rows| - 1)
  }

  ghost predicate Keyed(ts: Ts) {
    forall i, u :: 0 <= i < |ts.rows| && u in ts.rows[i] ==> u in ts.key
  }

  /** t is in no row. */
  ghost predicate Absent(ts: Ts, t: Timer) {
    Keyed(ts) && forall i :: 0 <= i < |ts.rows| ==> t !in ts.rows[i]
  }

  /** The second region of rt_timer_start for a timer due at d; Height is the number of rows the timer goes into. */
  ghost function Put(ts: Ts, t: Timer, d: nat): Ts
    requires t in ts.tms && ts.rows != [] && Keyed(ts)
  {
    ts.(tms := ts.tms[t := ts.tms[t].(timeoutTick := Tick(d), activated := true)],
        rows := InsertRows(ts.rows, t, Height(ts), d, ts.key),
        key := ts.key[t := Key(d, ts.clock)], clock := ts.clock + 1, random := Bump(ts.random))
  }

  /** rt_timer_start, not interrupted. */
  ghost function Start(ts: Ts, t: Timer): Ts
    requires TimerInv(ts) && CanStart(ts, t)
  {
    RemovedInv(ts, t);
    Put(Stop(ts, t), t, ts.now + ts.tms[t].initTick)
  }

  lemma RemovedInv(ts: Ts, t: Timer)
    requires TimerInv(ts) && t in ts.tms
    ensures TimerInv(Stop(ts, t)) && Stop(ts, t).Last() == Without(ts.Last(), t)
    ensures Absent(Stop(ts, t), t)
  {
    hide Tick, RowsOk, Absent, Without, ActiveOk, RemoveAll, Flags;
    RemovedRows(ts, t);
    var l, ts1 := ts.Last(), Stop(ts, t);
    RemovedLast(ts, t);
    RemovedActive(ts, t, ts1, ts1.Last());
  }

  lemma RemovedLast(ts: Ts, t: Timer)
    requires ts.rows != [] && t in ts.tms
    ensures Stop(ts, t).rows != [] && Stop(ts, t).Last() == Without(ts.Last(), t)
  {
    hide Without;
  }

  lemma RemovedActive(ts: Ts, t: Timer, ts1: Ts, l: seq<Timer>)
    requires TimerInv(ts) && t in ts.tms && l == Without(ts.Last(), t)
    requires ts1.tms == ts.tms[t := ts.tms[t].(activated := false)] && ts1.key == ts.key && ts1.now == ts.now && ts1.clock == ts.clock
    requires ts1.calls.stopping == ts.calls.stopping && ts1.rows != [] && ts1.Last() == l
    ensures Flags(ts1) && forall u :: u in l ==> ActiveOk(ts1, u)
  {
    hide Tick, RowsOk, Without;
    forall u | u in l ensures ActiveOk(ts1, u) { assert u in ts.Last() && ActiveOk(ts, u); }
  }

  lemma RemovedRows(ts: Ts, t: Timer)
    requires RowsOk(ts) && t in ts.tms
    ensures RowsOk(Stop(ts, t)) && Absent(Stop(ts, t), t)
  {
    hide Sorted, Sublist, Without;
    var ts1 := Stop(ts, t);
    forall r | 0 <= r < |ts1.rows| ensures Sorted(ts1.rows[r], ts1.key) { WithoutSorted(ts.rows[r], t, ts.key); }
    forall r | 0 <= r < |ts1.rows| - 1 ensures Sublist(ts1.rows[r], ts1.rows[r + 1]) {
      WithoutSublist(ts.rows[r], ts.rows[r + 1], t);
    }
    forall i | 0 <= i < |ts1.rows| ensures t !in ts1.rows[i] && forall u :: u in ts1.rows[i] ==> u in ts1.key {
      SortedKeys(ts.rows[i], ts.key);
    }
  }

  lemma SortedKeys(l: seq<Timer>, key: map<Timer, Key>)
    requires Sorted(l, key)
    ensures forall u :: u in l ==> u in key
  {
  }

  lemma StartInv(ts: Ts, t: Timer)
    requires TimerInv(ts) && CanStart(ts, t)
    ensures TimerInv(Start(ts, t))
    ensures var d := ts.now + ts.tms[t].initTick;
      (forall u :: u in ts.Last() ==> u in ts.key) && Start(ts, t).Last() == InsertBy(Without(ts.Last(), t), t, d, ts.key)
  {
    hide Put, Absent, InsertBy, Without, TimerInv, Tick;
    LastKeys(ts);
    RemovedInv(ts, t);
    PutInv(Stop(ts, t), t, ts.now + ts.tms[t].initTick);
  }

  lemma LastKeys(ts: Ts)
    requires TimerInv(ts)
    ensures ts.rows != [] && forall u :: u in ts.Last() ==> u in ts.key
  {
    forall u | u in ts.Last() ensures u in ts.key { assert ActiveOk(ts, u); }
  }

  lemma PutInv(ts: Ts, t: Timer, d: nat)
    requires TimerInv(ts) && t in ts.tms && Absent(ts, t) && ts.now <= d < ts.now + HALF
    ensures TimerInv(Put(ts, t, d))
    ensures Put(ts, t, d).Last() == InsertBy(ts.Last(), t, d, ts.key)
  {
    hide InsertBy, RowsOk, Tick, ActiveOk;
    assert Keyed(ts);
    hide Absent, Keyed;
    var ts1 := Put(ts, t, d);
    LastKeys(ts);
    assert ts1.Last() == InsertBy(ts.Last(), t, d, ts.key);
    InsertByMembers(ts.Last(), t, d, ts.key);
    StartRows(ts, t, Height(ts), d);
    RowsOnly(ts.(rows := ts1.rows, key := ts1.key), ts1);
    forall u | u in ts1.Last() ensures ActiveOk(ts1, u) { PutActive(ts, t, d, u); }
  }

  lemma RowsOnly(ts: Ts, ts1: Ts)
    requires RowsOk(ts) && ts1.rows == ts.rows && ts1.key == ts.key
    ensures RowsOk(ts1)
  {
  }

  lemma PutActive(ts: Ts, t: Timer, d: nat, u: Timer)
    requires t in ts.tms && ts.rows != [] && Absent(ts, t) && ts.now <= d < ts.now + HALF && (u == t || ActiveOk(ts, u))
    ensures ActiveOk(Put(ts, t, d), u)
  {
    hide Tick;
  }

  lemma StartRows(ts: Ts, t: Timer, h: nat, d: nat)
    requires TimerInv(ts) && 1 <= h <= |ts.rows| && Absent(ts, t)
    ensures RowsOk(ts.(rows := InsertRows(ts.rows, t, h, d, ts.key), key := ts.key[t := Key(d, ts.clock)]))
  {
    hide Sorted, Sublist, InsertBy, Tick;
    var key1, rows1, n := ts.key[t := Key(d, ts.clock)], InsertRows(ts.rows, t, h, d, ts.key), |ts.rows|;
    forall r | 0 <= r < n ensures Sorted(rows1[r], key1) {
      RowStamps(ts, r);
      if r >= n - h { InsertBySorted(ts.rows[r], t, d, ts.clock, ts.key); } else { SortedFrame(ts.rows[r], ts.key, key1); }
    }
    forall r | 0 <= r < n - 1 ensures Sublist(rows1[r], rows1[r + 1]) {
      AbsentFrom(ts, t, r + 1);
      InsertBySublist(ts.rows[r], ts.rows[r + 1], t, d, ts.key);
    }
  }

  lemma AbsentFrom(ts: Ts, t: Timer, r: nat)
    requires Absent(ts, t) && r < |ts.rows|
    ensures t !in ts.rows[r] && forall u :: u in ts.rows[r] ==> u in ts.key
  {
  }

  /** Everything in an upper row is in the last row. */
  lemma {:induction false} RowStamps(ts: Ts, r: nat)
    requires TimerInv(ts) && r < |ts.rows|
    ensures forall u :: u in ts.rows[r] ==> u in ts.Last() && ActiveOk(ts, u)
    decreases |ts.rows| - r
  {
    if r + 1 < |ts.rows| {
      SublistMembers(ts.rows[r], ts.rows[r + 1]);
      RowStamps(ts, r + 1);
    }
  }

  // ---------- rt_timer_start, interrupted ----------

  /** The first region of rt_timer_start. */
  ghost function StartRemove(ts: Ts, t: Timer): Ts
    requires t in ts.tms
  {
    Stop(ts, t).(calls := ts.calls.(removed := ts.calls.removed + multiset{t}))
  }

  /** Its due tick, read and stored with interrupts enabled. */
  ghost function StartTime(ts: Ts, t: Timer): Ts
    requires t in ts.tms
  {
    var d := ts.now + ts.tms[t].initTick;
    var stamp := if t in ts.key then ts.key[t].stamp else 0;
    ts.(tms := ts.tms[t := ts.tms[t].(timeoutTick := Tick(d))], key := ts.key[t := Key(d, stamp)],
        calls := ts.calls.(removed := ts.calls.removed - multiset{t}, timed := ts.calls.timed + multiset{t}))
  }

  /** The second region. */
  ghost function StartInsert(ts: Ts, t: Timer): Ts
    requires t in ts.tms && t in ts.key && ts.rows != [] && Keyed(ts)
  {
    Put(ts, t, ts.key[t].due).(calls := ts.calls.(timed := ts.calls.timed - multiset{t}))
  }

  /** The stored due tick of a timer is that of its due time. */
  ghost predicate Synced(ts: Ts) {
    && (forall t :: t in ts.key ==> t in ts.tms && ts.tms[t].timeoutTick == Tick(ts.key[t].due) && ts.key[t].due < ts.now + HALF)
    && forall t :: t in ts.calls.timed ==> t in ts.key
  }

  lemma CallsOnly(ts: Ts, ts1: Ts)
    requires TimerInv(ts) && ts1 == ts.(calls := ts1.calls) && ts1.calls.stopping == ts.calls.stopping
    ensures TimerInv(ts1)
  {
    hide Tick;
    RowsOnly(ts, ts1);
    hide RowsOk;
    forall t | t in ts1.Last() ensures ActiveOk(ts1, t) { assert ActiveOk(ts, t); }
  }

  lemma OutAbsent(ts: Ts, t: Timer)
    requires TimerInv(ts)
    ensures ts.rows != [] && Keyed(ts) && (t !in ts.Last() ==> Absent(ts, t))
  {
    hide RowsOk;
    forall r | 0 <= r < |ts.rows| ensures forall u :: u in ts.rows[r] ==> u in ts.key && u in ts.Last() { RowStamps(ts, r); }
  }

  /** Storing a due tick in a timer that is out of the list disturbs no row. */
  lemma Retimed(ts: Ts, t: Timer, d: nat)
    requires TimerInv(ts) && t in ts.tms && t !in ts.Last()
    ensures var ts1 := ts.(tms := ts.tms[t := ts.tms[t].(timeoutTick := Tick(d))]); TimerInv(ts1) && Absent(ts1, t)
  {
    hide Tick;
    OutAbsent(ts, t);
    var ts1 := ts.(tms := ts.tms[t := ts.tms[t].(timeoutTick := Tick(d))]);
    RowsOnly(ts, ts1);
    hide RowsOk;
    forall u | u in ts1.Last() ensures ActiveOk(ts1, u) { assert ActiveOk(ts, u); }
  }

  lemma PutRetimed(ts: Ts, t: Timer, d: nat)
    requires t in ts.tms && ts.rows != [] && Keyed(ts)
    ensures var ts1 := ts.(tms := ts.tms[t := ts.tms[t].(timeoutTick := Tick(d))]); Keyed(ts1) && Put(ts1, t, d) == Put(ts, t, d)
  {
    hide Tick;
    var c := ts.tms[t].(timeoutTick := Tick(d));
    assert ts.tms[t := c][t := c.(activated := true)] == ts.tms[t := c.(activated := true)];
  }

  /** With due time k in place of its own, member t of a row in order is still behind the one before it and ahead of the
      one after it. */
  ghost predicate Between(l: seq<Timer>, t: Timer, k: Key, key: map<Timer, Key>)
    requires t in l && forall u :: u in l ==> u in key
  {
    var i := IndexOf(l, t);
    (i > 0 ==> Less(key[l[i - 1]], k)) && (i + 1 < |l| ==> Less(k, key[l[i + 1]]))
  }

  ghost predicate StaysInOrder(ts: Ts, t: Timer)
    requires TimerInv(ts) && CanStart(ts, t)
  {
    LastKeys(ts);
    t in ts.Last() ==> Between(ts.Last(), t, StartTime(ts, t).key[t], ts.key)
  }

  /** Whoever has started the timer since the first region: storing the due tick keeps the rows in order iff the timer
      is in none, or the new time is between those of its neighbours. */
  lemma StartTimeIff(ts: Ts, t: Timer)
    requires TimerInv(ts) && CanStart(ts, t)
    ensures TimerInv(StartTime(ts, t)) <==> StaysInOrder(ts, t)
  {
    hide Tick, Sorted, Between, ActiveOk, RowsOk, TimerInv;
    LastKeys(ts);
    LastInOrder(ts);
    if t !in ts.Last() {
      StartTimeOut(ts, t);
    } else {
      SortedNoDup(ts.Last(), ts.key);
      hide NoDup;
      RetimedOrder(ts.Last(), t, StartTime(ts, t).key[t], ts.key);
      if Between(ts.Last(), t, StartTime(ts, t).key[t], ts.key) { StartTimeIn(ts, t); } else { NotInOrder(StartTime(ts, t)); }
    }
  }

  lemma LastInOrder(ts: Ts)
    requires TimerInv(ts)
    ensures ts.rows != [] && Sorted(ts.Last(), ts.key)
  {
    LastSorted(ts);
  }

  lemma StartTimeOut(ts: Ts, t: Timer)
    requires TimerInv(ts) && t in ts.tms && t !in ts.Last()
    ensures TimerInv(StartTime(ts, t))
  {
    hide Tick;
    OutAbsent(ts, t);
    var ts1 := StartTime(ts, t);
    RetimedRows(ts, t, ts1.key[t]);
    RowsOnly(ts.(key := ts1.key), ts1);
    hide RowsOk;
    forall u | u in ts1.Last() ensures ActiveOk(ts1, u) { assert ActiveOk(ts, u); }
  }

  lemma StartTimeIn(ts: Ts, t: Timer)
    requires TimerInv(ts) && CanStart(ts, t) && t in ts.Last() && Sorted(ts.Last(), StartTime(ts, t).key)
    ensures TimerInv(StartTime(ts, t))
  {
    hide Tick, Sorted, Sublist;
    var ts1 := StartTime(ts, t);
    forall r: nat | r < |ts.rows| ensures Sorted(ts.rows[r], ts1.key) { RowInOrder(ts, r, ts1.key); }
    assert RowsOk(ts1);
    hide RowsOk;
    forall u | u in ts1.Last() ensures ActiveOk(ts1, u) { assert ActiveOk(ts, u); }
  }

  /** A row is in order when the last one is. */
  lemma {:induction false} RowInOrder(ts: Ts, r: nat, key: map<Timer, Key>)
    requires RowsOk(ts) && r < |ts.rows| && Sorted(ts.Last(), key)
    ensures Sorted(ts.rows[r], key)
    decreases |ts.rows| - r
  {
    hide Sorted, Sublist;
    if r + 1 < |ts.rows| {
      RowInOrder(ts, r + 1, key);
      SublistSorted(ts.rows[r], ts.rows[r + 1], key);
    }
  }

  lemma {:induction false} SublistSorted(a: seq<Timer>, b: seq<Timer>, key: map<Timer, Key>)
    requires Sublist(a, b) && Sorted(b, key)
    ensures Sorted(a, key)
    decreases |b|
  {
    if a != [] {
      SortedTail(b, key);
      if a[0] == b[0] {
        SublistSorted(a[1..], b[1..], key);
        SublistMembers(a[1..], b[1..]);
        SortedCons(a[0], a[1..], key);
        assert a == [a[0]] + a[1..];
      } else {
        SublistSorted(a, b[1..], key);
      }
    }
  }

  lemma RetimedOrder(l: seq<Timer>, t: Timer, k: Key, key: map<Timer, Key>)
    requires Sorted(l, key) && NoDup(l) && t in l
    ensures Sorted(l, key[t := k]) <==> Between(l, t, k, key)
  {
    var i, key1 := IndexOf(l, t), key[t := k];
    if Between(l, t, k, key) {
      forall a, b | 0 <= a < b < |l| ensures Less(key1[l[a]], key1[l[b]]) {
        if a == i { assert Less(k, key[l[i + 1]]); } else if b == i { assert Less(key[l[i - 1]], k); }
      }
    } else {
      assert i > 0 ==> key1[l[i - 1]] == key[l[i - 1]];
      assert i + 1 < |l| ==> key1[l[i + 1]] == key[l[i + 1]];
      assert key1[l[i]] == k;
    }
  }

  lemma RetimedRows(ts: Ts, t: Timer, k: Key)
    requires RowsOk(ts) && Absent(ts, t)
    ensures RowsOk(ts.(key := ts.key[t := k]))
  {
    hide Sorted, Sublist;
    forall r | 0 <= r < |ts.rows| ensures Sorted(ts.rows[r], ts.key[t := k]) { SortedFrame(ts.rows[r], ts.key, ts.key[t := k]); }
  }

  /** The second region of rt_timer_start keeps the rows in order iff the timer is not in the list; otherwise it is in
      the last row twice. */
  lemma StartInsertIff(ts: Ts, t: Timer)
    requires TimerInv(ts) && Synced(ts) && t in ts.key && ts.now <= ts.key[t].due
    ensures t in ts.tms && Keyed(ts) && (TimerInv(StartInsert(ts, t)) <==> t !in ts.Last())
  {
    hide RowsOk, ActiveOk, Tick, Absent;
    OutAbsent(ts, t);
    var d := ts.key[t].due;
    if t !in ts.Last() {
      PutInv(ts, t, d);
      CallsOnly(Put(ts, t, d), StartInsert(ts, t));
    } else {
      InsertedTwice(ts, t);
    }
  }

  lemma InsertedTwice(ts: Ts, t: Timer)
    requires ts.rows != [] && Keyed(ts) && t in ts.tms && t in ts.key && t in ts.Last()
    ensures !TimerInv(StartInsert(ts, t))
  {
    hide Tick, InsertBy, Keyed, TimerInv, NoDup, Sorted, Height;
    KeyedLast(ts);
    var ts1 := StartInsert(ts, t);
    InsertByTwice(ts.Last(), t, ts.key[t].due, ts.key);
    assert ts1.Last() == InsertBy(ts.Last(), t, ts.key[t].due, ts.key);
    NotSortedTwice(ts1.Last(), ts1.key);
    NotInOrder(ts1);
  }

  lemma NotInOrder(ts: Ts)
    requires ts.rows != [] && !Sorted(ts.Last(), ts.key)
    ensures !TimerInv(ts)
  {
    hide Sorted, ActiveOk;
  }

  lemma KeyedLast(ts: Ts)
    requires ts.rows != [] && Keyed(ts)
    ensures forall u :: u in ts.Last() ==> u in ts.key
  {
  }

  lemma {:induction false} InsertByTwice(l: seq<Timer>, t: Timer, d: nat, key: map<Timer, Key>)
    requires (forall u :: u in l ==> u in key) && t in l
    ensures !NoDup(InsertBy(l, t, d, key))
  {
    var r := InsertBy(l, t, d, key);
    if l == [] || key[l[0]].due > d {
      assert r == [t] + l;
      var i :| 0 <= i < |l| && l[i] == t;
      assert r[0] == r[i + 1];
    } else {
      var rest := InsertBy(l[1..], t, d, key);
      assert r == [l[0]] + rest;
      if t in l[1..] {
        InsertByTwice(l[1..], t, d, key);
        var i, j :| 0 <= i < j < |rest| && rest[i] == rest[j];
        assert r[i + 1] == r[j + 1];
      } else {
        InsertByMembers(l[1..], t, d, key);
        var i :| 0 <= i < |rest| && rest[i] == t;
        assert r[0] == r[i + 1];
      }
    }
  }

  lemma NotSortedTwice(l: seq<Timer>, key: map<Timer, Key>)
    requires !NoDup(l)
    ensures !Sorted(l, key)
  {
  }

  /** A start of the same timer from an interrupt between the two regions is such a case. */
  lemma StartedInTheGap(ts: Ts, t: Timer)
    requires TimerInv(ts) && CanStart(ts, t) && t in ts.calls.timed
    ensures var ts1 := Start(ts, t);
      && TimerInv(ts1) && t in ts1.calls.timed && t in ts1.tms && t in ts1.key && ts1.now <= ts1.key[t].due && Keyed(ts1)
      && !TimerInv(StartInsert(ts1, t))
  {
    hide RowsOk, Absent, Tick, InsertBy;
    StartInv(ts, t);
    RemovedInv(ts, t);
    var ts1 := Start(ts, t);
    OutAbsent(ts1, t);
    StartedIn(ts, t);
    InsertedTwice(ts1, t);
  }

  lemma StartedIn(ts: Ts, t: Timer)
    requires TimerInv(ts) && CanStart(ts, t)
    ensures forall u :: u in Start(ts, t).Last() <==> u in ts.Last() || u == t
  {
    hide TimerInv, Tick, InsertBy, Without, Put;
    StartInv(ts, t);
    InsertByMembers(Without(ts.Last(), t), t, ts.now + ts.tms[t].initTick, ts.key);
  }

  // ---------- rt_timer_stop, interrupted ----------

  /** rt_timer_stop found the timer active. */
  ghost function StopTest(ts: Ts, t: Timer): Ts {
    ts.(calls := ts.calls.(tested := ts.calls.tested + multiset{t}))
  }

  /** The region of rt_timer_stop: the timer, whatever it is by now, leaves the rows; it keeps its flag. */
  ghost function StopRemove(ts: Ts, t: Timer): Ts {
    ts.(rows := RemoveAll(ts.rows, t),
        calls := ts.calls.(tested := ts.calls.tested - multiset{t}, stopping := ts.calls.stopping + multiset{t}))
  }

  /** The flag is cleared, with interrupts enabled. */
  ghost function StopClear(ts: Ts, t: Timer): Ts
    requires t in ts.tms
  {
    ts.(tms := ts.tms[t := ts.tms[t].(activated := false)], calls := ts.calls.(stopping := ts.calls.stopping - multiset{t}))
  }

  /** After the region the timer is in no row though it may be active, and the rows are in order. */
  lemma StopRemoveInv(ts: Ts, t: Timer)
    requires TimerInv(ts) && t in ts.tms
    ensures var ts1 := StopRemove(ts, t); TimerInv(ts1) && Absent(ts1, t) && ts1.Last() == Without(ts.Last(), t) && ts1.tms == ts.tms
  {
    hide Tick, TimerInv, RowsOk, Absent, Without, RemoveAll;
    RemovedInv(ts, t);
    var ts0, ts1 := Stop(ts, t), StopRemove(ts, t);
    assert ts1.rows == ts0.rows;
    SameAbsent(ts0, ts1, t);
    RowsOnlyInv(ts0, ts1);
    StillActive(ts, ts1, t);
  }

  lemma RowsOnlyInv(ts: Ts, ts1: Ts)
    requires TimerInv(ts) && ts1.rows == ts.rows && ts1.key == ts.key
    ensures RowsOk(ts1)
  {
  }

  lemma StillActive(ts: Ts, ts1: Ts, t: Timer)
    requires TimerInv(ts) && t in ts.tms && ts1.rows != [] && RowsOk(ts1) && ts1.Last() == Without(ts.Last(), t)
    requires ts1 == ts.(rows := ts1.rows, calls := ts1.calls) && ts1.calls.stopping == ts.calls.stopping + multiset{t}
    ensures TimerInv(ts1)
  {
    hide Tick, RowsOk, Without;
    forall u | u in ts1.Last() ensures ActiveOk(ts1, u) { assert ActiveOk(ts, u); }
  }

  lemma SameAbsent(ts: Ts, ts1: Ts, t: Timer)
    requires Absent(ts, t) && ts1.rows == ts.rows && ts1.key == ts.key
    ensures Absent(ts1, t)
  {
  }

  /** From any state: clearing the flag leaves the timer inactive and in no row, and everything in order, iff the timer
      is not in the list. */
  lemma StopClearIff(ts: Ts, t: Timer)
    requires TimerInv(ts) && t in ts.tms
    ensures TimerInv(StopClear(ts, t)) <==> t !in ts.Last()
    ensures t !in ts.Last() ==> Absent(StopClear(ts, t), t) && !StopClear(ts, t).tms[t].activated
  {
    hide Tick, RowsOk, Absent;
    var ts1 := StopClear(ts, t);
    RowsOnly(ts, ts1);
    OutAbsent(ts, t);
    if t !in ts.Last() {
      SameAbsent(ts, ts1, t);
      forall u | u in ts1.Last() ensures ActiveOk(ts1, u) { assert ActiveOk(ts, u); }
    }
  }

  // ---------- rt_timer_check ----------

  ghost predicate Expired(ts: Ts)
    requires TimerInv(ts)
  {
    ts.Last() != [] && ts.key[ts.Last()[0]].due <= ts.now
  }

  /** What the timers must satisfy for rt_timer_check to end: a periodic timer about to fire has a period. */
  ghost predicate PeriodsOk(ts: Ts) {
    forall t :: t in ts.tms && ts.tms[t].activated && ts.tms[t].periodic ==> 0 < ts.tms[t].initTick < HALF
  }

  /** Firing the first timer of the last row; a periodic one is started again. The callback starts and
      stops no timer. */
  ghost function Fire(ts: Ts): Ts
    requires TimerInv(ts) && PeriodsOk(ts) && Expired(ts)
  {
    var t := ts.Last()[0];
    RemovedInv(ts, t);
    var ts1 := Stop(ts, t);
    if ts.tms[t].periodic then Start(ts1, t) else ts1
  }

  /** The timers of a list that are due. */
  ghost function DueList(l: seq<Timer>, key: map<Timer, Key>, now: nat): seq<Timer>
    requires forall u :: u in l ==> u in key
  {
    if l == [] then []
    else if key[l[0]].due <= now then [l[0]] + DueList(l[1..], key, now)
    else DueList(l[1..], key, now)
  }

  lemma {:induction false} InsertByLater(l: seq<Timer>, t: Timer, k: Key, key: map<Timer, Key>, now: nat)
    requires k.due > now && (forall u :: u in l ==> u in key) && t !in l
    ensures forall u :: u in InsertBy(l, t, k.due, key) ==> u in key[t := k]
    ensures DueList(InsertBy(l, t, k.due, key), key[t := k], now) == DueList(l, key, now)
  {
    InsertByMembers(l, t, k.due, key);
    if l != [] && key[l[0]].due <= k.due {
      InsertByLater(l[1..], t, k, key, now);
      assert InsertBy(l, t, k.due, key)[1..] == InsertBy(l[1..], t, k.due, key);
    } else {
      assert ([t] + l)[1..] == l;
      DueListFrame(l, key, key[t := k], now);
    }
  }

  lemma {:induction false} DueListFrame(l: seq<Timer>, key: map<Timer, Key>, key1: map<Timer, Key>, now: nat)
    requires forall u :: u in l ==> u in key && u in key1 && key1[u] == key[u]
    ensures DueList(l, key1, now) == DueList(l, key, now)
  {
    if l != [] { DueListFrame(l[1..], key, key1, now); }
  }

  /** One timer fired: it is off the list or due later, and the others keep their places. */
  lemma FireInv(ts: Ts)
    requires TimerInv(ts) && PeriodsOk(ts) && Expired(ts)
    ensures var ts1 := Fire(ts);
      && TimerInv(ts1) && PeriodsOk(ts1) && |ts1.rows| == |ts.rows| && ts1.now == ts.now
      && (forall u :: u in ts.Last() ==> u in ts.key) && (forall u :: u in ts1.Last() ==> u in ts1.key)
      && DueList(ts.Last(), ts.key, ts.now) == [ts.Last()[0]] + DueList(ts1.Last(), ts1.key, ts.now)
  {
    hide Sorted, Sublist, InsertBy, RowsOk, Tick, Absent;
    var t := ts.Last()[0];
    assert ActiveOk(ts, t);
    RemovedInv(ts, t);
    LastKeys(ts);
    SortedNoDup(ts.Last(), ts.key) by { LastSorted(ts); }
    WithoutFirst(ts.Last());
    hide Without;
    if ts.tms[t].periodic { Refire(Stop(ts, t), t); }
    hide ActiveOk;
  }

  lemma LastSorted(ts: Ts)
    requires RowsOk(ts)
    ensures Sorted(ts.Last(), ts.key)
  {
  }

  /** Starting the timer again does not make it due now. */
  lemma Refire(ts: Ts, t: Timer)
    requires TimerInv(ts) && CanStart(ts, t) && Absent(ts, t) && 0 < ts.tms[t].initTick
    ensures var ts1 := Start(ts, t);
      && TimerInv(ts1) && (forall u :: u in ts.Last() ==> u in ts.key) && (forall u :: u in ts1.Last() ==> u in ts1.key)
      && DueList(ts1.Last(), ts1.key, ts.now) == DueList(ts.Last(), ts.key, ts.now)
      && ts1.now == ts.now && |ts1.rows| == |ts.rows| && ts1.tms == ts.tms[t := ts1.tms[t]]
      && ts1.tms[t].initTick == ts.tms[t].initTick
  {
    hide InsertBy, RowsOk, ActiveOk, Tick;
    StartInv(ts, t);
    LastKeys(ts);
    LastKeys(Start(ts, t));
    assert t !in ts.Last();
    hide TimerInv, Absent;
    RestartFrame(ts, t);
    var k := Key(ts.now + ts.tms[t].initTick, ts.clock);
    InsertByLater(ts.Last(), t, k, ts.key, ts.now);
  }

  lemma CanIs(ts: Ts, t: Timer)
    requires CanStart(ts, t)
    ensures t in ts.tms && ts.rows != []
  {
  }

  /** What rt_timer_start does to the record and the due time. */
  lemma StartedRecord(ts: Ts, t: Timer)
    requires TimerInv(ts) && CanStart(ts, t)
    ensures var ts1, d := Start(ts, t), ts.now + ts.tms[t].initTick;
      && ts1.key == ts.key[t := Key(d, ts.clock)] && ts1.now == ts.now
      && ts1.tms == ts.tms[t := ts.tms[t].(timeoutTick := Tick(d), activated := true)]
  {
    hide TimerInv, Tick, Height, Keyed, CanStart, Put, Stop;
    CanIs(ts, t);
    RemovedInv(ts, t);
    StopIs(ts, t);
    PutIs(Stop(ts, t), t, ts.now + ts.tms[t].initTick);
  }

  lemma StopIs(ts: Ts, t: Timer)
    requires t in ts.tms && ts.rows != []
    ensures var s := Stop(ts, t);
      && s.tms == ts.tms[t := ts.tms[t].(activated := false)] && s.rows != []
      && s.key == ts.key && s.now == ts.now && s.clock == ts.clock
  {
  }

  lemma PutIs(ts: Ts, t: Timer, d: nat)
    requires t in ts.tms && ts.rows != [] && Keyed(ts)
    ensures var s := Put(ts, t, d);
      && s.tms == ts.tms[t := ts.tms[t].(timeoutTick := Tick(d), activated := true)]
      && s.key == ts.key[t := Key(d, ts.clock)] && s.now == ts.now
  {
    hide Tick, Keyed, InsertRows, Height;
  }

  lemma RestartFrame(ts: Ts, t: Timer)
    requires TimerInv(ts) && CanStart(ts, t)
    ensures var ts1 := Start(ts, t);
      && ts1.key == ts.key[t := Key(ts.now + ts.tms[t].initTick, ts.clock)]
      && ts1.now == ts.now && |ts1.rows| == |ts.rows| && t in ts1.tms && ts1.tms == ts.tms[t := ts1.tms[t]]
      && ts1.tms[t].initTick == ts.tms[t].initTick
  {
    hide TimerInv, Tick, InsertRows;
    StartedRecord(ts, t);
    hide Start, CanStart;
    StartedHeight(ts, t);
  }

  lemma StartedHeight(ts: Ts, t: Timer)
    requires TimerInv(ts) && CanStart(ts, t)
    ensures |Start(ts, t).rows| == |ts.rows|
  {
    hide TimerInv, Tick, Absent, Height, Keyed;
    RemovedInv(ts, t);
  }

  /** What became of the timers: t is the only one whose record or due time changed. */
  ghost predicate FiredOne(ts: Ts, ts1: Ts, t: Timer)
    requires t in ts.tms
  {
    && t in ts1.tms && ts1.tms == ts.tms[t := ts1.tms[t]] && ts1.now == ts.now
    && (forall u :: u in ts.key && u != t ==> u in ts1.key && ts1.key[u] == ts.key[u])
    && ts1.tms[t].periodic == ts.tms[t].periodic && ts1.tms[t].initTick == ts.tms[t].initTick
    && Rearmed(ts1, t)
  }

  /** A periodic timer that has fired is due one period from now; a one-shot timer is off. */
  ghost predicate Rearmed(ts: Ts, t: Timer)
    requires t in ts.tms
  {
    if ts.tms[t].periodic then ts.tms[t].activated && t in ts.key && ts.key[t].due == ts.now + ts.tms[t].initTick
    else !ts.tms[t].activated
  }

  lemma FireEffect(ts: Ts)
    requires TimerInv(ts) && PeriodsOk(ts) && Expired(ts)
    ensures ts.Last()[0] in ts.tms && FiredOne(ts, Fire(ts), ts.Last()[0])
  {
    hide TimerInv, RowsOk, Absent, Tick, InsertBy, Without, Start, RemoveAll;
    LastActive(ts);
    var t := ts.Last()[0];
    RemovedInv(ts, t);
    if ts.tms[t].periodic { RestartEffect(Stop(ts, t), t); }
  }

  lemma RestartEffect(ts: Ts, t: Timer)
    requires TimerInv(ts) && CanStart(ts, t)
    ensures FiredOne(ts.(tms := ts.tms[t := ts.tms[t].(activated := true)]), Start(ts, t), t) <== ts.tms[t].periodic
  {
    RestartFrame(ts, t);
    hide TimerInv, Absent, Tick;
  }

  /** The active timers that are due, in order. */
  ghost function Due(ts: Ts): seq<Timer>
    requires TimerInv(ts)
  {
    LastKeys(ts);
    DueList(ts.Last(), ts.key, ts.now)
  }

  /** rt_timer_check, and the timers it fires. */
  ghost function Check(ts: Ts): (Ts, seq<Timer>)
    requires TimerInv(ts) && PeriodsOk(ts)
    decreases |Due(ts)|
  {
    LastKeys(ts);
    if !Expired(ts) then (ts, [])
    else
      FireInv(ts);
      var (ts1, fired) := Check(Fire(ts));
      (ts1, [ts.Last()[0]] + fired)
  }

  /** The fired timers are re-armed or off, the others are as before. */
  ghost predicate Fired(ts: Ts, ts1: Ts, fired: seq<Timer>) {
    && ts1.now == ts.now && ts1.tms.Keys == ts.tms.Keys
    && (forall u :: u in ts.tms && u in fired ==> Rearmed(ts1, u))
    && (forall u :: u in ts.tms && u !in fired ==> ts1.tms[u] == ts.tms[u])
    && (forall u :: u in ts.key && u !in fired ==> u in ts1.key && ts1.key[u] == ts.key[u])
  }

  /** rt_timer_check ends; it fires exactly the timers that are due, in the order of their times and, for equal
      times, of their starts; after it no timer is due; a fired one-shot timer is off, a fired periodic timer is
      due one period from now, and no other timer is touched. */
  lemma CheckFiresDue(ts: Ts)
    requires TimerInv(ts) && PeriodsOk(ts)
    ensures var (ts1, fired) := Check(ts);
      && TimerInv(ts1) && PeriodsOk(ts1) && fired == Due(ts) && Fired(ts, ts1, fired)
      && (forall u :: u in ts1.Last() ==> u in ts1.key && ts1.now < ts1.key[u].due)
    decreases |Due(ts)|
  {
    hide PeriodsOk, DueList, TimerInv, Fire, Fired, FiredOne;
    LastKeys(ts);
    if Expired(ts) {
      FireInv(ts);
      FireEffect(ts);
      var ts1 := Fire(ts);
      CheckFiresDue(ts1);
      FiredStaysOff(ts);
      FiredMore(ts, ts1, Check(ts1).0, ts.Last()[0], Check(ts1).1);
    } else {
      NothingDue(ts);
      NothingFired(ts);
    }
  }

  lemma NothingFired(ts: Ts)
    ensures Fired(ts, ts, [])
  {
  }

  lemma FiredStaysOff(ts: Ts)
    requires TimerInv(ts) && PeriodsOk(ts) && Expired(ts)
    ensures TimerInv(Fire(ts)) && ts.Last()[0] !in Due(Fire(ts))
  {
    hide TimerInv, Fire, DueList;
    FireInv(ts);
    FireEffect(ts);
    LastActive(ts);
    var t := ts.Last()[0];
    NotTwice(Fire(ts), t);
  }

  lemma LastActive(ts: Ts)
    requires TimerInv(ts)
    ensures ts.rows != [] && forall t :: t in ts.Last() ==> t in ts.tms && ts.tms[t].activated
  {
  }

  lemma FiredMore(ts: Ts, ts1: Ts, ts2: Ts, t: Timer, fired: seq<Timer>)
    requires t in ts.tms && FiredOne(ts, ts1, t) && Fired(ts1, ts2, fired) && t !in fired
    ensures Fired(ts, ts2, [t] + fired)
  {
  }

  lemma NothingDue(ts: Ts)
    requires TimerInv(ts) && !Expired(ts)
    ensures Due(ts) == [] && forall u :: u in ts.Last() ==> u in ts.key && ts.now < ts.key[u].due
  {
    LastKeys(ts);
    LastSorted(ts);
    var l := ts.Last();
    forall u | u in l ensures ts.now < ts.key[u].due { SortedHead(l, u, ts.key); }
    NoneDue(l, ts.key, ts.now);
  }

  lemma {:induction false} NoneDue(l: seq<Timer>, key: map<Timer, Key>, now: nat)
    requires forall u :: u in l ==> u in key && now < key[u].due
    ensures DueList(l, key, now) == []
  {
    if l != [] { NoneDue(l[1..], key, now); }
  }

  lemma {:induction false} DueMembers(l: seq<Timer>, key: map<Timer, Key>, now: nat)
    requires forall u :: u in l ==> u in key
    ensures forall u :: u in DueList(l, key, now) ==> u in l && key[u].due <= now
  {
    if l != [] { DueMembers(l[1..], key, now); }
  }

  /** A timer that has fired is not due again. */
  lemma NotTwice(ts: Ts, t: Timer)
    requires TimerInv(ts) && t in ts.tms && Rearmed(ts, t) && (ts.tms[t].periodic ==> 0 < ts.tms[t].initTick)
    ensures t !in Due(ts)
  {
    LastKeys(ts);
    DueMembers(ts.Last(), ts.key, ts.now);
  }

  /** In a row in order, the due timers come first. */
  lemma {:induction false} DuePrefix(l: seq<Timer>, key: map<Timer, Key>, now: nat)
    requires Sorted(l, key)
    ensures var d := DueList(l, key, now);
      |d| <= |l| && d == l[..|d|] && forall i :: |d| <= i < |l| ==> now < key[l[i]].due
  {
    if l != [] {
      SortedTail(l, key);
      DuePrefix(l[1..], key, now);
      if key[l[0]].due > now {
        NoneDue(l, key, now);
      } else {
        var d := DueList(l[1..], key, now);
        assert DueList(l, key, now) == [l[0]] + d && l[1..][..|d|] == l[1..|d| + 1];
      }
    }
  }

  // ---------- next timeout ----------

  /** rt_timer_list_next_timeout */
  ghost function NextTimeout(ts: Ts): nat
    requires TimerInv(ts)
  {
    if ts.Last() == [] then TICK_MAX
    else assert ActiveOk(ts, ts.Last()[0]); ts.tms[ts.Last()[0]].timeoutTick
  }

  /** The next timeout is the tick of the earliest due time of all active timers that nobody is stopping. */
  lemma NextTimeoutIsEarliest(ts: Ts, t: Timer)
    requires TimerInv(ts) && t in ts.tms && ts.tms[t].activated && t !in ts.calls.stopping
    ensures ts.Last() != [] && ts.Last()[0] in ts.key && t in ts.key
    ensures ts.key[ts.Last()[0]].due <= ts.key[t].due && NextTimeout(ts) == Tick(ts.key[ts.Last()[0]].due)
  {
    hide Tick;
    assert ActiveOk(ts, ts.Last()[0]) && ActiveOk(ts, t);
    LastSorted(ts);
    SortedHead(ts.Last(), t, ts.key);
  }

  // ---------- runs ----------

  datatype TimerStep =
    | StartStep(t: Timer)                            // rt_timer_start by a caller with interrupts disabled
    | StartRemoveStep(t: Timer)                      // the parts of any other rt_timer_start
    | StartTimeStep(t: Timer)
    | StartInsertStep(t: Timer)
    | StopStep(t: Timer)                             // rt_timer_stop by a caller with interrupts disabled
    | StopTestStep(t: Timer)                         // the parts of any other rt_timer_stop
    | StopRemoveStep(t: Timer)
    | StopClearStep(t: Timer)
    | SetTimeStep(t: Timer, time: nat)
    | SetPeriodicStep(t: Timer, periodic: bool)
    | CheckStep
    | TickStep

  /** May the step be taken? A run ends where the rest of an rt_timer_start or rt_timer_stop meets a timer that another
      call has started in the meantime and this would upset the rows: see StartTimeIff, StartInsertIff, StopClearIff. */
  ghost predicate TimerEnabled(ts: Ts, step: TimerStep)
    requires TimerInv(ts)
  {
    match step
    case StartStep(t) => CanStart(ts, t)
    case StartRemoveStep(t) => t in ts.tms
    case StartTimeStep(t) => t in ts.calls.removed && CanStart(ts, t) && StaysInOrder(ts, t)
    case StartInsertStep(t) =>
      t in ts.calls.timed && t in ts.tms && t in ts.key && ts.now <= ts.key[t].due < ts.now + HALF && t !in ts.Last()
    case StopStep(t) => t in ts.tms
    case StopTestStep(t) => t in ts.tms && ts.tms[t].activated
    case StopRemoveStep(t) => t in ts.tms && t in ts.calls.tested
    case StopClearStep(t) => t in ts.tms && t in ts.calls.stopping && t !in ts.Last()
    case SetTimeStep(t, time) => t in ts.tms && time < TICKS
    case SetPeriodicStep(t, _) => t in ts.tms
    case CheckStep => PeriodsOk(ts)
    // rt_timer_check has run recently enough
    case TickStep => forall t :: t in ts.Last() && t in ts.key ==> ts.now < ts.key[t].due + LATE
  }

  ghost function TimerNext(ts: Ts, step: TimerStep): Ts
    requires TimerInv(ts) && TimerEnabled(ts, step)
  {
    match step
    case StartStep(t) => Start(ts, t)
    case StartRemoveStep(t) => StartRemove(ts, t)
    case StartTimeStep(t) => StartTime(ts, t)
    case StartInsertStep(t) => OutAbsent(ts, t); StartInsert(ts, t)
    case StopStep(t) => if ts.tms[t].activated then Stop(ts, t) else ts
    case StopTestStep(t) => StopTest(ts, t)
    case StopRemoveStep(t) => StopRemove(ts, t)
    case StopClearStep(t) => StopClear(ts, t)
    case SetTimeStep(t, time) => ts.(tms := ts.tms[t := ts.tms[t].(initTick := time)])
    case SetPeriodicStep(t, periodic) => ts.(tms := ts.tms[t := ts.tms[t].(periodic := periodic)])
    case CheckStep => Check(ts).0
    case TickStep => ts.(now := ts.now + 1)
  }

  lemma TimerStepInv(ts: Ts, step: TimerStep)
    requires TimerInv(ts) && TimerEnabled(ts, step)
    ensures TimerInv(TimerNext(ts, step)) && |TimerNext(ts, step).rows| == |ts.rows|
  {
    hide Sorted, Sublist, Tick;
    match step {
      case StartStep(t) => StartInv(ts, t);
      case StartRemoveStep(t) => RemovedInv(ts, t); CallsOnly(Stop(ts, t), StartRemove(ts, t));
      case StartTimeStep(t) => StartTimeIff(ts, t);
      case StartInsertStep(t) =>
        OutAbsent(ts, t);
        PutInv(ts, t, ts.key[t].due);
        CallsOnly(Put(ts, t, ts.key[t].due), StartInsert(ts, t));
      case StopStep(t) => RemovedInv(ts, t);
      case StopTestStep(t) => CallsOnly(ts, StopTest(ts, t));
      case StopRemoveStep(t) => StopRemoveInv(ts, t);
      case StopClearStep(t) => StopClearIff(ts, t);
      case SetTimeStep(t, time) => SameRows(ts, TimerNext(ts, step));
      case SetPeriodicStep(t, periodic) => SameRows(ts, TimerNext(ts, step));
      case CheckStep => CheckFiresDue(ts); CheckRows(ts);
      case TickStep => SameRows(ts, TimerNext(ts, step));
    }
  }

  lemma SameRows(ts: Ts, ts1: Ts)
    requires TimerInv(ts) && ts1.rows == ts.rows && ts1.key == ts.key && ts1.clock == ts.clock
    requires ts1.tms.Keys == ts.tms.Keys && ts.now <= ts1.now && ts1.calls.stopping == ts.calls.stopping
    requires forall t :: t in ts.tms ==> ts1.tms[t].activated == ts.tms[t].activated && ts1.tms[t].timeoutTick == ts.tms[t].timeoutTick
    requires forall t :: t in ts.Last() && t in ts.key ==> ts1.now <= ts.key[t].due + LATE
    ensures TimerInv(ts1)
  {
    hide Tick;
    RowsOnly(ts, ts1);
    hide RowsOk;
    forall t | t in ts1.Last() ensures ActiveOk(ts1, t) { assert ActiveOk(ts, t); }
  }

  lemma CheckRows(ts: Ts)
    requires TimerInv(ts) && PeriodsOk(ts)
    ensures |Check(ts).0.rows| == |ts.rows|
    decreases |Due(ts)|
  {
    LastKeys(ts);
    if Expired(ts) {
      FireInv(ts);
      CheckRows(Fire(ts));
    }
  }

  /** A step from ts to ts1. The functions that describe steps are defined where the invariant holds; that it holds in
      every state of a run is shown, not assumed. */
  ghost predicate TimerSteps(ts: Ts, step: TimerStep, ts1: Ts) {
    TimerInv(ts) ==> TimerEnabled(ts, step) && ts1 == TimerNext(ts, step)
  }

  ghost predicate TimerRun(tss: seq<Ts>, steps: seq<TimerStep>) {
    && |tss| == |steps| + 1
    && forall i :: 0 <= i < |steps| ==> TimerSteps(tss[i], steps[i], tss[i + 1])
  }

  lemma {:induction false} TimerRunInv(tss: seq<Ts>, steps: seq<TimerStep>, i: nat)
    requires TimerRun(tss, steps) && TimerInv(tss[0]) && i < |tss|
    ensures TimerInv(tss[i]) && (i < |steps| ==> TimerEnabled(tss[i], steps[i]))
  {
    hide TimerInv, TimerEnabled, TimerNext;
    if i > 0 {
      TimerRunInv(tss, steps, i - 1);
      TimerStepInv(tss[i - 1], steps[i - 1]);
      assert TimerSteps(tss[i - 1], steps[i - 1], tss[i]);
    }
    if i < |steps| { assert TimerSteps(tss[i], steps[i], tss[i + 1]); }
  }

  /** The empty lists of rt_system_timer_init, with any number of levels. */
  ghost predicate EmptyRows(ts: Ts) {
    && ts.rows != [] && (forall r :: 0 <= r < |ts.rows| ==> ts.rows[r] == [])
    && (forall t :: t in ts.tms ==> !ts.tms[t].activated)
    && ts.key == map[] && ts.calls == Calls(multiset{}, multiset{}, multiset{}, multiset{})
  }

  lemma StartStateInv(ts: Ts)
    requires EmptyRows(ts)
    ensures TimerInv(ts)
  {
  }

  lemma {:induction false} LevelsKept(tss: seq<Ts>, steps: seq<TimerStep>, i: nat)
    requires TimerRun(tss, steps) && TimerInv(tss[0]) && i < |tss|
    ensures |tss[i].rows| == |tss[0].rows|
  {
    hide TimerInv, TimerEnabled, TimerNext;
    if i > 0 {
      LevelsKept(tss, steps, i - 1);
      TimerRunInv(tss, steps, i - 1);
      TimerStepInv(tss[i - 1], steps[i - 1]);
      assert TimerSteps(tss[i - 1], steps[i - 1], tss[i]);
    }
  }

  /** In every state of every run, for any number of levels and however often the tick wraps: the last row holds
      active timers only, ordered by due time and, for equal times, by start; it holds every active timer that no
      rt_timer_stop has taken out to clear its flag next; and every row is a sublist of the row below. */
  lemma TimerRuns(tss: seq<Ts>, steps: seq<TimerStep>, i: nat)
    requires TimerRun(tss, steps) && EmptyRows(tss[0]) && i < |tss|
    ensures var ts := tss[i];
      && ts.rows != [] && |ts.rows| == |tss[0].rows|
      && Sorted(ts.Last(), ts.key)
      && (forall t :: t in ts.Last() ==> t in ts.tms && ts.tms[t].activated)
      && (forall t :: t in ts.tms && ts.tms[t].activated && t !in ts.calls.stopping ==> t in ts.Last())
      && (forall r :: 0 <= r < |ts.rows| - 1 ==> Sublist(ts.rows[r], ts.rows[r + 1]))
  {
    hide Sorted, Sublist, ActiveOk, TimerNext, TimerEnabled, Tick;
    StartStateInv(tss[0]);
    TimerRunInv(tss, steps, i);
    LevelsKept(tss, steps, i);
    hide TimerRun;
    LastSorted(tss[i]);
  }

  lemma SyncedStart(ts: Ts, t: Timer)
    requires TimerInv(ts) && CanStart(ts, t) && Synced(ts)
    ensures Synced(Start(ts, t))
  {
    hide TimerInv, Absent, Tick, RemoveAll, InsertRows;
    RemovedInv(ts, t);
  }

  lemma {:induction false} SyncedCheck(ts: Ts)
    requires TimerInv(ts) && PeriodsOk(ts) && Synced(ts)
    ensures Synced(Check(ts).0)
    decreases |Due(ts)|
  {
    hide TimerInv, Tick, Fire, PeriodsOk, Synced;
    LastKeys(ts);
    if Expired(ts) {
      FireInv(ts);
      SyncedFire(ts);
      SyncedCheck(Fire(ts));
    }
  }

  lemma SyncedFire(ts: Ts)
    requires TimerInv(ts) && PeriodsOk(ts) && Expired(ts) && Synced(ts)
    ensures Synced(Fire(ts))
  {
    hide RowsOk, Absent, Tick, Start;
    var t := ts.Last()[0];
    RemovedInv(ts, t);
    if ts.tms[t].periodic { SyncedStart(Stop(ts, t), t); }
  }

  lemma SyncedStep(ts: Ts, step: TimerStep)
    requires TimerInv(ts) && TimerEnabled(ts, step) && Synced(ts)
    ensures Synced(TimerNext(ts, step))
  {
    hide TimerInv, Start, Check, PeriodsOk, Synced;
    if step.StartStep? { SyncedStart(ts, step.t); }
    else if step.CheckStep? { SyncedCheck(ts); }
    else { SyncedParts(ts, step); }
  }

  lemma SyncedParts(ts: Ts, step: TimerStep)
    requires TimerInv(ts) && TimerEnabled(ts, step) && Synced(ts) && !step.StartStep? && !step.CheckStep?
    ensures Synced(TimerNext(ts, step))
  {
    hide TimerInv, Tick, Keyed, Absent, StartTime, StartInsert;
    if step.StartTimeStep? { SyncedTime(ts, step.t); }
    else if step.StartInsertStep? { OutAbsent(ts, step.t); SyncedInsert(ts, step.t); }
  }

  lemma SyncedTime(ts: Ts, t: Timer)
    requires CanStart(ts, t) && Synced(ts)
    ensures Synced(StartTime(ts, t))
  {
    hide Tick;
    var ts1 := StartTime(ts, t);
    forall u | u in ts1.calls.timed ensures u in ts1.key { assert u == t || u in ts.calls.timed; }
  }

  lemma SyncedInsert(ts: Ts, t: Timer)
    requires t in ts.tms && t in ts.key && ts.rows != [] && Keyed(ts) && Synced(ts)
    ensures Synced(StartInsert(ts, t))
  {
    hide Tick, Keyed, InsertRows, Height;
    var ts1 := StartInsert(ts, t);
    forall u | u in ts1.calls.timed ensures u in ts1.key { assert u in ts.calls.timed; }
  }

  lemma {:induction false} SyncedInEveryRun(tss: seq<Ts>, steps: seq<TimerStep>, i: nat)
    requires TimerRun(tss, steps) && EmptyRows(tss[0]) && i < |tss|
    ensures TimerInv(tss[i]) && Synced(tss[i])
  {
    hide TimerInv, TimerNext, TimerEnabled, Synced;
    EmptySynced(tss[0]);
    TimerRunInv(tss, steps, i);
    if i > 0 {
      SyncedInEveryRun(tss, steps, i - 1);
      TimerRunInv(tss, steps, i - 1);
      assert TimerSteps(tss[i - 1], steps[i - 1], tss[i]);
      SyncedStep(tss[i - 1], steps[i - 1]);
    }
  }

  lemma EmptySynced(ts: Ts)
    requires EmptyRows(ts)
    ensures TimerInv(ts) && Synced(ts)
  {
    StartStateInv(ts);
  }

  // ---------- between the parts of the calls ----------

  /** The steps after which timer t is in the list, and those after which it is not, whatever it was before. */
  predicate Inserts(step: TimerStep, t: Timer) {
    step == StartStep(t) || step == StartInsertStep(t)
  }

  ghost predicate Removes(ts: Ts, step: TimerStep, t: Timer)
    requires TimerInv(ts)
  {
    || step in {StopStep(t), StopRemoveStep(t), StartRemoveStep(t)}
    || (step.CheckStep? && t in Due(ts) && t in ts.tms && !ts.tms[t].periodic)
  }

  /** After a step a timer is in the list iff the step inserts it, or it was and the step does not remove it. */
  lemma ListStep(ts: Ts, step: TimerStep, t: Timer)
    requires TimerInv(ts) && TimerEnabled(ts, step)
    ensures var ts1 := TimerNext(ts, step);
      ts1.rows != [] && (t in ts1.Last() <==> (t in ts.Last() && !Removes(ts, step, t)) || Inserts(step, t))
    ensures !(Inserts(step, t) && Removes(ts, step, t))
  {
    hide TimerInv, TimerNext, PeriodsOk, StaysInOrder;
    if step.StartStep? || step.StartInsertStep? { InsertStep(ts, step, t); }
    else if step.CheckStep? { CheckListStep(ts, t); }
    else { OtherListStep(ts, step, t); }
  }

  lemma InsertStep(ts: Ts, step: TimerStep, t: Timer)
    requires TimerInv(ts) && TimerEnabled(ts, step) && (step.StartStep? || step.StartInsertStep?)
    ensures var ts1 := TimerNext(ts, step); ts1.rows != [] && (t in ts1.Last() <==> t in ts.Last() || Inserts(step, t))
  {
    hide TimerInv, Tick, Absent, Without, Start;
    if step.StartStep? {
      StartInv(ts, step.t);
      LastKeys(Start(ts, step.t));
      StartedIn(ts, step.t);
    } else {
      OutAbsent(ts, step.t);
      PutIn(ts, step.t);
    }
  }

  lemma CheckListStep(ts: Ts, t: Timer)
    requires TimerInv(ts) && PeriodsOk(ts)
    ensures var ts1 := TimerNext(ts, CheckStep); ts1.rows != [] && (t in ts1.Last() <==> t in ts.Last() && !Removes(ts, CheckStep, t))
  {
    hide TimerInv, PeriodsOk, Check, Due;
    CheckStays(ts, t);
  }

  lemma OtherListStep(ts: Ts, step: TimerStep, t: Timer)
    requires TimerInv(ts) && TimerEnabled(ts, step) && !step.StartStep? && !step.StartInsertStep? && !step.CheckStep?
    ensures var ts1 := TimerNext(ts, step); ts1.rows != [] && (t in ts1.Last() <==> t in ts.Last() && !Removes(ts, step, t))
  {
    hide TimerInv, Tick, Absent, StaysInOrder, Without, RemoveAll;
    LastActive(ts);
    if step.StopRemoveStep? {
      StopRemoveInv(ts, step.t);
    } else if step.StopStep? {
      RemovedInv(ts, step.t);
      if !ts.tms[step.t].activated { StoppedOut(ts, step.t); }
    } else if step.StartRemoveStep? {
      RemovedInv(ts, step.t);
    }
  }

  lemma StoppedOut(ts: Ts, t: Timer)
    requires TimerInv(ts) && t in ts.tms && !ts.tms[t].activated
    ensures ts.rows != [] && t !in ts.Last()
  {
  }

  lemma PutIn(ts: Ts, t: Timer)
    requires TimerInv(ts) && t in ts.tms && t in ts.key && ts.rows != [] && Keyed(ts)
    requires Absent(ts, t) && ts.now <= ts.key[t].due < ts.now + HALF
    ensures StartInsert(ts, t).rows != [] && forall u :: u in StartInsert(ts, t).Last() <==> u in ts.Last() || u == t
  {
    hide TimerInv, Tick, InsertBy, InsertRows, Absent;
    var d := ts.key[t].due;
    KeyedLast(ts);
    PutInv(ts, t, d);
    InsertByMembers(ts.Last(), t, d, ts.key);
  }

  lemma {:induction false} CheckStays(ts: Ts, t: Timer)
    requires TimerInv(ts) && PeriodsOk(ts)
    ensures Check(ts).0.rows != []
    ensures t in Check(ts).0.Last() <==> t in ts.Last() && !(t in Due(ts) && t in ts.tms && !ts.tms[t].periodic)
    decreases |Due(ts)|
  {
    hide TimerInv, Tick, PeriodsOk, DueList, Fire, Fired, FiredOne;
    LastKeys(ts);
    if Expired(ts) {
      FireInv(ts);
      FiredStaysOff(ts);
      FireList(ts, t);
      CheckStays(Fire(ts), t);
    } else {
      NothingDue(ts);
    }
  }

  lemma FireList(ts: Ts, u: Timer)
    requires TimerInv(ts) && PeriodsOk(ts) && Expired(ts)
    ensures var t, ts1 := ts.Last()[0], Fire(ts);
      && t in ts.tms && ts1.rows != [] && (u in ts1.Last() <==> u in ts.Last() && !(u == t && !ts.tms[t].periodic))
      && (u in ts.tms <==> u in ts1.tms) && (u in ts.tms ==> ts1.tms[u].periodic == ts.tms[u].periodic)
  {
    hide TimerInv, Tick, Start, Without, RemoveAll, Absent;
    LastActive(ts);
    FireEffect(ts);
    var t := ts.Last()[0];
    RemovedInv(ts, t);
    if ts.tms[t].periodic { StartedIn(Stop(ts, t), t); StartInv(Stop(ts, t), t); LastKeys(Start(Stop(ts, t), t)); } else { LastKeys(Stop(ts, t)); }
  }

  ghost function InsertEvents(steps: seq<TimerStep>, t: Timer): seq<bool> {
    seq(|steps|, m requires 0 <= m < |steps| => Inserts(steps[m], t))
  }

  ghost function RemoveEvents(tss: seq<Ts>, steps: seq<TimerStep>, t: Timer): seq<bool>
    requires |tss| == |steps| + 1
  {
    seq(|steps|, m requires 0 <= m < |steps| => TimerInv(tss[m]) && Removes(tss[m], steps[m], t))
  }

  lemma TimerRunStep(tss: seq<Ts>, steps: seq<TimerStep>, m: nat)
    requires TimerRun(tss, steps) && TimerInv(tss[0]) && m < |steps|
    ensures TimerInv(tss[m]) && TimerEnabled(tss[m], steps[m]) && tss[m + 1] == TimerNext(tss[m], steps[m])
  {
    hide TimerInv, TimerEnabled, TimerNext;
    TimerRunInv(tss, steps, m);
    assert TimerSteps(tss[m], steps[m], tss[m + 1]);
  }

  /** A timer that was out of the list at lo is out of it at hi iff whatever put it in was undone. */
  lemma OutOverRun(tss: seq<Ts>, steps: seq<TimerStep>, lo: nat, hi: nat, t: Timer)
    requires TimerRun(tss, steps) && TimerInv(tss[0]) && lo <= hi < |tss| && tss[lo].rows != [] && t !in tss[lo].Last()
    ensures TimerInv(tss[hi]) && tss[hi].rows != []
    ensures t !in tss[hi].Last() <==> Undone(InsertEvents(steps, t), RemoveEvents(tss, steps, t), lo, hi)
  {
    hide TimerSteps, TimerInv, TimerEnabled, TimerNext, Undone, Inserts, Removes;
    var up, down := InsertEvents(steps, t), RemoveEvents(tss, steps, t);
    var flag := seq(|tss|, m requires 0 <= m < |tss| => tss[m].rows != [] && t in tss[m].Last());
    forall m: nat | lo <= m < hi
      ensures (flag[m + 1] <==> ((flag[m] && !down[m]) || up[m])) && !(up[m] && down[m])
    {
      TimerRunStep(tss, steps, m);
      LastKeys(tss[m]);
      ListStep(tss[m], steps[m], t);
    }
    TimerRunInv(tss, steps, hi);
    LastKeys(tss[hi]);
    FlagUndone(flag, up, down, lo, hi);
  }

  lemma RemovedAt(ts: Ts, step: TimerStep, t: Timer)
    requires TimerInv(ts) && TimerEnabled(ts, step) && (step == StopRemoveStep(t) || step == StartRemoveStep(t))
    ensures t in ts.tms
    ensures var ts1 := TimerNext(ts, step); ts1.rows != [] && t !in ts1.Last() && t in ts1.tms
  {
    hide TimerInv, Tick;
    ListStep(ts, step, t);
  }

  lemma {:induction false} TimersKept(tss: seq<Ts>, steps: seq<TimerStep>, lo: nat, hi: nat)
    requires TimerRun(tss, steps) && TimerInv(tss[0]) && lo <= hi < |tss|
    ensures tss[hi].tms.Keys == tss[lo].tms.Keys
  {
    hide TimerInv, TimerEnabled, TimerNext, TimerSteps;
    if lo < hi {
      TimersKept(tss, steps, lo, hi - 1);
      TimerRunStep(tss, steps, hi - 1);
      SameTimers(tss[hi - 1], steps[hi - 1]);
    }
  }

  lemma SameTimers(ts: Ts, step: TimerStep)
    requires TimerInv(ts) && TimerEnabled(ts, step)
    ensures TimerNext(ts, step).tms.Keys == ts.tms.Keys
  {
    hide TimerInv, Tick, Check, RemoveAll, InsertRows, Height, StaysInOrder;
    if step.CheckStep? { CheckFiresDue(ts); }
    if step.StartStep? { RemovedInv(ts, step.t); }
    if step.StartInsertStep? { OutAbsent(ts, step.t); }
  }

  /** In any run, an rt_timer_stop that has passed its region leaves the timer inactive, in no row, and everything in
      order, iff whatever started the timer between the region and the clearing of the flag was undone. */
  lemma StopEndsWell(tss: seq<Ts>, steps: seq<TimerStep>, i: nat, j: nat, t: Timer)
    requires TimerRun(tss, steps) && TimerInv(tss[0]) && i < j <= |steps| && steps[i] == StopRemoveStep(t)
    ensures t in tss[j].tms
    ensures TimerInv(StopClear(tss[j], t)) && Absent(StopClear(tss[j], t), t)
      <==> Undone(InsertEvents(steps, t), RemoveEvents(tss, steps, t), i + 1, j)
  {
    hide TimerSteps, TimerInv, TimerEnabled, TimerNext, Undone, StopClear, Absent, InsertEvents, RemoveEvents;
    TimerRunStep(tss, steps, i);
    RemovedAt(tss[i], steps[i], t);
    OutOverRun(tss, steps, i + 1, j, t);
    TimersKept(tss, steps, i + 1, j);
    StopClearIff(tss[j], t);
  }

  /** In any run, rt_timer_start keeps the rows in order where it stores its due tick iff whatever started the timer since
      its first region was undone, or the new time is between those of the timer's neighbours. */
  lemma StartTimeEndsWell(tss: seq<Ts>, steps: seq<TimerStep>, i: nat, j: nat, t: Timer)
    requires TimerRun(tss, steps) && TimerInv(tss[0]) && i < j <= |steps| && steps[i] == StartRemoveStep(t)
    ensures TimerInv(tss[j]) && t in tss[j].tms
    ensures CanStart(tss[j], t) ==>
      (TimerInv(StartTime(tss[j], t)) <==>
        || Undone(InsertEvents(steps, t), RemoveEvents(tss, steps, t), i + 1, j)
        || StaysInOrder(tss[j], t))
  {
    hide TimerSteps, TimerInv, TimerEnabled, TimerNext, Undone, StartTime, CanStart, Between, InsertEvents, RemoveEvents;
    TimerRunStep(tss, steps, i);
    RemovedAt(tss[i], steps[i], t);
    OutOverRun(tss, steps, i + 1, j, t);
    TimersKept(tss, steps, i + 1, j);
    if CanStart(tss[j], t) { StartTimeIff(tss[j], t); }
  }

  /** In any run, the second region of an rt_timer_start that is not overtaken by its own due time keeps the rows in
      order iff whatever started the timer since the first region was undone. */
  lemma StartEndsWell(tss: seq<Ts>, steps: seq<TimerStep>, i: nat, j: nat, t: Timer)
    requires TimerRun(tss, steps) && EmptyRows(tss[0]) && i < j <= |steps| && steps[i] == StartRemoveStep(t) && t in tss[j].calls.timed
    ensures var ts := tss[j];
      && t in ts.tms && t in ts.key && ts.rows != [] && Keyed(ts)
      && (ts.now <= ts.key[t].due ==>
            (TimerInv(StartInsert(ts, t)) <==> Undone(InsertEvents(steps, t), RemoveEvents(tss, steps, t), i + 1, j)))
  {
    hide TimerSteps, TimerInv, TimerEnabled, TimerNext, Undone, StartInsert, Keyed, EmptyRows, InsertEvents, RemoveEvents, Tick;
    StartStateInv(tss[0]);
    TimerRunStep(tss, steps, i);
    RemovedAt(tss[i], steps[i], t);
    OutOverRun(tss, steps, i + 1, j, t);
    SyncedInEveryRun(tss, steps, j);
    OutAbsent(tss[j], t);
    if tss[j].now <= tss[j].key[t].due { StartInsertIff(tss[j], t); }
  }

  // ---------- how the calls go astray ----------

  /** rt_timer_stop on an active timer, which an interrupt starts before the flag is cleared. */
  function StopGap(t: Timer): seq<TimerStep> {
    [StopTestStep(t), StopRemoveStep(t), StartStep(t)]
  }

  /** From any state with an active timer: after the region of rt_timer_stop the timer is active and in no row, and after
      the call it is in the list with its flag cleared, so that the next rt_timer_stop is refused. */
  lemma StartedWhileStopping(ts: Ts, t: Timer)
    requires TimerInv(ts) && CanStart(ts, t) && ts.tms[t].activated
    ensures exists tss: seq<Ts> ::
      && TimerRun(tss, StopGap(t)) && tss[0] == ts
      && t in tss[2].tms && tss[2].tms[t].activated && Absent(tss[2], t)
      && t in tss[3].tms && ListedInactive(StopClear(tss[3], t), t)
  {
    hide TimerInv, Tick, Start, Absent, Sorted;
    var ts1 := StopTest(ts, t);
    CallsOnly(ts, ts1);
    StopRemoveInv(ts1, t);
    var ts2 := StopRemove(ts1, t);
    StartedIn(ts2, t);
    StartInv(ts2, t);
    var ts3 := Start(ts2, t);
    KeepsTimer(ts2, t);
    StopClearIff(ts3, t);
    var tss := [ts, ts1, ts2, ts3];
    hide StopClear, StopRemove;
    assert TimerSteps(tss[2], StopGap(t)[2], tss[3]);
    assert TimerRun(tss, StopGap(t)) && tss[0] == ts;
  }

  ghost predicate ListedInactive(ts: Ts, t: Timer) {
    ts.rows != [] && t in ts.Last() && t in ts.tms && !ts.tms[t].activated && !TimerInv(ts)
  }

  lemma KeepsTimer(ts: Ts, t: Timer)
    requires TimerInv(ts) && CanStart(ts, t)
    ensures t in Start(ts, t).tms && Start(ts, t).tms.Keys == ts.tms.Keys && Start(ts, t).now == ts.now
    ensures Start(ts, t).key == ts.key[t := Key(ts.now + ts.tms[t].initTick, ts.clock)] && Start(ts, t).clock == ts.clock + 1
    ensures Start(ts, t).calls == ts.calls && Start(ts, t).rows != []
    ensures forall u :: u in ts.tms ==> Start(ts, t).tms[u].initTick == ts.tms[u].initTick
  {
    hide TimerInv, Absent, Tick, RemoveAll, InsertRows, Height;
    RemovedInv(ts, t);
  }

  /** rt_timer_start for t; after its first region an interrupt starts t and u; a tick passes before the due tick is
      stored. */
  function RetimeGap(t: Timer, u: Timer): seq<TimerStep> {
    [StartRemoveStep(t), StartStep(t), StartStep(u), TickStep]
  }

  /** From any state with two timers of equal time and none late: the stored tick puts t behind u, but t is before u in
      the list. */
  lemma RetimedInTheGap(ts: Ts, t: Timer, u: Timer)
    requires TimerInv(ts) && CanStart(ts, t) && CanStart(ts, u) && t != u && ts.tms[u].initTick == ts.tms[t].initTick
    requires forall v :: v in ts.Last() && v in ts.key ==> ts.now < ts.key[v].due + LATE
    ensures exists tss: seq<Ts> ::
      && TimerRun(tss, RetimeGap(t, u)) && tss[0] == ts
      && TimerInv(tss[4]) && CanStart(tss[4], t) && t in tss[4].calls.removed && !TimerInv(StartTime(tss[4], t))
  {
    hide TimerInv, Start, StartTime, StartRemove;
    StartedApart(ts, t, u);
    var ts1 := StartRemove(ts, t);
    var ts2 := Start(ts1, t);
    var ts3 := Start(ts2, u);
    var ts4 := ts3.(now := ts3.now + 1);
    TicksInGap(ts, ts3, t, u);
    TimerStepInv(ts3, TickStep);
    OvertakenBy(ts4, t, u);
    var tss := [ts, ts1, ts2, ts3, ts4];
    FourSteps(tss, RetimeGap(t, u));
  }

  lemma FourSteps(tss: seq<Ts>, steps: seq<TimerStep>)
    requires |tss| == 5 && |steps| == 4 && TimerSteps(tss[0], steps[0], tss[1]) && TimerSteps(tss[1], steps[1], tss[2])
    requires TimerSteps(tss[2], steps[2], tss[3]) && TimerSteps(tss[3], steps[3], tss[4])
    ensures TimerRun(tss, steps)
  {
    hide TimerSteps;
  }

  lemma StartedApart(ts: Ts, t: Timer, u: Timer)
    requires TimerInv(ts) && CanStart(ts, t) && CanStart(ts, u) && t != u
    ensures var ts1 := StartRemove(ts, t); TimerInv(ts1) && CanStart(ts1, t) && t in ts1.calls.removed
    ensures var ts2 := Start(StartRemove(ts, t), t); TimerInv(ts2) && CanStart(ts2, u)
    ensures var ts3 := Start(Start(StartRemove(ts, t), t), u);
      && TimerInv(ts3) && CanStart(ts3, t) && t in ts3.calls.removed && ts3.now == ts.now
      && ts3.tms[t].initTick == ts.tms[t].initTick
      && ts3.key == ts.key[t := Key(ts.now + ts.tms[t].initTick, ts.clock)][u := Key(ts.now + ts.tms[u].initTick, ts.clock + 1)]
      && t in ts3.Last() && u in ts3.Last() && forall v :: v in ts3.Last() ==> v in ts.Last() || v == t || v == u
  {
    hide TimerInv, Tick, Start, Absent, Without;
    RemovedInv(ts, t);
    var ts1 := StartRemove(ts, t);
    CallsOnly(Stop(ts, t), ts1);
    RemovedLast(ts, t);
    hide RemoveAll;
    StartInv(ts1, t);
    StartedIn(ts1, t);
    KeepsTimer(ts1, t);
    var ts2 := Start(ts1, t);
    StartInv(ts2, u);
    StartedIn(ts2, u);
    KeepsTimer(ts2, u);
  }

  lemma TicksInGap(ts: Ts, ts1: Ts, t: Timer, u: Timer)
    requires TimerInv(ts1) && ts1.now == ts.now && ts.rows != [] && ts1.rows != []
    requires forall v :: v in ts1.Last() ==> v in ts.Last() || v == t || v == u
    requires forall v :: v in ts.Last() && v in ts.key ==> ts.now < ts.key[v].due + LATE
    requires forall v :: v in ts.key && v != t && v != u ==> v in ts1.key && ts1.key[v] == ts.key[v]
    requires t in ts1.key && u in ts1.key && ts1.now <= ts1.key[t].due && ts1.now <= ts1.key[u].due
    requires forall v :: v in ts1.key ==> v in ts.key || v == t || v == u
    ensures TimerEnabled(ts1, TickStep)
  {
    hide TimerInv;
  }

  lemma OvertakenBy(ts: Ts, t: Timer, u: Timer)
    requires TimerInv(ts) && CanStart(ts, t) && ts.rows != [] && t in ts.Last() && u in ts.Last() && t in ts.key && u in ts.key && t != u
    requires Less(ts.key[t], ts.key[u]) && ts.key[u].due < ts.now + ts.tms[t].initTick
    ensures !TimerInv(StartTime(ts, t))
  {
    hide Tick, ActiveOk, TimerInv;
    LastInOrder(ts);
    var ts1 := StartTime(ts, t);
    var l := ts.Last();
    var i, j := IndexOf(l, t), IndexOf(l, u);
    assert j < i ==> Less(ts.key[l[j]], ts.key[l[i]]);
    assert !Less(ts1.key[l[i]], ts1.key[l[j]]);
    NotInOrder(ts1);
  }

  // ---------- the object ----------

  /** Where in a row the list goes on from node p of the row above: the same timer, or the head. */
  function Below(upper: seq<Timer>, lower: seq<Timer>, p: nat): (q: nat)
    requires p <= |upper| && (p > 0 ==> upper[p - 1] in lower)
    ensures q <= |lower| && (p == 0 ==> q == 0) && (p > 0 ==> q > 0 && lower[q - 1] == upper[p - 1])
  {
    if p == 0 then 0 else IndexOf(lower, upper[p - 1]) + 1
  }

  /** Position p is where InsertBy puts a timer due at d. */
  ghost predicate At(l: seq<Timer>, p: nat, d: nat, key: map<Timer, Key>)
    requires forall u :: u in l ==> u in key
  {
    p <= |l| && (forall i :: 0 <= i < p ==> key[l[i]].due <= d) && (p < |l| ==> key[l[p]].due > d)
  }

  lemma {:induction false} AtInserts(l: seq<Timer>, p: nat, t: Timer, d: nat, key: map<Timer, Key>)
    requires (forall u :: u in l ==> u in key) && At(l, p, d, key)
    ensures InsertBy(l, t, d, key) == l[..p] + [t] + l[p..]
  {
    if p > 0 {
      forall i | 0 <= i < p - 1 ensures key[l[1..][i]].due <= d { assert l[1..][i] == l[i + 1]; }
      AtInserts(l[1..], p - 1, t, d, key);
      assert key[l[0]].due <= d;
      SplitAt(l, p, t);
    } else {
      assert l[..0] + [t] + l[0..] == [t] + l;
    }
  }

  lemma SplitAt(l: seq<Timer>, p: nat, t: Timer)
    requires 0 < p <= |l|
    ensures [l[0]] + (l[1..][..p - 1] + [t] + l[1..][p - 1..]) == l[..p] + [t] + l[p..]
  {
    assert l[..p] == [l[0]] + l[1..][..p - 1] && l[1..][p - 1..] == l[p..];
  }

  class TimerList {
    var tms: map<Timer, Tm>
    var rows: seq<seq<Timer>>
    var tick: nat
    var random: nat
    ghost var now: nat
    ghost var key: map<Timer, Key>
    ghost var clock: nat
    ghost var calls: Calls

    ghost function Abs(): Ts
      reads this
    {
      Ts(tms, rows, now, key, clock, random, calls)
    }

    ghost predicate Valid()
      reads this
    {
      TimerInv(Abs()) && tick == Tick(now)
    }

    /** rt_system_timer_init */
    constructor (levels: nat, tms: map<Timer, Tm>)
      requires levels > 0 && forall t :: t in tms ==> !tms[t].activated
      ensures Valid() && EmptyRows(Abs()) && |rows| == levels && this.tms == tms
    {
      this.tms, rows, tick, random := tms, seq(levels, i => []), 0, 0;
      now, key, clock := 0, map[], 0;
      calls := Calls(multiset{}, multiset{}, multiset{}, multiset{});
    }

    /** _rt_timer_remove */
    method Remove(t: Timer)
      modifies this`rows
      ensures rows == RemoveAll(old(rows), t)
    {
      var i := 0;
      while i < |rows|
        invariant i <= |rows| == |old(rows)|
        invariant forall r :: 0 <= r < |rows| ==> rows[r] == if r < i then Without(old(rows)[r], t) else old(rows)[r]
      {
        rows := rows[i := Without(rows[i], t)];
        i := i + 1;
      }
    }

    /** rt_timer_stop where nothing comes between its parts. */
    method TimerStop(t: Timer) returns (ok: bool)
      requires Valid() && t in tms
      modifies this`rows, this`tms
      ensures ok == old(tms)[t].activated
      ensures Abs() == (if ok then Stop(old(Abs()), t) else old(Abs())) && Valid()
    {
      if !tms[t].activated { return false; }
      RemovedInv(Abs(), t);
      Remove(t);
      tms := tms[t := tms[t].(activated := false)];
      ok := true;
    }

    /** The test of rt_timer_stop. */
    method StopFirst(t: Timer) returns (ok: bool)
      requires Valid() && t in tms
      modifies this`calls
      ensures ok == tms[t].activated && Valid()
      ensures Abs() == if ok then StopTest(old(Abs()), t) else old(Abs())
    {
      hide TimerInv, Tick;
      ghost var ts := Abs();
      ok := tms[t].activated;
      if ok { calls := calls.(tested := calls.tested + multiset{t}); }
      CallsOnly(ts, Abs());
    }

    /** The region of rt_timer_stop. */
    method StopSecond(t: Timer)
      requires Valid() && t in tms
      modifies this`rows, this`calls
      ensures Abs() == StopRemove(old(Abs()), t) && Valid()
    {
      hide TimerInv, Tick, Without, RemoveAll;
      StopRemoveInv(Abs(), t);
      Remove(t);
      calls := calls.(tested := calls.tested - multiset{t}, stopping := calls.stopping + multiset{t});
    }

    /** The last assignment of rt_timer_stop. */
    method StopLast(t: Timer)
      requires Valid() && t in tms
      modifies this`tms, this`calls
      ensures Abs() == StopClear(old(Abs()), t) && (Valid() <==> t !in old(Abs()).Last())
    {
      hide TimerInv, Tick;
      StopClearIff(Abs(), t);
      tms := tms[t := tms[t].(activated := false)];
      calls := calls.(stopping := calls.stopping - multiset{t});
    }

    /** rt_timer_start where nothing comes between its regions. */
    method TimerStart(t: Timer)
      requires Valid() && CanStart(Abs(), t)
      modifies this
      ensures Abs() == Start(old(Abs()), t) && Valid() && tick == old(tick)
    {
      hide TimerInv, RowsOk, Absent, Without, InsertBy, Tick, Put;
      ghost var ts, d := Abs(), now + tms[t].initTick;
      RemovedInv(ts, t);
      StartInv(ts, t);
      OutAbsent(Stop(ts, t), t);
      PutRetimed(Stop(ts, t), t, d);
      Remove(t);
      tms := tms[t := tms[t].(activated := false)];
      assert Abs() == Stop(ts, t);
      StoreTick(t);
      Retimed(Stop(ts, t), t, d);
      LinkIn(t, d);
    }

    /** timer->timeout_tick = rt_tick_get() + timer->init_tick */
    method StoreTick(t: Timer)
      requires t in tms && tick == Tick(now)
      modifies this`tms
      ensures tms == old(tms)[t := old(tms)[t].(timeoutTick := Tick(now + old(tms)[t].initTick))]
      ensures tms[t].timeoutTick == (tick + tms[t].initTick) % TICKS
    {
      TickAdds(now, tms[t].initTick);
      hide Tick;
      var timeout := (tick + tms[t].initTick) % TICKS;
      tms := tms[t := tms[t].(timeoutTick := timeout)];
    }

    /** rt_timer_start up to the end of its first region. */
    method StartFirst(t: Timer)
      requires Valid() && t in tms
      modifies this
      ensures Abs() == StartRemove(old(Abs()), t) && Valid() && tick == old(tick)
    {
      hide TimerInv, RowsOk, Without, Tick;
      ghost var ts := Abs();
      RemovedInv(ts, t);
      Remove(t);
      tms := tms[t := tms[t].(activated := false)];
      assert Abs() == Stop(ts, t);
      calls := calls.(removed := calls.removed + multiset{t});
      CallsOnly(Stop(ts, t), Abs());
    }

    /** What rt_timer_start does between its regions: whoever has started the timer meanwhile, it is due init_tick from
        now, and the tick stored is that of the sum. */
    method StartSecond(t: Timer)
      requires Valid() && t in tms && CanStart(Abs(), t)
      modifies this`tms, this`key, this`calls
      ensures Abs() == StartTime(old(Abs()), t) && (Valid() <==> StaysInOrder(old(Abs()), t))
      ensures t in tms && tms[t].timeoutTick == (tick + tms[t].initTick) % TICKS && tms[t].initTick == old(tms)[t].initTick
      ensures t in key && key[t].due == now + tms[t].initTick
    {
      hide TimerInv, Tick, CanStart, StaysInOrder;
      ghost var ts, d := Abs(), now + tms[t].initTick;
      StartTimeIff(ts, t);
      StoreTick(t);
      key := key[t := Key(d, if t in key then key[t].stamp else 0)];
      calls := calls.(removed := calls.removed - multiset{t}, timed := calls.timed + multiset{t});
      hide StartTime;
      StartTimeIs(ts, Abs(), t);
    }

    static lemma StartTimeIs(ts: Ts, ts1: Ts, t: Timer)
      requires t in ts.tms
      requires var d := ts.now + ts.tms[t].initTick;
        ts1 == ts.(tms := ts.tms[t := ts.tms[t].(timeoutTick := Tick(d))],
                   key := ts.key[t := Key(d, if t in ts.key then ts.key[t].stamp else 0)],
                   calls := ts.calls.(removed := ts.calls.removed - multiset{t}, timed := ts.calls.timed + multiset{t}))
      ensures ts1 == StartTime(ts, t)
    {
    }

    /** The second region of rt_timer_start. */
    method StartLast(t: Timer)
      requires Valid() && t in tms && Synced(Abs()) && t in key && now <= key[t].due && t !in Abs().Last()
      modifies this
      ensures Keyed(old(Abs())) && Abs() == StartInsert(old(Abs()), t) && Valid() && tick == old(tick)
    {
      hide TimerInv, RowsOk, Absent, Keyed, InsertBy, Tick;
      ghost var ts, d := Abs(), key[t].due;
      OutAbsent(ts, t);
      PutInv(ts, t, d);
      LinkIn(t, d);
      calls := calls.(timed := calls.timed - multiset{t});
      CallsOnly(Put(ts, t, d), Abs());
    }

    /** The timer's place in every row, and its insertion into the lowest rows. */
    method LinkIn(t: Timer, ghost d: nat)
      requires Valid() && t in tms && Absent(Abs(), t) && tms[t].timeoutTick == Tick(d) && now <= d < now + HALF
      modifies this
      ensures Keyed(old(Abs())) && Abs() == Put(old(Abs()), t, d) && tick == old(tick) && now == old(now)
    {
      hide TimerInv, RowsOk, InsertBy, Tick;
      assert Keyed(Abs());
      hide Absent, Keyed;
      ghost var ts := Abs();
      LastKeys(ts);
      var heads := Heads(t, tms[t].timeoutTick, d);
      random := (random + 1) % TICKS;
      InsertAt(t, heads, d);
      tms := tms[t := tms[t].(activated := true)];
      key, clock := key[t := Key(d, clock)], clock + 1;
      assert tms == ts.tms[t := ts.tms[t].(timeoutTick := Tick(d), activated := true)];
    }

    /** row_head: the walk along the skip list, row by row. */
    method Heads(t: Timer, timeout: nat, ghost d: nat) returns (heads: seq<nat>)
      requires Valid() && t in tms && timeout == Tick(d) && now <= d < now + HALF
      ensures |heads| == |rows|
      ensures forall r :: 0 <= r < |rows| ==> (forall u :: u in rows[r] ==> u in key) && At(rows[r], heads[r], d, key)
    {
      hide TimerInv, RowsOk, Tick;
      heads := [];
      var p: nat := 0;
      if rows != [] { RowStamps(Abs(), 0); }
      for lvl := 0 to |rows|
        invariant |heads| == lvl
        invariant lvl < |rows| ==> forall u :: u in Abs().rows[lvl] ==> u in key
        invariant lvl < |rows| ==> p <= |rows[lvl]| && (forall u :: u in rows[lvl] ==> u in key)
        invariant lvl < |rows| ==> forall i :: 0 <= i < p ==> key[rows[lvl][i]].due <= d
        invariant forall r :: 0 <= r < lvl ==> (forall u :: u in rows[r] ==> u in key) && At(rows[r], heads[r], d, key)
      {
        var row := rows[lvl];
        while p < |row|
          invariant p <= |row| && forall i :: 0 <= i < p ==> key[row[i]].due <= d
        {
          var u := row[p];
          RowStamps(Abs(), lvl);
          assert u in Abs().rows[lvl] && ActiveOk(Abs(), u);
          DiffOrders(key[u].due, d);
          var diff := Diff(tms[u].timeoutTick, timeout);
          if diff != 0 && diff < HALF { break; }
          p := p + 1;
        }
        heads := heads + [p];
        if lvl != |rows| - 1 {
          Descend(Abs(), lvl, p, d);
          p := Below(rows[lvl], rows[lvl + 1], p);
        }
      }
    }

    /** rt_list_insert_after at the head found in the last row, then upwards while the counter's bits allow. */
    method InsertAt(t: Timer, heads: seq<nat>, ghost d: nat)
      requires rows != [] && |heads| == |rows| && random < TICKS
      requires forall r :: 0 <= r < |rows| ==> (forall u :: u in rows[r] ==> u in key) && At(rows[r], heads[r], d, key)
      modifies this`rows
      ensures (forall i, u :: 0 <= i < |old(rows)| && u in old(rows)[i] ==> u in key)
      ensures rows == InsertRows(old(rows), t, 1 + Levels(random, |old(rows)| - 1), d, key)
    {
      hide InsertBy, At;
      ghost var rows0 := rows;
      var n := |rows|;
      var bits := random;
      var lvl := 1;
      InsertAfter(n - 1, heads[n - 1], t, d);
      while lvl < |rows| && bits % 4 == 0
        invariant 1 <= lvl <= |rows| == n
        invariant lvl + Levels(bits, n - lvl) == 1 + Levels(random, n - 1)
        invariant forall r :: 0 <= r < n ==> rows[r] == if r >= n - lvl then InsertBy(rows0[r], t, d, key) else rows0[r]
      {
        lvl := lvl + 1;
        InsertAfter(|rows| - lvl, heads[|rows| - lvl], t, d);
        bits := bits / 4;
      }
    }

    /** rt_list_insert_after in one row. */
    method InsertAfter(r: nat, p: nat, t: Timer, ghost d: nat)
      requires r < |rows| && (forall u :: u in rows[r] ==> u in key) && At(rows[r], p, d, key)
      modifies this`rows
      ensures forall u :: u in old(rows)[r] ==> u in key
      ensures rows == old(rows)[r := InsertBy(old(rows)[r], t, d, key)]
    {
      AtInserts(rows[r], p, t, d, key);
      rows := rows[r := rows[r][..p] + [t] + rows[r][p..]];
    }

    method TimerCheck() returns (fired: seq<Timer>)
      requires Valid() && PeriodsOk(Abs())
      modifies this
      ensures (Abs(), fired) == Check(old(Abs())) && Valid()
    {
      hide TimerInv, RowsOk, Tick, DueList, PeriodsOk, Fire, Check;
      fired := [];
      LastKeys(Abs());
      while rows[|rows| - 1] != []
        invariant Valid() && PeriodsOk(Abs()) && rows != []
        invariant Check(old(Abs())).0 == Check(Abs()).0 && Check(old(Abs())).1 == fired + Check(Abs()).1
        decreases |Due(Abs())|
      {
        var t := rows[|rows| - 1][0];
        FirstActive(Abs());
        DiffExpired(now, key[t].due);
        CheckUnfolds(Abs());
        if Diff(tick, tms[t].timeoutTick) >= HALF { break; }
        FireInv(Abs());
        LastKeys(Fire(Abs()));
        FireOne(t);
        fired := fired + [t];
      }
      CheckUnfolds(Abs());
      assert Check(old(Abs())).1 == fired;
    }

    method FireOne(t: Timer)
      requires Valid() && PeriodsOk(Abs()) && Expired(Abs()) && t == Abs().Last()[0]
      modifies this
      ensures Abs() == Fire(old(Abs())) && tick == old(tick)
    {
      hide RowsOk, Without, Absent, ActiveOk, Tick;
      ghost var ts := Abs();
      RemovedInv(ts, t);
      Remove(t);
      if tms[t].periodic && tms[t].activated {
        tms := tms[t := tms[t].(activated := false)];
        assert Abs() == Stop(ts, t);
        hide TimerInv;
        TimerStart(t);
      } else {
        tms := tms[t := tms[t].(activated := false)];
      }
    }

    /** The tick interrupt, as far as timers see it: rt_tick ++ in clock.c. */
    method TickIncrease()
      requires Valid() && TimerEnabled(Abs(), TickStep)
      modifies this`tick, this`now
      ensures Abs() == TimerNext(old(Abs()), TickStep) && Valid()
    {
      hide Tick, RowsOk;
      TimerStepInv(Abs(), TickStep);
      TickAdds(now, 1);
      tick := (tick + 1) % TICKS;
      now := now + 1;
    }

    method NextTimeoutTick() returns (r: nat)
      requires Valid()
      ensures r == NextTimeout(Abs())
    {
      if rows[|rows| - 1] == [] { return TICK_MAX; }
      FirstActive(Abs());
      r := tms[rows[|rows| - 1][0]].timeoutTick;
    }
  }

  lemma TickAdds(now: nat, time: nat)
    ensures (Tick(now) + time) % TICKS == Tick(now + time)
  {
    if now >= TICKS {
      TickAdds(now - TICKS, time);
      WholeTurn(now - TICKS);
      WholeTurn(now - TICKS + time);
    }
  }

  lemma WholeTurn(n: nat)
    ensures (n + TICKS) % TICKS == n % TICKS
  {
  }

  lemma CheckUnfolds(ts: Ts)
    requires TimerInv(ts) && PeriodsOk(ts)
    ensures !Expired(ts) ==> Check(ts) == (ts, [])
    ensures Expired(ts) ==> TimerInv(Fire(ts)) && PeriodsOk(Fire(ts))
    ensures Expired(ts) ==> Check(ts).0 == Check(Fire(ts)).0 && Check(ts).1 == [ts.Last()[0]] + Check(Fire(ts)).1
  {
    if Expired(ts) { FireInv(ts); }
  }

  lemma FirstActive(ts: Ts)
    requires TimerInv(ts) && ts.Last() != []
    ensures ActiveOk(ts, ts.Last()[0]) && ts.tms[ts.Last()[0]].activated
  {
  }

  /** Going down a level keeps everything passed at or before the new timer's time. */
  lemma Descend(ts: Ts, r: nat, p: nat, d: nat)
    requires TimerInv(ts) && r + 1 < |ts.rows| && p <= |ts.rows[r]|
    requires (forall u :: u in ts.rows[r] ==> u in ts.key) && forall i :: 0 <= i < p ==> ts.key[ts.rows[r][i]].due <= d
    ensures p > 0 ==> ts.rows[r][p - 1] in ts.rows[r + 1]
    ensures forall u :: u in ts.rows[r + 1] ==> u in ts.key
    ensures var l := ts.rows[r + 1]; forall i :: 0 <= i < Below(ts.rows[r], l, p) ==> ts.key[l[i]].due <= d
  {
    SublistMembers(ts.rows[r], ts.rows[r + 1]);
    assert Sorted(ts.rows[r + 1], ts.key);
    hide Sublist;
    var l := ts.rows[r + 1];
    var q := Below(ts.rows[r], l, p);
    forall i | 0 <= i < q ensures ts.key[l[i]].due <= d {
      if i < q - 1 { assert Less(ts.key[l[i]], ts.key[l[q - 1]]); }
    }
  }
}
