/**
 Whole runs of the timing wheel refine the simplest machine there is: a clock, a map from timers to their
 expiry, and the queue of the timers that are due. In that machine an update moves the clock and puts the
 timers that came due behind the queue, and a get hands out the timer that has been in it longest.
*/
module WheelRuns {
  import opened Common
  import opened Bits
  import opened WheelArithmetic
  import opened WheelModel
  import opened WheelProofs

  // ---- Get ------------------------------------------------------------------------------------

  /** `timeouts_get`: the head of the expired queue, re-armed when it is periodic. */
  function Get(s: State): (r: (State, Option<Id>))
    requires Linked(s, [])
    ensures Shape(r.0)
  {
    if s.expired == [] then (s, None)
    else
      var t := s.expired[0];
      var s1 := s.(expired := s.expired[1..], timers := Moved(s, t, Nowhere));
      (if s.timers[t].periodic && s.timers[t].interval > 0 then Readd(s1, t) else s1, Some(t))
  }

  /**
   A periodic timer is re-armed at the first `expires + k * interval`, `k >= 1`, after the clock: its phase never
   drifts.
  */
  lemma NextExpiryInPhase(expires: nat, interval: nat, now: nat) returns (k: nat)
    requires interval > 0
    ensures k >= 1
    ensures NextExpiry(expires, interval, now) == expires + k * interval
    ensures NextExpiry(expires, interval, now) > now
    ensures forall j: nat :: 1 <= j < k ==> expires + j * interval <= now
  {
    var next := expires + interval;
    if next <= now {
      var q := (now - next) / interval;
      assert now - next == q * interval + (now - next) % interval;
      k := q + 2;
      assert (q + 2) * interval == q * interval + 2 * interval;
      forall j: nat | 1 <= j < k ensures expires + j * interval <= now {
        MulMonotone(j, q + 1, interval);
        assert (q + 1) * interval == q * interval + interval;
      }
    } else {
      k := 1;
    }
  }

  lemma MulMonotone(a: nat, b: nat, c: nat)
    requires a <= b
    ensures a * c <= b * c
  {
    assert (b - a) * c >= 0;
  }

  lemma PopExpired(s: State, r: State)
    requires Linked(s, []) && s.expired != []
    requires r == s.(expired := s.expired[1..], timers := Moved(s, s.expired[0], Nowhere))
    ensures Linked(r, [])
  {
    var t := s.expired[0];
    assert s.expired == [t] + s.expired[1..];
    assert NoDup(s.expired[1..]) && t !in s.expired[1..];
    forall w: nat, b: nat | w < WHEEL_NUM && b < WHEEL_LEN ensures SlotOk(r, [], w, b) {
      assert SlotOk(s, [], w, b);
    }
    forall u | u in r.timers ensures WhereItSays(r, [], u) {
      assert WhereItSays(s, [], u);
    }
  }

  // ---- Every routine keeps the invariant ------------------------------------------------------

  lemma SchedInv(s: State, t: Id, expires: nat)
    requires Inv(s) && t in s.timers
    ensures Inv(Sched(s, t, expires))
  {
    hide NoDup, SlotOk, WhereItSays, Placed, Sched;
    SchedKeeps(s, t, expires, []);
    var r := Sched(s, t, expires);
    forall u | u in r.timers ensures OnTime(r, u) {
      if u != t {
        assert OnTime(s, u);
      }
    }
  }

  lemma OpenInv()
    ensures Inv(Open())
    ensures Open().curtime == 0 && Open().timers == map[] && Open().expired == []
    ensures forall w, b :: 0 <= w < WHEEL_NUM && 0 <= b < WHEEL_LEN ==> Open().slots[w][b] == []
  {
    forall w: nat, b: nat | w < WHEEL_NUM && b < WHEEL_LEN ensures SlotOk(Open(), [], w, b) {
    }
  }

  lemma TimersChanged(s: State, t: Id, timer: Timer, r: State)
    requires Inv(s) && r == s.(timers := s.timers[t := timer])
    requires timer.place.Nowhere? || t in s.timers
    requires t in s.timers ==> timer.place == s.timers[t].place
    requires t in s.timers && !timer.place.Nowhere? ==> timer.expires == s.timers[t].expires
    ensures Inv(r)
  {
    hide NoDup, Placed;
    forall w: nat, b: nat | w < WHEEL_NUM && b < WHEEL_LEN ensures SlotOk(r, [], w, b) {
      assert SlotOk(s, [], w, b);
    }
    forall u | u in r.timers ensures WhereItSays(r, [], u) && OnTime(r, u) {
      if u in s.timers {
        assert WhereItSays(s, [], u) && OnTime(s, u);
      }
    }
  }

  lemma DelInv(s: State, t: Id)
    requires Inv(s) && t in s.timers
    ensures Inv(Del(s, t)) && Del(s, t).timers == Moved(s, t, Nowhere)
  {
    hide NoDup, SlotOk, WhereItSays, Placed;
    DelKeeps(s, t, []);
    var r := Del(s, t);
    forall u | u in r.timers ensures OnTime(r, u) {
      assert OnTime(s, u);
    }
  }

  /** The state `timeouts_add` schedules in, with the interval of a periodic timer set. */
  function WithInterval(s: State, t: Id, timeout: nat): State
    requires t in s.timers
  {
    if s.timers[t].periodic then
      s.(timers := s.timers[t := s.timers[t].(interval := if timeout < 1 then 1 else timeout)])
    else s
  }

  lemma AddInv(s: State, t: Id, timeout: nat)
    requires Inv(s) && t in s.timers
    ensures Inv(Add(s, t, timeout)) && Inv(WithInterval(s, t, timeout))
  {
    hide Inv, Sched;
    if s.timers[t].periodic {
      TimersChanged(s, t, s.timers[t].(interval := if timeout < 1 then 1 else timeout), WithInterval(s, t, timeout));
    }
    SchedInv(WithInterval(s, t, timeout), t, if s.timers[t].absolute then timeout else s.curtime + timeout);
  }

  lemma GetInv(s: State)
    requires Inv(s)
    ensures Inv(Get(s).0)
  {
    hide NoDup, SlotOk, WhereItSays, Placed, Sched;
    if s.expired != [] {
      var t := s.expired[0];
      var s1 := s.(expired := s.expired[1..], timers := Moved(s, t, Nowhere));
      PopExpired(s, s1);
      forall u | u in s1.timers ensures OnTime(s1, u) {
        assert OnTime(s, u);
      }
      if s.timers[t].periodic && s.timers[t].interval > 0 {
        SchedInv(s1, t, NextExpiry(s.timers[t].expires, s.timers[t].interval, s.curtime));
      }
    }
  }

  // ---- What the invariant means ---------------------------------------------------------------

  predicate Armed(s: State, t: Id)
  {
    t in s.timers && !s.timers[t].place.Nowhere?
  }

  /**
   The expired queue holds exactly the armed timers that are due, once each; the slots hold exactly the others,
   in one place each.
  */
  lemma InvMeansExact(s: State, t: Id)
    requires Inv(s)
    ensures t in s.expired <==> Armed(s, t) && s.timers[t].expires <= s.curtime
    ensures t in s.expired ==> multiset(s.expired)[t] == 1
    ensures (exists w, b :: 0 <= w < WHEEL_NUM && 0 <= b < WHEEL_LEN && t in s.slots[w][b]) <==>
            Armed(s, t) && s.timers[t].expires > s.curtime
    ensures forall w, b :: 0 <= w < WHEEL_NUM && 0 <= b < WHEEL_LEN && t in s.slots[w][b] ==>
              s.timers[t].place == InSlot(w, b) && multiset(s.slots[w][b])[t] == 1
  {
    if t in s.timers {
      assert WhereItSays(s, [], t) && OnTime(s, t);
    }
    if t in s.expired {
      NoDupCount(s.expired, t);
    }
    forall w: nat, b: nat | w < WHEEL_NUM && b < WHEEL_LEN && t in s.slots[w][b]
      ensures t in s.timers && s.timers[t].place == InSlot(w, b) && multiset(s.slots[w][b])[t] == 1
    {
      assert SlotOk(s, [], w, b);
      NoDupCount(s.slots[w][b], t);
    }
  }

  lemma {:induction false} NoDupCount(l: seq<Id>, t: Id)
    requires NoDup(l) && t in l
    ensures multiset(l)[t] == 1
  {
    assert l == [l[0]] + l[1..];
    assert l[0] !in l[1..];
    if t != l[0] {
      NoDupCount(l[1..], t);
    }
  }

  // ---- The reference machine ------------------------------------------------------------------

  datatype RefTimer = RefTimer(periodic: bool, absolute: bool, expires: nat, interval: nat, armed: bool)

  datatype Ref = Ref(now: nat, timers: map<Id, RefTimer>, queue: seq<Id>)

  datatype Op =
    | DoInit(id: Id, periodic: bool, absolute: bool) | DoAdd(id: Id, timeout: nat) | DoDel(id: Id)
    | DoUpdate(now: nat) | DoGet

  predicate Due(r: Ref, t: Id)
  {
    t in r.timers && r.timers[t].armed && r.timers[t].expires <= r.now
  }

  /**
   What the callers promise: a timer is initialised before use and not while it is linked, and time does not go
   backwards.
  */
  predicate Legal(r: Ref, op: Op)
  {
    match op
    case DoInit(t, _, _) => t in r.timers ==> !r.timers[t].armed
    case DoAdd(t, _) => t in r.timers
    case DoDel(t) => t in r.timers
    case DoUpdate(now) => r.now <= now
    case DoGet => true
  }

  /** The timer as `timeouts_add` leaves it. */
  function Added(timer: RefTimer, now: nat, timeout: nat): RefTimer
  {
    timer.(
      interval := if !timer.periodic then timer.interval else if timeout < 1 then 1 else timeout,
      expires := if timer.absolute then timeout else now + timeout,
      armed := true)
  }

  /** The timer as `timeouts_get` leaves it. */
  function Taken(timer: RefTimer, now: nat): RefTimer
  {
    if timer.periodic && timer.interval > 0 then timer.(expires := NextExpiry(timer.expires, timer.interval, now))
    else timer.(armed := false)
  }

  /** One step of the reference machine, from `r` to `n`, with the observed result `out`. */
  ghost predicate RefStep(r: Ref, op: Op, out: Option<Id>, n: Ref)
    requires Legal(r, op)
  {
    match op
    case DoInit(t, periodic, absolute) =>
      n == r.(timers := r.timers[t := RefTimer(periodic, absolute, 0, 0, false)]) && out == None
    case DoAdd(t, timeout) =>
      var timer := Added(r.timers[t], r.now, timeout);
      && n == Ref(r.now, r.timers[t := timer], Without(r.queue, t) + (if timer.expires <= r.now then [t] else []))
      && out == None
    case DoDel(t) =>
      && n == Ref(r.now, r.timers[t := r.timers[t].(armed := false)], Without(r.queue, t))
      && out == None
    case DoUpdate(now) =>
      && n.now == now && n.timers == r.timers && out == None
      && |n.queue| >= |r.queue| && n.queue[..|r.queue|] == r.queue && NoDup(n.queue)
      && (forall t :: t in n.queue[|r.queue|..] <==> Due(n, t) && !Due(r, t))
    case DoGet =>
      if r.queue == [] then n == r && out == None
      else
        var t := r.queue[0];
        && t in r.timers && out == Some(t)
        && n == Ref(r.now, r.timers[t := Taken(r.timers[t], r.now)], r.queue[1..])
  }

  /** The queue holds exactly the timers that are due. */
  ghost predicate RefOk(r: Ref)
  {
    NoDup(r.queue) && forall t :: t in r.queue <==> Due(r, t)
  }

  /** The reference machine keeps that by itself: whatever a get hands out was due, and nothing only when none was. */
  lemma RefStepOk(r: Ref, op: Op, out: Option<Id>, n: Ref)
    requires RefOk(r) && Legal(r, op) && RefStep(r, op, out, n)
    ensures RefOk(n)
    ensures op.DoGet? ==> (if out.Some? then Due(r, out.value) else forall t :: !Due(r, t))
  {
    match op
    case DoInit(t, _, _) =>
    case DoAdd(t, timeout) =>
      WithoutIs(r.queue, t);
      NoDupOne(t);
      NoDupConcat(Without(r.queue, t), if n.timers[t].expires <= n.now then [t] else []);
    case DoDel(t) =>
      WithoutIs(r.queue, t);
    case DoUpdate(now) =>
      assert n.queue == r.queue + n.queue[|r.queue|..];
    case DoGet =>
      if r.queue != [] {
        var t := r.queue[0];
        assert r.queue == [t] + r.queue[1..];
        assert t in r.queue && t !in r.queue[1..];
        assert forall u :: u != t ==> (Due(n, u) <==> Due(r, u)) && (u in n.queue <==> u in r.queue);
        if r.timers[t].periodic && r.timers[t].interval > 0 {
          var k := NextExpiryInPhase(r.timers[t].expires, r.timers[t].interval, r.now);
        }
      }
  }

  /** A run of the reference machine from `r` to `n`. */
  ghost predicate RefRun(r: Ref, ops: seq<Op>, outs: seq<Option<Id>>, n: Ref)
    requires |ops| == |outs|
    decreases |ops|
  {
    if ops == [] then n == r
    else
      && Legal(r, ops[0])
      && exists m :: RefStep(r, ops[0], outs[0], m) && RefRun(m, ops[1..], outs[1..], n)
  }

  function AbsTimer(timer: Timer): RefTimer
  {
    RefTimer(timer.periodic, timer.absolute, timer.expires, timer.interval, !timer.place.Nowhere?)
  }

  function Abs(s: State): Ref
  {
    Ref(s.curtime, map t | t in s.timers :: AbsTimer(s.timers[t]), s.expired)
  }

  // ---- Refinement -----------------------------------------------------------------------------

  function Step(s: State, op: Op): (State, Option<Id>)
    requires Inv(s) && Legal(Abs(s), op)
  {
    match op
    case DoInit(t, periodic, absolute) => (Init(s, t, periodic, absolute), None)
    case DoAdd(t, timeout) => (Add(s, t, timeout), None)
    case DoDel(t) => (Del(s, t), None)
    case DoUpdate(now) => (Update(s, now), None)
    case DoGet => Get(s)
  }

  lemma InvLinked(s: State)
    requires Inv(s)
    ensures Linked(s, []) && Shape(s)
  {
  }

  /** The abstract state is one the reference machine can be in. */
  lemma AbsOk(s: State)
    requires Inv(s)
    ensures RefOk(Abs(s))
  {
    forall t ensures t in s.expired <==> Due(Abs(s), t) {
      InvMeansExact(s, t);
    }
  }

  lemma SchedTimers(s: State, t: Id, expires: nat)
    requires Linked(s, []) && t in s.timers
    ensures Shape(s) && Sched(s, t, expires).curtime == s.curtime
    ensures Abs(Sched(s, t, expires)).timers ==
            Abs(s).timers[t := AbsTimer(s.timers[t]).(expires := expires, armed := true)]
  {
    hide Sched, OnTime, Linked;
    assert Shape(s) by { LinkedShape(s, []); }
    hide Shape;
    SchedKeeps(s, t, expires, []);
  }

  /** Scheduling arms the timer at the new expiry, behind all others when it is due, and touches no other. */
  lemma SchedAbs(s: State, t: Id, expires: nat)
    requires Linked(s, []) && t in s.timers
    ensures Shape(s) && Abs(Sched(s, t, expires)) ==
            Ref(s.curtime, Abs(s).timers[t := AbsTimer(s.timers[t]).(expires := expires, armed := true)],
                Without(s.expired, t) + (if expires <= s.curtime then [t] else []))
  {
    hide Sched, Linked, Without, Shape, AbsTimer;
    SchedTimers(s, t, expires);
    SchedQueue(s, t, expires);
  }

  lemma SchedQueue(s: State, t: Id, expires: nat)
    requires Linked(s, []) && t in s.timers
    ensures Shape(s)
    ensures Sched(s, t, expires).expired == Without(s.expired, t) + (if expires <= s.curtime then [t] else [])
  {
    hide Sched, Linked;
    LinkedShape(s, []);
    SchedOrder(s, t, expires, []);
  }

  lemma AddRefines(s: State, t: Id, timeout: nat)
    requires Inv(s) && t in s.timers
    ensures RefStep(Abs(s), DoAdd(t, timeout), None, Abs(Add(s, t, timeout)))
  {
    hide Inv, Linked, Sched;
    InvLinked(s);
    AddInv(s, t, timeout);
    var s1 := WithInterval(s, t, timeout);
    InvLinked(s1);
    var expires := if s.timers[t].absolute then timeout else s.curtime + timeout;
    SchedAbs(s1, t, expires);
    hide Abs;
    WithIntervalAbs(s, t, timeout);
    Overwrite(Abs(s).timers, t, AbsTimer(s1.timers[t]), AbsTimer(s1.timers[t]).(expires := expires, armed := true));
  }

  lemma WithIntervalAbs(s: State, t: Id, timeout: nat)
    requires t in s.timers
    ensures Abs(WithInterval(s, t, timeout)) ==
            Abs(s).(timers := Abs(s).timers[t := AbsTimer(WithInterval(s, t, timeout).timers[t])])
    ensures t in Abs(s).timers && Abs(s).timers[t] == AbsTimer(s.timers[t])
    ensures Abs(s).now == s.curtime && Abs(s).queue == s.expired
  {
  }

  lemma Overwrite<K, V>(m: map<K, V>, k: K, a: V, b: V)
    ensures m[k := a][k := b] == m[k := b]
  {
  }

  lemma GetRefines(s: State)
    requires Inv(s)
    ensures RefStep(Abs(s), DoGet, Get(s).1, Abs(Get(s).0))
  {
    hide Inv, Sched, OnTime, NoDup, SlotOk, WhereItSays;
    InvLinked(s);
    var (r, out) := Get(s);
    if s.expired != [] {
      var t := s.expired[0];
      InvMeansExact(s, t);
      var s1 := s.(expired := s.expired[1..], timers := Moved(s, t, Nowhere));
      PopExpired(s, s1);
      NotAgain(s);
      if s.timers[t].periodic && s.timers[t].interval > 0 {
        var next := NextExpiry(s.timers[t].expires, s.timers[t].interval, s.curtime);
        var k := NextExpiryInPhase(s.timers[t].expires, s.timers[t].interval, s.curtime);
        SchedAbs(s1, t, next);
        WithoutNone(s1.expired, t);
        assert s1.expired + [] == s1.expired;
      }
      assert Abs(r).timers == Abs(s).timers[t := Taken(Abs(s).timers[t], s.curtime)];
    }
  }

  lemma NotAgain(s: State)
    requires Linked(s, []) && s.expired != []
    ensures s.expired[0] !in s.expired[1..]
  {
    assert s.expired == [s.expired[0]] + s.expired[1..];
  }

  lemma InitRefines(s: State, t: Id, periodic: bool, absolute: bool)
    requires Inv(s) && Legal(Abs(s), DoInit(t, periodic, absolute))
    ensures Inv(Init(s, t, periodic, absolute))
    ensures RefStep(Abs(s), DoInit(t, periodic, absolute), None, Abs(Init(s, t, periodic, absolute)))
  {
    hide Inv;
    TimersChanged(s, t, Timer(periodic, absolute, 0, 0, Nowhere), Init(s, t, periodic, absolute));
    assert Abs(Init(s, t, periodic, absolute)).timers ==
           Abs(s).timers[t := RefTimer(periodic, absolute, 0, 0, false)];
  }

  lemma DelRefines(s: State, t: Id)
    requires Inv(s) && t in s.timers
    ensures Inv(Del(s, t))
    ensures RefStep(Abs(s), DoDel(t), None, Abs(Del(s, t)))
  {
    hide Inv, Linked, Del;
    InvLinked(s);
    DelInv(s, t);
    DelOrder(s, t, []);
    assert Abs(Del(s, t)).timers == Abs(s).timers[t := Abs(s).timers[t].(armed := false)];
  }

  /** An update moves the clock and puts the timers that came due behind those that were. */
  lemma UpdateRefines(s: State, now: nat)
    requires Inv(s) && s.curtime <= now
    ensures RefStep(Abs(s), DoUpdate(now), None, Abs(Update(s, now)))
  {
    hide Inv, Update;
    var r := Update(s, now);
    assert Abs(r).timers == Abs(s).timers;
    UpdateAppends(s, now);
    AbsOk(s);
    AbsOk(r);
    forall t ensures t in r.expired[|s.expired|..] <==> Due(Abs(r), t) && !Due(Abs(s), t) {
      assert r.expired == s.expired + r.expired[|s.expired|..];
      if t in s.expired { OnlyInFront(r.expired, |s.expired|, t); }
    }
  }

  lemma OnlyInFront(l: seq<Id>, n: nat, t: Id)
    requires NoDup(l) && n <= |l| && t in l[..n]
    ensures t !in l[n..]
  {
  }

  /** Each routine of the wheel is one step of the reference machine. */
  lemma StepRefines(s: State, op: Op)
    requires Inv(s) && Legal(Abs(s), op)
    ensures Inv(Step(s, op).0)
    ensures RefStep(Abs(s), op, Step(s, op).1, Abs(Step(s, op).0))
  {
    hide Inv, Init, Add, Del, Get, Update, RefStep;
    match op
    case DoInit(t, periodic, absolute) =>
      InitRefines(s, t, periodic, absolute);
    case DoAdd(t, timeout) =>
      AddInv(s, t, timeout);
      AddRefines(s, t, timeout);
    case DoDel(t) =>
      DelRefines(s, t);
    case DoUpdate(now) =>
      UpdateRefines(s, now);
    case DoGet =>
      GetInv(s);
      GetRefines(s);
  }

  /** Running a list of operations; it stops at the first one its caller had no right to. */
  function Run(s: State, ops: seq<Op>): (r: (State, seq<Option<Id>>))
    requires Inv(s)
    ensures Inv(r.0)
    decreases |ops|
  {
    if ops == [] || !Legal(Abs(s), ops[0]) then (s, [])
    else
      StepRefines(s, ops[0]);
      var (s1, out) := Step(s, ops[0]);
      var (s2, outs) := Run(s1, ops[1..]);
      (s2, [out] + outs)
  }

  /** Every run of the wheel is a run of the reference machine: same results, in the same order, same timers. */
  lemma {:induction false} RunRefines(s: State, ops: seq<Op>)
    requires Inv(s)
    ensures |Run(s, ops).1| <= |ops|
    ensures RefRun(Abs(s), ops[..|Run(s, ops).1|], Run(s, ops).1, Abs(Run(s, ops).0))
    ensures |Run(s, ops).1| < |ops| ==> !Legal(Abs(Run(s, ops).0), ops[|Run(s, ops).1|])
    decreases |ops|
  {
    hide Inv, RefStep, Legal, Abs, Step;
    if ops == [] || !Legal(Abs(s), ops[0]) {
    } else {
      StepRefines(s, ops[0]);
      var (s1, out) := Step(s, ops[0]);
      RunRefines(s1, ops[1..]);
      var n := |Run(s1, ops[1..]).1|;
      assert Run(s, ops).1 == [out] + Run(s1, ops[1..]).1;
      assert ops[..n + 1][1..] == ops[1..][..n];
      assert ops[..n + 1][0] == ops[0];
      assert Run(s, ops).1[1..] == Run(s1, ops[1..]).1;
    }
  }

  // ---- First in, first out --------------------------------------------------------------------

  /** The operation is called on the timer. */
  predicate Touches(op: Op, t: Id)
  {
    match op
    case DoInit(u, _, _) => u == t
    case DoAdd(u, _) => u == t
    case DoDel(u) => u == t
    case _ => false
  }

  /** A step keeps the order of two queued timers, or hands out the first of them. */
  lemma RefStepOrder(r: Ref, op: Op, out: Option<Id>, n: Ref, a: Id, b: Id)
    requires RefOk(r) && Legal(r, op) && RefStep(r, op, out, n)
    requires Before(r.queue, a, b) && !Touches(op, a) && !Touches(op, b)
    ensures out != Some(b)
    ensures out == Some(a) || Before(n.queue, a, b)
  {
    var i, j :| 0 <= i < j < |r.queue| && r.queue[i] == a && r.queue[j] == b;
    match op
    case DoInit(_, _, _) =>
    case DoAdd(t, timeout) =>
      WithoutOrder(r.queue, t, a, b);
      var rest := Without(r.queue, t);
      var x, y :| 0 <= x < y < |rest| && rest[x] == a && rest[y] == b;
      assert n.queue[x] == a && n.queue[y] == b;
    case DoDel(t) =>
      WithoutOrder(r.queue, t, a, b);
    case DoUpdate(_) =>
      assert n.queue[..|r.queue|][i] == a && n.queue[..|r.queue|][j] == b;
      assert n.queue[i] == a && n.queue[j] == b;
    case DoGet =>
      if i > 0 {
        assert n.queue[i - 1] == a && n.queue[j - 1] == b;
      }
  }

  /**
   First in, first out over whole runs: of two timers in the expired queue the one in front is handed out first,
   as long as neither is added, deleted or initialised again.
  */
  lemma {:induction false} FirstInFirstOut(s: State, ops: seq<Op>, a: Id, b: Id, j: nat) returns (i: nat)
    requires Inv(s) && Before(s.expired, a, b)
    requires forall op :: op in ops ==> !Touches(op, a) && !Touches(op, b)
    requires j < |Run(s, ops).1| && Run(s, ops).1[j] == Some(b)
    ensures i < j && Run(s, ops).1[i] == Some(a)
    decreases |ops|
  {
    hide Inv, RefStep, Legal, Step, Touches;
    StepRefines(s, ops[0]);
    var (s1, out) := Step(s, ops[0]);
    AbsOk(s);
    assert ops[0] in ops;
    RefStepOrder(Abs(s), ops[0], out, Abs(s1), a, b);
    assert Run(s, ops).1 == [out] + Run(s1, ops[1..]).1;
    if out == Some(a) {
      i := 0;
    } else {
      i := FirstInFirstOut(s1, ops[1..], a, b, j - 1);
      i := i + 1;
    }
  }

  // ---- Draining -------------------------------------------------------------------------------

  /** `NotifyAllTimeouts` after its update: get until there is nothing left. */
  function Drain(s: State): (r: (State, seq<Id>))
    requires Inv(s)
    decreases |s.expired|
  {
    GetInv(s);
    if s.expired == [] then (s, [])
    else
      GetShrinks(s);
      var (s1, out) := Get(s);
      var (s2, rest) := Drain(s1);
      (s2, [out.value] + rest)
  }

  /**
   Each get takes exactly the head off the expired queue, also when the timer is periodic: a re-armed timer is
   never due at once.
  */
  lemma GetShrinks(s: State)
    requires Inv(s) && s.expired != []
    ensures Get(s).1 == Some(s.expired[0]) && Get(s).0.expired == s.expired[1..]
  {
    var t := s.expired[0];
    if s.timers[t].periodic && s.timers[t].interval > 0 {
      var k := NextExpiryInPhase(s.timers[t].expires, s.timers[t].interval, s.curtime);
    }
  }

  /** Draining hands out the expired queue in order and stops, whatever timers are periodic. */
  lemma {:induction false} DrainExact(s: State)
    requires Inv(s)
    ensures Drain(s).1 == s.expired
    ensures Inv(Drain(s).0) && Drain(s).0.expired == [] && Drain(s).0.curtime == s.curtime
    decreases |s.expired|
  {
    hide Inv, Sched;
    GetInv(s);
    if s.expired != [] {
      InvLinked(s);
      GetShrinks(s);
      DrainExact(Get(s).0);
    }
  }

  /**
   One tick of the timer loop: after the clock moves to `now`, draining calls each armed timer with `expires <=
   now` exactly once, and no other.
  */
  lemma TickFiresExactlyDue(s: State, now: nat, t: Id)
    requires Inv(s) && s.curtime <= now
    ensures var fired := Drain(Update(s, now)).1;
      multiset(fired)[t] == if Armed(s, t) && s.timers[t].expires <= now then 1 else 0
    ensures var r := Drain(Update(s, now)).0;
      Armed(r, t) ==> r.timers[t].expires > now
  {
    hide Linked, Timely;
    var u := Update(s, now);
    DrainExact(u);
    InvMeansExact(u, t);
    InvMeansExact(Drain(u).0, t);
  }
}
