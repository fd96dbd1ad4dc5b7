/**
 Progress with any number of timers: sleeping for the soft timeout again and again makes every timer within the
 horizon fire exactly at its expiry. The reason is that no timer ever climbs to a higher wheel, and each wake-up
 brings at least one down, or out.
*/
module WheelProgress {
  import opened Common
  import opened Bits
  import opened WheelArithmetic
  import opened WheelModel
  import opened WheelProofs
  import opened WheelRuns
  import opened WheelTimeout

  // ---- No timer sits below its remaining time -------------------------------------------------

  /** Wheel `w` is high enough for what is left until `expires`. */
  predicate HighEnough(w: nat, expires: nat, now: nat)
  {
    w < WHEEL_NUM - 1 ==> expires - now < Span(w + 1)
  }

  predicate PlaceHigh(place: Place, expires: nat, now: nat)
  {
    place.InSlot? ==> HighEnough(place.wheel, expires, now)
  }

  predicate AllHigh(s: State)
  {
    forall t :: t in s.timers ==> PlaceHigh(s.timers[t].place, s.timers[t].expires, s.curtime)
  }

  /** Where scheduling at time `now` puts a timer. */
  predicate JustPlaced(place: Place, expires: nat, now: nat)
  {
    place == OnExpired || (place.InSlot? && now < expires && place.wheel == TimeoutWheel(expires - now))
  }

  lemma JustPlacedHigh(place: Place, expires: nat, now: nat)
    requires JustPlaced(place, expires, now)
    ensures PlaceHigh(place, expires, now)
  {
    if place.InSlot? {
      TimeoutWheelRange(expires - now);
    }
  }

  /** A timer scheduled again, later, does not go to a higher wheel. */
  lemma NeverUp(w: nat, place: Place, expires: nat, was: nat, now: nat)
    requires w < WHEEL_NUM && HighEnough(w, expires, was) && was <= now && JustPlaced(place, expires, now)
    ensures place.InSlot? ==> place.wheel <= w
  {
    if place.InSlot? {
      TimeoutWheelRange(expires - now);
    }
  }

  lemma SchedPlace(s: State, t: Id, expires: nat)
    requires Shape(s) && t in s.timers
    ensures JustPlaced(Sched(s, t, expires).timers[t].place, expires, s.curtime)
  {
    hide TimeoutWheel, TimeoutSlot;
  }

  /** The last loop of an update leaves a timer where it is or schedules it at the new time. */
  lemma {:induction false} ReschedPlace(s: State, todo: seq<Id>, t: Id)
    requires Linked(s, todo) && Timely(s, todo) && t in s.timers
    ensures t in Resched(s, todo).timers
    ensures var p := Resched(s, todo).timers[t].place;
      if t in todo then JustPlaced(p, s.timers[t].expires, s.curtime) else p == s.timers[t].place
    decreases |todo|
  {
    hide NoDup, SlotOk, WhereItSays, OnTime, Sched, JustPlaced, Timely;
    if todo != [] {
      var u := todo[0];
      var s1 := s.(timers := Moved(s, u, Nowhere));
      var s2 := Sched(s1, u, s.timers[u].expires);
      PopTodo(s, todo, s1);
      ReschedStep(s, todo, s2);
      SchedKeeps(s1, u, s.timers[u].expires, todo[1..]);
      SchedPlace(s1, u, s.timers[u].expires);
      ReschedPlace(s2, todo[1..], t);
      assert todo == [u] + todo[1..];
    }
  }

  /** An update leaves a timer where it is or, when it was in a slot, schedules it at the new time. */
  lemma UpdatePlace(s: State, now: nat, t: Id)
    requires Inv(s) && s.curtime <= now && t in s.timers
    ensures t in Update(s, now).timers
    ensures var p := Update(s, now).timers[t].place;
      || p == s.timers[t].place
      || (s.timers[t].place.InSlot? && JustPlaced(p, s.timers[t].expires, now))
  {
    hide Sweep, Resched, Update, JustPlaced;
    UpdateParts(s, now);
    UpdateSweeps(s, now);
    var (r, todo) := Sweep(s, 0, now - s.curtime, now, []);
    ReschedPlace(r.(curtime := now), todo, t);
    assert t in todo ==> s.timers[t].place.InSlot? by { hide NoDup, SlotOk, WhereItSays, OnTime; }
  }

  lemma UpdateHigh(s: State, now: nat)
    requires Inv(s) && s.curtime <= now && AllHigh(s)
    ensures AllHigh(Update(s, now))
  {
    hide Inv, Update, JustPlaced;
    var r := Update(s, now);
    forall t | t in r.timers ensures PlaceHigh(r.timers[t].place, r.timers[t].expires, now) {
      UpdatePlace(s, now, t);
      if JustPlaced(r.timers[t].place, r.timers[t].expires, now) {
        JustPlacedHigh(r.timers[t].place, r.timers[t].expires, now);
      }
    }
  }

  lemma SchedHigh(s: State, t: Id, expires: nat)
    requires Linked(s, []) && t in s.timers
    requires forall u :: u in s.timers && u != t ==> PlaceHigh(s.timers[u].place, s.timers[u].expires, s.curtime)
    ensures AllHigh(Sched(s, t, expires))
  {
    hide Linked, Sched, JustPlaced, OnTime, PlaceHigh;
    assert Shape(s) by { LinkedShape(s, []); }
    SchedKeeps(s, t, expires, []);
    SchedPlace(s, t, expires);
    JustPlacedHigh(Sched(s, t, expires).timers[t].place, expires, s.curtime);
  }

  lemma StepHigh(s: State, op: Op)
    requires Inv(s) && AllHigh(s) && Legal(Abs(s), op)
    ensures AllHigh(Step(s, op).0)
  {
    hide Inv, Sched, Update, Linked;
    InvLinked(s);
    match op
    case DoInit(t, periodic, absolute) =>
    case DoAdd(t, timeout) =>
      AddInv(s, t, timeout);
      var s1 := WithInterval(s, t, timeout);
      InvLinked(s1);
      SchedHigh(s1, t, if s.timers[t].absolute then timeout else s.curtime + timeout);
    case DoDel(t) =>
      DelInv(s, t);
    case DoUpdate(now) =>
      UpdateHigh(s, now);
    case DoGet =>
      if s.expired != [] {
        var t := s.expired[0];
        var s1 := s.(expired := s.expired[1..], timers := Moved(s, t, Nowhere)) by { HeadKnown(s); }
        PopExpired(s, s1);
        if s.timers[t].periodic && s.timers[t].interval > 0 {
          SchedHigh(s1, t, NextExpiry(s.timers[t].expires, s.timers[t].interval, s.curtime));
        }
      }
  }

  lemma HeadKnown(s: State)
    requires Linked(s, []) && s.expired != []
    ensures s.expired[0] in s.timers
  {
  }

  /** In every run. */
  lemma {:induction false} RunHigh(s: State, ops: seq<Op>)
    requires Inv(s) && AllHigh(s)
    ensures AllHigh(Run(s, ops).0)
    decreases |ops|
  {
    hide Inv, Step, AllHigh, Legal;
    if ops != [] && Legal(Abs(s), ops[0]) {
      StepRefines(s, ops[0]);
      StepHigh(s, ops[0]);
      RunHigh(Step(s, ops[0]).0, ops[1..]);
    }
  }

  // ---- Each wake-up brings some timer down ----------------------------------------------------

  /** Some timer determines the soft timeout whenever one is pending. */
  lemma SomeDetermines(s: State) returns (t: Id)
    requires Inv(s) && !NothingPending(s)
    ensures Determines(s, t)
  {
    hide WheelInt, IntFrom, Inv, Here, Nearest;
    SoftTimeoutSound(s);
    InvLinked(s);
    IntFromIsMin(s, 0, NEVER);
    var w :| 0 <= w < WHEEL_NUM && s.pending[w] != {} && Int(s) == WheelInt(s, w);
    var slot := Here(s.curtime, w);
    var d := Nearest(s.pending[w], slot);
    NearestFacts(s.pending[w], slot);
    var b := (slot + d) % WHEEL_LEN;
    t := PendingHasTimer(s, w, b);
    var back: int := -(slot as int);
    ModShift(slot + d, back);
    ModIs(d, 0, d);
  }

  /** The timers in slots of wheel `w` and above. */
  function Above(s: State, w: nat): set<Id>
  {
    set t | t in s.timers && s.timers[t].place.InSlot? && s.timers[t].place.wheel >= w
  }

  /** The sum of `wheel + 1` over all pending timers, counted wheel by wheel. */
  function Height(s: State): nat
  {
    |Above(s, 0)| + |Above(s, 1)| + |Above(s, 2)| + |Above(s, 3)|
  }

  predicate InHorizon(s: State)
  {
    forall t :: t in s.timers && s.timers[t].place.InSlot? ==> s.timers[t].expires - s.curtime <= TIMEOUT_MAX
  }

  /** A wake-up fires no pending timer but at its expiry. */
  lemma WakeOnTime(s: State, t: Id)
    requires Inv(s) && t in s.timers && s.timers[t].place.InSlot?
    ensures s.curtime < Wake(s).curtime <= s.timers[t].expires && t in Wake(s).timers
    ensures var p := Wake(s).timers[t].place;
      p.InSlot? || (p == OnExpired && Wake(s).curtime == s.timers[t].expires)
  {
    hide Inv, Wake, Int;
    SoftTimeoutSound(s);
    if Wake(s).timers[t].place == OnExpired {
      InvExpired(Wake(s), t);
    }
  }

  /** A wake-up moves no timer up. */
  lemma WakePlace(s: State, t: Id)
    requires Inv(s) && AllHigh(s) && t in s.timers && t in Wake(s).timers
    ensures var p := Wake(s).timers[t].place;
      p.InSlot? ==> s.timers[t].place.InSlot? && p.wheel <= s.timers[t].place.wheel
  {
    hide Inv, Update, JustPlaced, Int;
    SoftTimeoutSound(s);
    var r := Wake(s);
    UpdatePlace(s, r.curtime, t);
    var p, q := r.timers[t].place, s.timers[t].place;
    if p != q {
      InItsSlot(s, t, q.wheel, q.slot);
      NeverUp(q.wheel, p, s.timers[t].expires, s.curtime, r.curtime);
    }
  }

  lemma WakeLowers(s: State)
    requires Inv(s) && AllHigh(s) && InHorizon(s) && !NothingPending(s)
    ensures Height(Wake(s)) < Height(s) && AllHigh(Wake(s)) && InHorizon(Wake(s))
  {
    hide Inv, Wake, Determines, Int, PlaceHigh, AllHigh;
    var r := Wake(s);
    WakeHigh(s);
    forall t | t in r.timers ensures t in s.timers && (r.timers[t].place.InSlot? ==>
      s.timers[t].place.InSlot? && r.timers[t].place.wheel <= s.timers[t].place.wheel)
    {
      WakePlace(s, t);
    }
    SoftTimeoutSound(s);
    forall w: nat ensures Above(r, w) <= Above(s, w) && |Above(r, w)| <= |Above(s, w)| {
      Smaller(Above(r, w), Above(s, w));
    }
    var t := SomeDetermines(s);
    assert t in s.timers && s.timers[t].place.InSlot? by { DeterminesIsPending(s, t); }
    WakeProgress(s, t);
    var w, b := s.timers[t].place.wheel, s.timers[t].place.slot;
    InItsSlot(s, t, w, b);
    Smaller(Above(r, w), Above(s, w) - {t});
  }

  lemma WakeHigh(s: State)
    requires Inv(s) && AllHigh(s)
    ensures AllHigh(Wake(s))
  {
    hide Inv, Linked, Update, AllHigh, Int;
    InvLinked(s);
    SoftTimeoutSound(s);
    UpdateHigh(s, s.curtime + Int(s));
  }

  lemma DeterminesIsPending(s: State, t: Id)
    requires Inv(s) && Determines(s, t)
    ensures t in s.timers && s.timers[t].place.InSlot?
  {
  }

  lemma {:induction false} Smaller<T>(a: set<T>, b: set<T>)
    requires a <= b
    ensures |a| <= |b|
    decreases |a|
  {
    if a != {} {
      var t :| t in a;
      Smaller(a - {t}, b - {t});
    }
  }

  // ---- Every timer fires on time --------------------------------------------------------------

  /** Every pending timer fires exactly at its expiry, after at most as many wake-ups as `wheel + 1` adds up to. */
  lemma {:induction false} AllFire(s: State, t: Id) returns (k: nat)
    requires Inv(s) && AllHigh(s) && InHorizon(s) && t in s.timers && s.timers[t].place.InSlot?
    ensures 1 <= k <= Height(s)
    ensures t in Wakes(s, k).timers && Wakes(s, k).timers[t].place == OnExpired
    ensures Wakes(s, k).curtime == s.timers[t].expires
    decreases Height(s)
  {
    hide Inv, Wake, Int, AllHigh, InHorizon, Height;
    WakeLowers(s);
    WakeOnTime(s, t);
    var u := Wake(s);
    assert Wakes(u, 0) == u;
    assert Wakes(s, 1) == u;
    if u.timers[t].place == OnExpired {
      k := 1;
    } else {
      var j := AllFire(u, t);
      k := j + 1;
    }
  }

  /** Beyond the horizon too every pending timer fires exactly at its expiry, if after more wake-ups. */
  lemma {:induction false} FiresOnTime(s: State, t: Id) returns (k: nat)
    requires Inv(s) && t in s.timers && s.timers[t].place.InSlot?
    ensures 1 <= k <= s.timers[t].expires - s.curtime
    ensures t in Wakes(s, k).timers && Wakes(s, k).timers[t].place == OnExpired
    ensures Wakes(s, k).curtime == s.timers[t].expires
    decreases s.timers[t].expires - s.curtime
  {
    hide Inv, Wake, Int;
    WakeOnTime(s, t);
    var u := Wake(s);
    assert Wakes(u, 0) == u;
    assert Wakes(s, 1) == u;
    if u.timers[t].place == OnExpired {
      k := 1;
    } else {
      var j := FiresOnTime(u, t);
      k := j + 1;
    }
  }

  /** The state a run from the opened wheel reaches. */
  function Reached(ops: seq<Op>): (s: State)
    ensures Inv(s)
  {
    OpenInv();
    Run(Open(), ops).0
  }

  /** The bound of `AllFire` holds in every state a run can reach. */
  lemma ReachableFires(ops: seq<Op>, t: Id) returns (k: nat)
    requires InHorizon(Reached(ops)) && t in Reached(ops).timers && Reached(ops).timers[t].place.InSlot?
    ensures var s := Reached(ops);
      && 1 <= k <= Height(s)
      && t in Wakes(s, k).timers && Wakes(s, k).timers[t].place == OnExpired
      && Wakes(s, k).curtime == s.timers[t].expires
  {
    hide Inv, Run, InHorizon, Wakes, Height;
    OpenInv();
    RunHigh(Open(), ops);
    k := AllFire(Reached(ops), t);
  }
}
