/**
 The invariant of the timing wheel is kept by every routine, and `Update`: the sweep takes every timer
 whose slot the clock has passed, leaves every other timer where it may stay, and puts the swept
 timers back.
*/
module WheelProofs {
  import opened Common
  import opened Bits
  import opened WheelArithmetic
  import opened WheelModel

  // ---- Lists ----------------------------------------------------------------------------------

  lemma NoDupConcat(a: seq<Id>, b: seq<Id>)
    requires NoDup(a) && NoDup(b) && forall t :: t in a ==> t !in b
    ensures NoDup(a + b)
  {
    var l := a + b;
    forall i, j | 0 <= i < j < |l| ensures l[i] != l[j] {
      if i < |a| && |a| <= j {
        assert l[i] in a && l[j] in b;
      }
    }
  }

  lemma {:induction false} RemoveFacts(l: seq<Id>, t: Id)
    requires NoDup(l)
    ensures NoDup(Remove(l, t)) && t !in Remove(l, t)
    ensures forall u :: u in Remove(l, t) <==> u in l && u != t
  {
    if l != [] {
      var rest := l[1..];
      assert l[0] !in rest;
      RemoveFacts(rest, t);
      assert l == [l[0]] + rest;
      if l[0] != t {
        NoDupConcat([l[0]], Remove(rest, t));
      }
    }
  }

  /** The timers keep everything but their place, and whether they are linked at all. */
  predicate SameTimers(a: map<Id, Timer>, b: map<Id, Timer>)
  {
    && a.Keys == b.Keys
    && (forall t :: t in a ==> b[t] == a[t].(place := b[t].place) && (a[t].place.Nowhere? <==> b[t].place.Nowhere?))
  }

  // ---- Del, Insert, Sched ---------------------------------------------------------------------

  lemma DelKeeps(s: State, t: Id, todo: seq<Id>)
    requires Linked(s, todo) && t in s.timers && t !in todo
    ensures Linked(Del(s, t), todo)
    ensures Del(s, t).timers == Moved(s, t, Nowhere)
  {
    hide NoDup;
    var r := Del(s, t);
    match s.timers[t].place {
      case Nowhere =>
        assert s.timers[t].(place := Nowhere) == s.timers[t];
      case OnExpired =>
        RemoveFacts(s.expired, t);
      case InSlot(w, b) =>
        assert SlotOk(s, todo, w, b);
        RemoveFacts(s.slots[w][b], t);
    }
    forall w: nat, b: nat | w < WHEEL_NUM && b < WHEEL_LEN ensures SlotOk(r, todo, w, b) {
      assert SlotOk(s, todo, w, b);
    }
    forall u | u in r.timers ensures WhereItSays(r, todo, u) {
      assert WhereItSays(s, todo, u);
    }
  }

  /** Linking a timer at the tail of a slot list. */
  lemma LinkSlot(s: State, t: Id, w: nat, b: nat, timer: Timer, todo: seq<Id>, r: State)
    requires Linked(s, todo) && t in s.timers && s.timers[t].place.Nowhere?
    requires w < WHEEL_NUM && b < WHEEL_LEN && timer.place == InSlot(w, b)
    requires r == s.(slots := s.slots[w := s.slots[w][b := s.slots[w][b] + [t]]],
                     pending := s.pending[w := s.pending[w] + One(b)],
                     timers := s.timers[t := timer])
    ensures Linked(r, todo)
  {
    hide NoDup;
    assert SlotOk(s, todo, w, b);
    NoDupOne(t);
    NoDupConcat(s.slots[w][b], [t]);
    forall v: nat, c: nat | v < WHEEL_NUM && c < WHEEL_LEN ensures SlotOk(r, todo, v, c) {
      assert SlotOk(s, todo, v, c);
    }
    forall u | u in r.timers ensures WhereItSays(r, todo, u) {
      assert WhereItSays(s, todo, u);
    }
  }

  /** Linking a timer at the tail of the expired queue. */
  lemma LinkExpired(s: State, t: Id, timer: Timer, todo: seq<Id>, r: State)
    requires Linked(s, todo) && t in s.timers && s.timers[t].place.Nowhere? && timer.place == OnExpired
    requires r == s.(expired := s.expired + [t], timers := s.timers[t := timer])
    ensures Linked(r, todo)
  {
    hide NoDup;
    NoDupOne(t);
    NoDupConcat(s.expired, [t]);
    forall w: nat, b: nat | w < WHEEL_NUM && b < WHEEL_LEN ensures SlotOk(r, todo, w, b) {
      assert SlotOk(s, todo, w, b);
    }
    forall u | u in r.timers ensures WhereItSays(r, todo, u) {
      assert WhereItSays(s, todo, u);
    }
  }

  lemma InsertKeeps(s: State, t: Id, expires: nat, todo: seq<Id>)
    requires Linked(s, todo) && t in s.timers && s.timers[t].place.Nowhere?
    ensures Linked(Insert(s, t, expires), todo)
    ensures forall u :: u in s.timers && u != t ==> Insert(s, t, expires).timers[u] == s.timers[u]
    ensures Insert(s, t, expires).timers[t] ==
            s.timers[t].(expires := expires, place := Insert(s, t, expires).timers[t].place)
    ensures !Insert(s, t, expires).timers[t].place.Nowhere?
    ensures OnTime(Insert(s, t, expires), t)
  {
    hide Linked, Placed, TimeoutWheel, TimeoutSlot;
    LinkedShape(s, todo);
    var r := Insert(s, t, expires);
    if expires > s.curtime {
      SchedPlaces(expires, s.curtime);
      var w := TimeoutWheel(expires - s.curtime);
      var b := TimeoutSlot(w, expires);
      LinkSlot(s, t, w, b, s.timers[t].(expires := expires, place := InSlot(w, b)), todo, r);
    } else {
      LinkExpired(s, t, s.timers[t].(expires := expires, place := OnExpired), todo, r);
    }
  }

  lemma LinkedShape(s: State, todo: seq<Id>)
    requires Linked(s, todo)
    ensures Shape(s)
  {
  }

  lemma NoDupOne(t: Id)
    ensures NoDup([t]) && NoDup([])
  {
  }

  /** `timeouts_sched` keeps every list consistent and puts the timer where it may sit. */
  lemma SchedKeeps(s: State, t: Id, expires: nat, todo: seq<Id>)
    requires Linked(s, todo) && t in s.timers && t !in todo
    ensures Linked(Sched(s, t, expires), todo)
    ensures forall u :: u in s.timers && u != t ==> Sched(s, t, expires).timers[u] == s.timers[u]
    ensures Sched(s, t, expires).timers[t] ==
            s.timers[t].(expires := expires, place := Sched(s, t, expires).timers[t].place)
    ensures !Sched(s, t, expires).timers[t].place.Nowhere?
    ensures OnTime(Sched(s, t, expires), t)
  {
    DelKeeps(s, t, todo);
    InsertKeeps(Del(s, t), t, expires, todo);
  }

  // ---- Order ----------------------------------------------------------------------------------

  lemma {:induction false} RemoveIsWithout(l: seq<Id>, t: Id)
    requires NoDup(l)
    ensures Remove(l, t) == Without(l, t)
  {
    if l != [] {
      assert l == [l[0]] + l[1..];
      assert l[0] !in l[1..];
      if l[0] == t {
        WithoutNone(l[1..], t);
      } else {
        RemoveIsWithout(l[1..], t);
      }
    }
  }

  /** Deleting takes the timer out of every list and leaves the others in their order. */
  lemma DelOrder(s: State, t: Id, todo: seq<Id>)
    requires Linked(s, todo) && t in s.timers
    ensures Del(s, t).expired == Without(s.expired, t)
    ensures forall w, b :: 0 <= w < WHEEL_NUM && 0 <= b < WHEEL_LEN ==>
              Del(s, t).slots[w][b] == Without(s.slots[w][b], t)
  {
    hide NoDup;
    if s.timers[t].place == OnExpired {
      RemoveIsWithout(s.expired, t);
    } else {
      WithoutNone(s.expired, t);
    }
    forall w: nat, b: nat | w < WHEEL_NUM && b < WHEEL_LEN
      ensures Del(s, t).slots[w][b] == Without(s.slots[w][b], t)
    {
      assert SlotOk(s, todo, w, b);
      if s.timers[t].place == InSlot(w, b) {
        RemoveIsWithout(s.slots[w][b], t);
      } else {
        WithoutNone(s.slots[w][b], t);
      }
    }
  }

  /** Linking puts the timer behind all others of one list. */
  lemma InsertOrder(s: State, t: Id, expires: nat)
    requires Shape(s) && t in s.timers
    ensures var r := Insert(s, t, expires); var p := r.timers[t].place;
      && r.expired == s.expired + (if expires <= s.curtime then [t] else [])
      && (expires <= s.curtime <==> p == OnExpired) && !p.Nowhere?
      && (forall w, b :: 0 <= w < WHEEL_NUM && 0 <= b < WHEEL_LEN ==>
            r.slots[w][b] == s.slots[w][b] + (if p == InSlot(w, b) then [t] else []))
  {
    hide TimeoutWheel, TimeoutSlot;
    assert s.expired + [] == s.expired;
  }

  /** Scheduling leaves every list in its order without the timer and puts it behind all others of one list. */
  lemma SchedOrder(s: State, t: Id, expires: nat, todo: seq<Id>)
    requires Linked(s, todo) && t in s.timers
    ensures var r := Sched(s, t, expires); var p := r.timers[t].place;
      && r.expired == Without(s.expired, t) + (if expires <= s.curtime then [t] else [])
      && (expires <= s.curtime <==> p == OnExpired) && !p.Nowhere?
      && (forall w, b :: 0 <= w < WHEEL_NUM && 0 <= b < WHEEL_LEN ==>
            r.slots[w][b] == Without(s.slots[w][b], t) + (if p == InSlot(w, b) then [t] else []))
  {
    hide Linked, Del, Insert, Without;
    LinkedShape(s, todo);
    DelOrder(s, t, todo);
    InsertOrder(Del(s, t), t, expires);
  }

  // ---- The sweep ------------------------------------------------------------------------------

  /** What a sweep leaves alone. */
  predicate SweptFrom(s: State, r: State)
  {
    r.timers == s.timers && r.expired == s.expired && r.curtime == s.curtime
  }

  /** Moving one slot list to `todo`. */
  lemma SweepSlot(s: State, w: nat, b: nat, todo: seq<Id>, r: State)
    requires Linked(s, todo) && w < WHEEL_NUM && b < WHEEL_LEN
    requires r == s.(slots := s.slots[w := s.slots[w][b := []]], pending := s.pending[w := s.pending[w] - One(b)])
    ensures Linked(r, todo + s.slots[w][b])
  {
    hide NoDup;
    assert SlotOk(s, todo, w, b);
    var todo1 := todo + s.slots[w][b];
    NoDupOne(0);
    NoDupConcat(todo, s.slots[w][b]);
    forall v: nat, c: nat | v < WHEEL_NUM && c < WHEEL_LEN ensures SlotOk(r, todo1, v, c) {
      assert SlotOk(s, todo, v, c);
    }
    forall u | u in r.timers ensures WhereItSays(r, todo1, u) {
      assert WhereItSays(s, todo, u);
    }
  }

  /** The inner loop empties exactly the masked slots of its wheel, and loses no timer. */
  lemma {:induction false} SweepWheelKeeps(s: State, w: nat, mask: Mask, todo: seq<Id>)
    requires Linked(s, todo) && w < WHEEL_NUM
    ensures var (r, todo1) := SweepWheel(s, w, mask, todo);
      && Linked(r, todo1) && SweptFrom(s, r)
      && (forall v :: 0 <= v < WHEEL_NUM && v != w ==> r.slots[v] == s.slots[v])
      && (forall b :: 0 <= b < WHEEL_LEN ==> r.slots[w][b] == if b in mask then [] else s.slots[w][b])
    decreases mask * s.pending[w]
  {
    hide NoDup;
    var hit := mask * s.pending[w];
    if hit == {} {
      forall b: nat | b < WHEEL_LEN && b in mask ensures s.slots[w][b] == [] {
        assert b !in hit;
        assert SlotOk(s, todo, w, b);
      }
    } else {
      var b := Ctz(hit);
      var s1 := s.(slots := s.slots[w := s.slots[w][b := []]], pending := s.pending[w := s.pending[w] - One(b)]);
      SweepSlot(s, w, b, todo, s1);
      SweepWheelKeeps(s1, w, mask, todo + s.slots[w][b]);
    }
  }

  /** Every timer still in a slot of a wheel below `w` may stay there at time `now`. */
  predicate StaysBelow(s: State, w: nat, now: nat)
    requires Shape(s) && w <= WHEEL_NUM
  {
    forall v, b, t :: 0 <= v < w && 0 <= b < WHEEL_LEN && t in s.slots[v][b] && t in s.timers ==>
      Placed(v, b, s.timers[t].expires, now)
  }

  /** Every timer still in a slot sits there correctly at the old time. */
  predicate PlacedAll(s: State)
    requires Shape(s)
  {
    StaysBelow(s, WHEEL_NUM, s.curtime)
  }

  /** One wheel swept: what is left on it may stay. */
  lemma WheelStays(s: State, r: State, w: nat, now: nat)
    requires Shape(s) && Shape(r) && SweptFrom(s, r) && w < WHEEL_NUM && s.curtime <= now
    requires PlacedAll(s) && StaysBelow(s, w, now)
    requires forall v :: 0 <= v < WHEEL_NUM && v != w ==> r.slots[v] == s.slots[v]
    requires forall b :: 0 <= b < WHEEL_LEN ==>
      r.slots[w][b] == if b in SweepMask(w, ElapsedAt(w, s.curtime, now), s.curtime, now) then [] else s.slots[w][b]
    ensures PlacedAll(r) && StaysBelow(r, w + 1, now)
  {
    hide SweepMask, ElapsedAt, Placed;
    forall b: nat, t | b < WHEEL_LEN && t in r.slots[w][b] && t in r.timers
      ensures Placed(w, b, r.timers[t].expires, now)
    {
      assert t in s.slots[w][b];
      UnsweptStaysPlaced(w, b, s.timers[t].expires, s.curtime, now);
    }
  }

  /** The loop stopped after wheel `w`: what is on the higher wheels may stay. */
  lemma HigherStay(s: State, w: nat, now: nat)
    requires Shape(s) && w < WHEEL_NUM && s.curtime <= now
    requires PlacedAll(s) && StaysBelow(s, w + 1, now)
    requires 0 !in SweepMask(w, ElapsedAt(w, s.curtime, now), s.curtime, now)
    ensures StaysBelow(s, WHEEL_NUM, now)
  {
    hide SweepMask, ElapsedAt, Placed;
    forall v: nat, b: nat, t | v < WHEEL_NUM && b < WHEEL_LEN && t in s.slots[v][b] && t in s.timers
      ensures Placed(v, b, s.timers[t].expires, now)
    {
      if v > w {
        BreakIsSound(w, s.curtime, now, v);
        UnsweptStaysPlaced(v, b, s.timers[t].expires, s.curtime, now);
      }
    }
  }

  lemma ElapsedNext(w: nat, was: nat, now: nat)
    requires w + 1 < WHEEL_NUM && was <= now
    ensures ElapsedAt(w + 1, was, now) ==
            if ElapsedAt(w, was, now) < WHEEL_LEN * Span(w) then WHEEL_LEN * Span(w) else ElapsedAt(w, was, now)
  {
  }

  /** The sweep loses no timer, and every timer it leaves in a slot may stay there at the new time. */
  lemma {:induction false} SweepKeeps(s: State, w: nat, elapsed: nat, now: nat, todo: seq<Id>)
    requires Linked(s, todo) && w <= WHEEL_NUM && s.curtime <= now
    requires PlacedAll(s) && StaysBelow(s, w, now)
    requires w < WHEEL_NUM ==> elapsed == ElapsedAt(w, s.curtime, now)
    ensures var (r, todo1) := Sweep(s, w, elapsed, now, todo);
      Linked(r, todo1) && SweptFrom(s, r) && StaysBelow(r, WHEEL_NUM, now)
    decreases WHEEL_NUM - w
  {
    hide SweepMask, ElapsedAt, Placed, NoDup, SlotOk, WhereItSays;
    if w < WHEEL_NUM {
      var mask := SweepMask(w, elapsed, s.curtime, now);
      var (s1, todo1) := SweepWheel(s, w, mask, todo);
      SweepWheelKeeps(s, w, mask, todo);
      WheelStays(s, s1, w, now);
      if 0 !in mask {
        HigherStay(s1, w, now);
      } else {
        if w + 1 < WHEEL_NUM {
          ElapsedNext(w, s.curtime, now);
        }
        var elapsed1 := if elapsed < WHEEL_LEN * Span(w) then WHEEL_LEN * Span(w) else elapsed;
        SweepKeeps(s1, w + 1, elapsed1, now, todo1);
      }
    }
  }

  // ---- Scheduling the swept timers again ------------------------------------------------------

  /** Taking the first timer off `todo`. */
  lemma PopTodo(s: State, todo: seq<Id>, r: State)
    requires Linked(s, todo) && todo != []
    requires r == s.(timers := Moved(s, todo[0], Nowhere))
    ensures Linked(r, todo[1..]) && todo[0] !in todo[1..]
  {
    var rest := todo[1..];
    assert todo == [todo[0]] + rest;
    assert NoDup(rest);
    forall w: nat, b: nat | w < WHEEL_NUM && b < WHEEL_LEN ensures SlotOk(r, rest, w, b) {
      assert SlotOk(s, todo, w, b);
    }
    forall u | u in r.timers ensures WhereItSays(r, rest, u) {
      assert WhereItSays(s, todo, u);
    }
  }

  /** One turn of the last loop of `timeouts_update`. */
  lemma ReschedStep(s: State, todo: seq<Id>, r: State)
    requires Linked(s, todo) && Timely(s, todo) && todo != []
    requires r == Sched(s.(timers := Moved(s, todo[0], Nowhere)), todo[0], s.timers[todo[0]].expires)
    ensures Linked(r, todo[1..]) && Timely(r, todo[1..]) && SameTimers(s.timers, r.timers) && r.curtime == s.curtime
  {
    hide NoDup, SlotOk, WhereItSays, Placed, Sched;
    var t := todo[0];
    var s1 := s.(timers := Moved(s, t, Nowhere));
    PopTodo(s, todo, s1);
    SchedKeeps(s1, t, s.timers[t].expires, todo[1..]);
    forall u | u in r.timers && u !in todo[1..] ensures OnTime(r, u) {
      if u != t {
        assert u !in todo;
        assert OnTime(s, u);
      }
    }
  }

  lemma {:induction false} ReschedKeeps(s: State, todo: seq<Id>)
    requires Linked(s, todo) && Timely(s, todo)
    ensures Inv(Resched(s, todo)) && SameTimers(s.timers, Resched(s, todo).timers) &&
        Resched(s, todo).curtime == s.curtime
    decreases |todo|
  {
    hide NoDup, SlotOk, WhereItSays, OnTime, Sched;
    if todo != [] {
      var t := todo[0];
      var s2 := Sched(s.(timers := Moved(s, t, Nowhere)), t, s.timers[t].expires);
      ReschedStep(s, todo, s2);
      ReschedKeeps(s2, todo[1..]);
    }
  }

  // ---- Update ---------------------------------------------------------------------------------

  /** `timeouts_update` with a time that does not go backwards */
  function Update(s: State, now: nat): (r: State)
    requires Inv(s) && s.curtime <= now
    ensures Inv(r) && r.curtime == now && SameTimers(s.timers, r.timers)
  {
    UpdateSweeps(s, now);
    var (s1, todo) := Sweep(s, 0, now - s.curtime, now, []);
    ReschedKeeps(s1.(curtime := now), todo);
    Resched(s1.(curtime := now), todo)
  }

  lemma UpdateSweeps(s: State, now: nat)
    requires Inv(s) && s.curtime <= now
    ensures var (r, todo) := Sweep(s, 0, now - s.curtime, now, []);
      && Linked(r.(curtime := now), todo) && Timely(r.(curtime := now), todo) && SweptFrom(s, r)
  {
    hide Placed, NoDup, SlotOk, WhereItSays, OnTime, Sweep, StaysBelow;
    PlacedFromInv(s);
    StaysBelowNone(s, now);
    SweepKeeps(s, 0, now - s.curtime, now, []);
    var (r, todo) := Sweep(s, 0, now - s.curtime, now, []);
    LinkedClock(r, todo, now);
    TimelyAfter(s, r, todo, now);
  }

  /** Rescheduling only appends to the expired queue. */
  lemma {:induction false} ReschedAppends(s: State, todo: seq<Id>)
    requires Linked(s, todo) && Timely(s, todo)
    ensures |Resched(s, todo).expired| >= |s.expired|
    ensures Resched(s, todo).expired[..|s.expired|] == s.expired
    decreases |todo|
  {
    hide NoDup, SlotOk, WhereItSays, OnTime, Sched, Linked;
    LinkedShape(s, todo);
    if todo != [] {
      var t := todo[0];
      var s1 := s.(timers := Moved(s, t, Nowhere)) by { TodoKnown(s, todo); }
      var s2 := Sched(s1, t, s.timers[t].expires);
      PopTodo(s, todo, s1);
      ReschedStep(s, todo, s2);
      SchedOrder(s1, t, s.timers[t].expires, todo[1..]);
      WithoutNone(s.expired, t) by { TodoKnown(s, todo); }
      ReschedAppends(s2, todo[1..]);
      assert s2.expired[..|s.expired|] == s.expired;
    }
  }

  lemma TodoKnown(s: State, todo: seq<Id>)
    requires Linked(s, todo)
    ensures forall t :: t in todo ==> t in s.timers && t !in s.expired
  {
    hide NoDup, SlotOk;
  }

  /** An update leaves the expired timers in their order, in front of those that it adds. */
  lemma UpdateAppends(s: State, now: nat)
    requires Inv(s) && s.curtime <= now
    ensures |Update(s, now).expired| >= |s.expired|
    ensures Update(s, now).expired[..|s.expired|] == s.expired
  {
    hide Sweep, Resched, Update, Linked, Timely;
    UpdateParts(s, now);
    UpdateSweeps(s, now);
    var (r, todo) := Sweep(s, 0, now - s.curtime, now, []);
    ReschedAppends(r.(curtime := now), todo);
  }

  predicate Rescheduled(r: State, todo: seq<Id>, now: nat, u: State)
  {
    Shape(r) && (forall t :: t in todo ==> t in r.timers) && u == Resched(r.(curtime := now), todo)
  }

  /** An update is its sweep, the new time, and the rescheduling of what was swept. */
  lemma UpdateParts(s: State, now: nat)
    requires Inv(s) && s.curtime <= now
    ensures Shape(s)
    ensures var (r, todo) := Sweep(s, 0, now - s.curtime, now, []);
      r.timers == s.timers && Rescheduled(r, todo, now, Update(s, now))
  {
    hide Sweep, Resched;
    UpdateSweeps(s, now);
  }

  lemma PlacedFromInv(s: State)
    requires Inv(s)
    ensures PlacedAll(s)
  {
    hide Placed, NoDup;
    forall v: nat, b: nat, t | v < WHEEL_NUM && b < WHEEL_LEN && t in s.slots[v][b] && t in s.timers
      ensures Placed(v, b, s.timers[t].expires, s.curtime)
    {
      assert SlotOk(s, [], v, b);
      assert OnTime(s, t);
    }
  }

  lemma StaysBelowNone(s: State, now: nat)
    requires Shape(s)
    ensures StaysBelow(s, 0, now)
  {
  }

  lemma TimelyAfter(s: State, r: State, todo: seq<Id>, now: nat)
    requires Inv(s) && s.curtime <= now && SweptFrom(s, r) && Linked(r, todo) && StaysBelow(r, WHEEL_NUM, now)
    ensures Timely(r.(curtime := now), todo)
  {
    hide Placed, NoDup, SlotOk;
    forall t | t in r.timers && t !in todo ensures OnTime(r.(curtime := now), t) {
      assert WhereItSays(r, todo, t);
      assert OnTime(s, t);
    }
  }

  lemma LinkedClock(s: State, todo: seq<Id>, now: nat)
    requires Linked(s, todo)
    ensures Linked(s.(curtime := now), todo)
  {
    var r := s.(curtime := now);
    forall w: nat, b: nat | w < WHEEL_NUM && b < WHEEL_LEN ensures SlotOk(r, todo, w, b) {
      assert SlotOk(s, todo, w, b);
    }
    forall u | u in r.timers ensures WhereItSays(r, todo, u) {
      assert WhereItSays(s, todo, u);
    }
  }
}
