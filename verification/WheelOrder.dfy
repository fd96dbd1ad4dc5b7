/**
 The order in which an update moves timers. Without masks, bit counts and cascades it is this: the slots that the
 clock passed are read wheel by wheel from the lowest slot up, and their timers are linked again one after the other,
 each behind whatever its new list holds.
*/
module WheelOrder {
  import opened Common
  import opened Bits
  import opened WheelArithmetic
  import opened WheelModel
  import opened WheelProofs

  // ---- What a sweep collects ------------------------------------------------------------------

  /** The lists of the masked slots from slot `b` up, one after the other. */
  function Gather(lists: seq<seq<Id>>, mask: Mask, b: nat): seq<Id>
    requires b <= |lists|
    decreases |lists| - b
  {
    if b == |lists| then [] else (if b in mask then lists[b] else []) + Gather(lists, mask, b + 1)
  }

  lemma {:induction false} GatherNone(lists: seq<seq<Id>>, mask: Mask, b: nat)
    requires b <= |lists| && forall c :: b <= c < |lists| && c in mask ==> lists[c] == []
    ensures Gather(lists, mask, b) == []
    decreases |lists| - b
  {
    if b < |lists| {
      GatherNone(lists, mask, b + 1);
    }
  }

  lemma {:induction false} GatherSame(lists: seq<seq<Id>>, other: seq<seq<Id>>, mask: Mask, b: nat)
    requires b <= |lists| == |other| && forall c :: b <= c < |lists| ==> lists[c] == other[c]
    ensures Gather(lists, mask, b) == Gather(other, mask, b)
    decreases |lists| - b
  {
    if b < |lists| {
      GatherSame(lists, other, mask, b + 1);
    }
  }

  /** Reading the lowest slot that is not empty first changes nothing. */
  lemma {:induction false} GatherFirst(lists: seq<seq<Id>>, mask: Mask, b: nat, first: nat)
    requires b <= first < |lists| && first in mask
    requires forall c :: b <= c < first && c in mask ==> lists[c] == []
    ensures Gather(lists, mask, b) == lists[first] + Gather(lists[first := []], mask, b)
    decreases |lists| - b
  {
    var rest := Gather(lists[first := []], mask, b + 1);
    assert Gather(lists[first := []], mask, b) == rest;
    if b < first {
      GatherFirst(lists, mask, b + 1, first);
      assert Gather(lists, mask, b) == lists[first] + rest;
    } else {
      GatherSame(lists, lists[first := []], mask, b + 1);
    }
  }

  /** Emptying the lowest set bit again and again reads the slots from the lowest up. */
  lemma {:induction false} SweepWheelOrder(s: State, w: nat, mask: Mask, todo: seq<Id>)
    requires Linked(s, todo) && w < WHEEL_NUM
    ensures SweepWheel(s, w, mask, todo).1 == todo + Gather(s.slots[w], mask, 0)
    decreases mask * s.pending[w]
  {
    hide NoDup, WhereItSays;
    var hit := mask * s.pending[w];
    forall c: nat | c < WHEEL_LEN ensures c in s.pending[w] <==> s.slots[w][c] != [] {
      assert SlotOk(s, todo, w, c);
    }
    hide Linked, SlotOk;
    if hit == {} {
      assert forall c :: c in mask && c in s.pending[w] ==> c in hit;
      GatherNone(s.slots[w], mask, 0);
      assert todo + [] == todo;
    } else {
      var b := Ctz(hit);
      var s1 := s.(slots := s.slots[w := s.slots[w][b := []]], pending := s.pending[w := s.pending[w] - One(b)]);
      SweepSlot(s, w, b, todo, s1);
      assert forall c :: c in mask && c in s.pending[w] ==> c in hit;
      SweepWheelOrder(s1, w, mask, todo + s.slots[w][b]);
      GatherFirst(s.slots[w], mask, 0, b);
      assert todo + (s.slots[w][b] + Gather(s1.slots[w], mask, 0)) ==
             todo + s.slots[w][b] + Gather(s1.slots[w], mask, 0);
    }
  }

  /** The slots of wheel `w` that the clock passes. */
  function Passed(was: nat, w: nat, now: nat): Mask
    requires w < WHEEL_NUM && was <= now
  {
    SweepMask(w, ElapsedAt(w, was, now), was, now)
  }

  /** The timers of all passed slots of wheel `w` and, as long as a wheel turns over, of the wheels above it. */
  function Collect(s: State, w: nat, now: nat): seq<Id>
    requires Shape(s) && w <= WHEEL_NUM && s.curtime <= now
    decreases WHEEL_NUM - w
  {
    if w == WHEEL_NUM then []
    else
      var mask := Passed(s.curtime, w, now);
      Gather(s.slots[w], mask, 0) + (if 0 in mask then Collect(s, w + 1, now) else [])
  }

  lemma {:induction false} CollectSame(s: State, r: State, w: nat, now: nat)
    requires Shape(s) && Shape(r) && w <= WHEEL_NUM && s.curtime <= now && r.curtime == s.curtime
    requires forall v :: w <= v < WHEEL_NUM ==> r.slots[v] == s.slots[v]
    ensures Collect(r, w, now) == Collect(s, w, now)
    decreases WHEEL_NUM - w
  {
    hide SweepMask, ElapsedAt, Gather;
    if w < WHEEL_NUM {
      CollectSame(s, r, w + 1, now);
    }
  }

  /** The clock passes slot `c` of wheel `v`, and every wheel from `w` up to it has turned over. */
  predicate IsSwept(was: nat, w: nat, now: nat, v: nat, c: nat)
    requires w <= v < WHEEL_NUM && was <= now
    decreases v - w
  {
    if w == v then c in Passed(was, v, now) else 0 in Passed(was, w, now) && IsSwept(was, w + 1, now, v, c)
  }

  /** The whole sweep collects exactly that, in that order. */
  lemma {:induction false} SweepOrder(s: State, w: nat, elapsed: nat, now: nat, todo: seq<Id>)
    requires Linked(s, todo) && w <= WHEEL_NUM && s.curtime <= now
    requires w < WHEEL_NUM ==> elapsed == ElapsedAt(w, s.curtime, now)
    ensures Shape(s) && Sweep(s, w, elapsed, now, todo).1 == todo + Collect(s, w, now)
    decreases WHEEL_NUM - w
  {
    hide Linked, SweepMask, SweepWheel, Gather, ElapsedAt;
    LinkedShape(s, todo);
    if w < WHEEL_NUM {
      var mask := Passed(s.curtime, w, now);
      var (s1, todo1) := SweepWheel(s, w, mask, todo);
      SweepWheelKeeps(s, w, mask, todo);
      SweepWheelOrder(s, w, mask, todo);
      if 0 in mask {
        var elapsed1 := if elapsed < WHEEL_LEN * Span(w) then WHEEL_LEN * Span(w) else elapsed;
        if w + 1 < WHEEL_NUM { ElapsedNext(w, s.curtime, now); }
        SweepOrder(s1, w + 1, elapsed1, now, todo1);
        CollectSame(s, s1, w + 1, now);
        assert todo + Gather(s.slots[w], mask, 0) + Collect(s, w + 1, now) == todo + Collect(s, w, now);
      } else {
        assert Collect(s, w, now) == Gather(s.slots[w], mask, 0);
      }
    } else {
      assert todo + [] == todo;
    }
  }

  /** It leaves every slot that the clock does not pass as it was. */
  lemma {:induction false} SweepLeaves(s: State, w: nat, elapsed: nat, now: nat, todo: seq<Id>, v: nat, c: nat)
    requires Linked(s, todo) && w <= WHEEL_NUM && s.curtime <= now && v < WHEEL_NUM && c < WHEEL_LEN
    requires w < WHEEL_NUM ==> elapsed == ElapsedAt(w, s.curtime, now)
    ensures Shape(s) && Sweep(s, w, elapsed, now, todo).0.slots[v][c] ==
            if v >= w && IsSwept(s.curtime, w, now, v, c) then [] else s.slots[v][c]
    decreases WHEEL_NUM - w
  {
    hide Linked, SweepMask, SweepWheel, ElapsedAt;
    LinkedShape(s, todo);
    if w < WHEEL_NUM {
      var mask := Passed(s.curtime, w, now);
      var (s1, todo1) := SweepWheel(s, w, mask, todo);
      SweepWheelKeeps(s, w, mask, todo);
      if 0 in mask {
        var elapsed1 := if elapsed < WHEEL_LEN * Span(w) then WHEEL_LEN * Span(w) else elapsed;
        if w + 1 < WHEEL_NUM { ElapsedNext(w, s.curtime, now); }
        SweepLeaves(s1, w + 1, elapsed1, now, todo1, v, c);
      } else {
        assert v > w ==> !IsSwept(s.curtime, w, now, v, c);
      }
    }
  }

  // ---- Where the collected timers go ----------------------------------------------------------

  /** Where a timer with this expiry belongs at this time. */
  function PlaceFor(expires: nat, now: nat): Place
  {
    if expires <= now then OnExpired
    else
      var w := TimeoutWheel(expires - now);
      TimeoutWheelRange(expires - now);
      InSlot(w, TimeoutSlot(w, expires))
  }

  /** Those of the timers that belong in one place, in order. */
  function Going(timers: map<Id, Timer>, todo: seq<Id>, now: nat, p: Place): seq<Id>
    requires forall t :: t in todo ==> t in timers
  {
    if todo == [] then []
    else (if PlaceFor(timers[todo[0]].expires, now) == p then [todo[0]] else []) + Going(timers, todo[1..], now, p)
  }

  lemma {:induction false} GoingSame(a: map<Id, Timer>, b: map<Id, Timer>, todo: seq<Id>, now: nat, p: Place)
    requires forall t :: t in todo ==> t in a && t in b && a[t].expires == b[t].expires
    ensures Going(a, todo, now, p) == Going(b, todo, now, p)
  {
    if todo != [] {
      GoingSame(a, b, todo[1..], now, p);
    }
  }

  /** The list of a place. */
  function ListAt(s: State, p: Place): seq<Id>
    requires Shape(s) && (p.InSlot? ==> p.wheel < WHEEL_NUM && p.slot < WHEEL_LEN)
  {
    match p
    case Nowhere => []
    case OnExpired => s.expired
    case InSlot(w, b) => s.slots[w][b]
  }

  predicate IsPlace(p: Place)
  {
    p == OnExpired || (p.InSlot? && p.wheel < WHEEL_NUM && p.slot < WHEEL_LEN)
  }

  lemma SchedNew(s: State, t: Id, expires: nat, todo: seq<Id>, p: Place)
    requires Linked(s, todo) && t in s.timers && s.timers[t].place == Nowhere && t !in todo && IsPlace(p)
    ensures Shape(s) && ListAt(Sched(s, t, expires), p) ==
            ListAt(s, p) + (if PlaceFor(expires, s.curtime) == p then [t] else [])
  {
    hide Linked, TimeoutWheel, TimeoutSlot;
    LinkedShape(s, todo);
    assert ListAt(s, p) + [] == ListAt(s, p);
  }

  /** Each timer of the todo list goes behind what its list holds, in the order of the todo list. */
  lemma {:induction false} ReschedOrder(s: State, todo: seq<Id>, p: Place)
    requires Linked(s, todo) && Timely(s, todo) && IsPlace(p)
    ensures Shape(s) && (forall t :: t in todo ==> t in s.timers)
    ensures Shape(Resched(s, todo)) && ListAt(Resched(s, todo), p) == ListAt(s, p) + Going(s.timers, todo, s.curtime, p)
    decreases |todo|
  {
    hide NoDup, SlotOk, WhereItSays, OnTime, Sched, Linked, Timely, ListAt, PlaceFor;
    LinkedShape(s, todo);
    TodoKnown(s, todo);
    if todo == [] {
      assert ListAt(s, p) + [] == ListAt(s, p);
    } else {
      var t := todo[0];
      var s1 := s.(timers := Moved(s, t, Nowhere));
      var s2 := Sched(s1, t, s.timers[t].expires);
      PopTodo(s, todo, s1);
      ReschedStep(s, todo, s2);
      SchedNew(s1, t, s.timers[t].expires, todo[1..], p);
      assert ListAt(s1, p) == ListAt(s, p) by { SameLists(s, s1, p); }
      ReschedOrder(s2, todo[1..], p);
      GoingSame(s.timers, s2.timers, todo[1..], s.curtime, p);
      var first := if PlaceFor(s.timers[t].expires, s.curtime) == p then [t] else [];
      assert ListAt(s, p) + first + Going(s.timers, todo[1..], s.curtime, p) ==
             ListAt(s, p) + (first + Going(s.timers, todo[1..], s.curtime, p));
    }
  }

  lemma SameLists(s: State, r: State, p: Place)
    requires Shape(s) && Shape(r) && r.slots == s.slots && r.expired == s.expired && IsPlace(p)
    ensures ListAt(r, p) == ListAt(s, p)
  {
  }

  /** What the sweep leaves in a list. */
  function Kept(s: State, now: nat, p: Place): seq<Id>
    requires Shape(s) && s.curtime <= now && IsPlace(p)
  {
    if p.InSlot? && IsSwept(s.curtime, 0, now, p.wheel, p.slot) then [] else ListAt(s, p)
  }

  /** All an update does to the lists: each keeps what the clock does not pass and gets what belongs there now. */
  lemma UpdateOrder(s: State, now: nat, p: Place)
    requires Inv(s) && s.curtime <= now && IsPlace(p)
    ensures Shape(s) && Shape(Update(s, now))
    ensures forall t :: t in Collect(s, 0, now) ==> t in s.timers
    ensures ListAt(Update(s, now), p) == Kept(s, now, p) + Going(s.timers, Collect(s, 0, now), now, p)
  {
    hide Sweep, Resched, Update, Linked, Timely, Collect, Inv, Going;
    UpdateParts(s, now);
    UpdateSweeps(s, now);
    assert Linked(s, []) by { InvIsLinked(s); }
    SweepOrder(s, 0, now - s.curtime, now, []);
    var (r, todo) := Sweep(s, 0, now - s.curtime, now, []);
    assert [] + Collect(s, 0, now) == Collect(s, 0, now);
    ReschedOrder(r.(curtime := now), todo, p);
    if p.InSlot? {
      SweepLeaves(s, 0, now - s.curtime, now, [], p.wheel, p.slot);
    }
  }

  lemma InvIsLinked(s: State)
    requires Inv(s)
    ensures Linked(s, [])
  {
  }

  // ---- Timers with the same expiry ------------------------------------------------------------

  lemma {:induction false} GoingBefore(timers: map<Id, Timer>, todo: seq<Id>, now: nat, p: Place, a: Id, b: Id)
    requires forall t :: t in todo ==> t in timers
    requires Before(todo, a, b) && PlaceFor(timers[a].expires, now) == p && PlaceFor(timers[b].expires, now) == p
    ensures Before(Going(timers, todo, now, p), a, b)
  {
    hide PlaceFor;
    var i, j :| 0 <= i < j < |todo| && todo[i] == a && todo[j] == b;
    var rest := Going(timers, todo[1..], now, p);
    if i == 0 {
      GoingHas(timers, todo[1..], now, p, b);
      var m :| 0 <= m < |rest| && rest[m] == b;
      assert Going(timers, todo, now, p)[0] == a && Going(timers, todo, now, p)[m + 1] == b;
    } else {
      assert todo[1..][i - 1] == a && todo[1..][j - 1] == b;
      GoingBefore(timers, todo[1..], now, p, a, b);
      var m, n :| 0 <= m < n < |rest| && rest[m] == a && rest[n] == b;
      var d := |Going(timers, todo, now, p)| - |rest|;
      assert Going(timers, todo, now, p)[m + d] == a && Going(timers, todo, now, p)[n + d] == b;
    }
  }

  lemma {:induction false} GoingHas(timers: map<Id, Timer>, todo: seq<Id>, now: nat, p: Place, t: Id)
    requires (forall u :: u in todo ==> u in timers) && t in todo && PlaceFor(timers[t].expires, now) == p
    ensures t in Going(timers, todo, now, p)
  {
    hide PlaceFor;
    if todo[0] != t {
      GoingHas(timers, todo[1..], now, p, t);
    }
  }

  lemma BeforeIn(l: seq<Id>, front: seq<Id>, back: seq<Id>, a: Id, b: Id)
    requires Before(l, a, b)
    ensures Before(front + l + back, a, b)
  {
    var i, j :| 0 <= i < j < |l| && l[i] == a && l[j] == b;
    var r := front + l + back;
    assert r[|front| + i] == a && r[|front| + j] == b;
  }

  lemma {:induction false} GatherBefore(lists: seq<seq<Id>>, mask: Mask, b: nat, c: nat, x: Id, y: Id)
    requires b <= c < |lists| && c in mask && Before(lists[c], x, y)
    ensures Before(Gather(lists, mask, b), x, y)
    decreases |lists| - b
  {
    var rest := Gather(lists, mask, b + 1);
    var head := if b in mask then lists[b] else [];
    if b == c {
      BeforeIn(lists[c], [], rest, x, y);
      assert [] + lists[c] + rest == head + rest;
    } else {
      GatherBefore(lists, mask, b + 1, c, x, y);
      BeforeIn(rest, head, [], x, y);
      assert head + rest + [] == head + rest;
    }
  }

  lemma {:induction false} CollectBefore(s: State, w: nat, now: nat, v: nat, c: nat, x: Id, y: Id)
    requires Shape(s) && w <= v < WHEEL_NUM && c < WHEEL_LEN && s.curtime <= now
    requires IsSwept(s.curtime, w, now, v, c) && Before(s.slots[v][c], x, y)
    ensures Before(Collect(s, w, now), x, y)
    decreases v - w
  {
    hide Gather, Passed;
    var head := Gather(s.slots[w], Passed(s.curtime, w, now), 0);
    var rest := if 0 in Passed(s.curtime, w, now) then Collect(s, w + 1, now) else [];
    if w == v {
      GatherBefore(s.slots[v], Passed(s.curtime, v, now), 0, c, x, y);
      BeforeIn(head, [], rest, x, y);
      assert [] + head + rest == head + rest;
    } else {
      CollectBefore(s, w + 1, now, v, c, x, y);
      BeforeIn(rest, head, [], x, y);
      assert head + rest + [] == head + rest;
    }
  }

  /**
   Two timers of one slot with the same expiry stay together and in order through every update, from wheel to wheel
   and into the expired queue: of timers set for the same moment the first one set fires first.
  */
  lemma SameExpiryOrder(s: State, now: nat, w: nat, c: nat, a: Id, b: Id)
    requires Inv(s) && s.curtime <= now && w < WHEEL_NUM && c < WHEEL_LEN && Before(s.slots[w][c], a, b)
    requires a in s.timers && b in s.timers && s.timers[a].expires == s.timers[b].expires
    ensures Shape(Update(s, now))
    ensures exists p :: IsPlace(p) && Before(ListAt(Update(s, now), p), a, b)
  {
    hide Update, Inv, Collect, IsSwept, PlaceFor, Going, IsPlace;
    assert Shape(s) by { InvIsLinked(s); LinkedShape(s, []); }
    var here := InSlot(w, c);
    var p := if IsSwept(s.curtime, 0, now, w, c) then PlaceFor(s.timers[a].expires, now) else here;
    assert IsPlace(p) && IsPlace(here) by { PlaceIs(s.timers[a].expires, now); HereIs(w, c); }
    UpdateOrder(s, now, p);
    var going := Going(s.timers, Collect(s, 0, now), now, p);
    if IsSwept(s.curtime, 0, now, w, c) {
      CollectBefore(s, 0, now, w, c, a, b);
      GoingBefore(s.timers, Collect(s, 0, now), now, p, a, b);
      BeforeIn(going, Kept(s, now, p), [], a, b);
      assert Kept(s, now, p) + going + [] == Kept(s, now, p) + going;
    } else {
      BeforeIn(s.slots[w][c], [], going, a, b);
      assert [] + s.slots[w][c] + going == s.slots[w][c] + going;
    }
  }

  lemma PlaceIs(expires: nat, now: nat)
    ensures IsPlace(PlaceFor(expires, now))
  {
    if expires > now { TimeoutWheelRange(expires - now); }
  }

  lemma HereIs(w: nat, c: nat)
    requires w < WHEEL_NUM && c < WHEEL_LEN
    ensures IsPlace(InSlot(w, c))
  {
  }
}
