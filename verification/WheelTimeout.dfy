/**
 The soft timeout: how long a caller may sleep before the next update. It never oversleeps an expiry,
 it always makes progress, and a lone timer within the horizon fires exactly on time after at most one
 wake-up per wheel. `Check` is the wheel's own invariant checker.
*/
module WheelTimeout {
  import opened Common
  import opened Bits
  import opened WheelArithmetic
  import opened WheelModel
  import opened WheelProofs
  import opened WheelRuns

  /** `~TIMEOUT_C(0)` */
  const NEVER := 0xFFFF_FFFF_FFFF_FFFF

  lemma RotrNonzero(m: Mask, c: nat, i: nat)
    requires c < WORD && i in m
    ensures (i - c) % WORD in Rotr(m, c)
  {
    hide Rotr;
    var j := (i - c) % WORD;
    RotrBit(m, c, j);
    ModShift(i - c, c);
    ModIs(i, 0, i);
  }

  /** The current slot of wheel `w`. */
  function Here(now: nat, w: nat): (slot: nat)
    requires w < WHEEL_NUM
    ensures slot < WHEEL_LEN
  {
    now / Span(w) % WHEEL_LEN
  }

  /** `ctz(rotr(pending, slot))`: the distance from the current slot to the nearest pending one. */
  function Nearest(m: Mask, slot: nat): nat
    requires m != {} && slot < WHEEL_LEN
  {
    NearestExists(m, slot);
    Ctz(Rotr(m, slot))
  }

  lemma NearestExists(m: Mask, slot: nat)
    requires slot < WORD && m != {}
    ensures Rotr(m, slot) != {}
  {
    var i :| i in m;
    RotrNonzero(m, slot, i);
  }

  lemma NearestFacts(m: Mask, slot: nat)
    requires slot < WORD && m != {}
    ensures Nearest(m, slot) < WORD && (slot + Nearest(m, slot)) % WORD in m
    ensures forall b :: b in m ==> Nearest(m, slot) <= (b - slot) % WORD
  {
    hide Rotr;
    NearestExists(m, slot);
    var d := Ctz(Rotr(m, slot));
    RotrBit(m, slot, d);
    forall b | b in m ensures d <= (b - slot) % WORD {
      RotrNonzero(m, slot, b);
    }
  }

  /** Waiting until the wheel is `d` slots on, or one further on a higher wheel. */
  function Ahead(w: nat, d: int, now: nat): int
    requires w < WHEEL_NUM
  {
    (d + (if w == 0 then 0 else 1)) * Span(w) - now % Span(w)
  }

  /** What wheel `w` contributes to `timeouts_int`. */
  function WheelInt(s: State, w: nat): int
    requires Shape(s) && w < WHEEL_NUM && s.pending[w] != {}
  {
    Ahead(w, Nearest(s.pending[w], Here(s.curtime, w)), s.curtime)
  }

  /** The loop of `timeouts_int` from wheel `w` on, with the minimum so far. */
  function IntFrom(s: State, w: nat, timeout: int): int
    requires Shape(s) && w <= WHEEL_NUM
    decreases WHEEL_NUM - w
  {
    if w == WHEEL_NUM then timeout
    else if s.pending[w] == {} then IntFrom(s, w + 1, timeout)
    else IntFrom(s, w + 1, if WheelInt(s, w) < timeout then WheelInt(s, w) else timeout)
  }

  /** `timeouts_int` */
  function Int(s: State): int
    requires Shape(s)
  {
    IntFrom(s, 0, NEVER)
  }

  /** `timeouts_timeout` */
  function Timeout(s: State): int
    requires Shape(s)
  {
    if s.expired != [] then 0 else Int(s)
  }

  // ---- The minimum over the wheels ------------------------------------------------------------

  lemma {:induction false} IntFromIsMin(s: State, w: nat, timeout: int)
    requires Shape(s) && w <= WHEEL_NUM
    ensures IntFrom(s, w, timeout) <= timeout
    ensures forall v :: w <= v < WHEEL_NUM && s.pending[v] != {} ==> IntFrom(s, w, timeout) <= WheelInt(s, v)
    ensures IntFrom(s, w, timeout) == timeout ||
            exists v :: w <= v < WHEEL_NUM && s.pending[v] != {} && IntFrom(s, w, timeout) == WheelInt(s, v)
    decreases WHEEL_NUM - w
  {
    hide WheelInt;
    if w < WHEEL_NUM {
      if s.pending[w] == {} {
        IntFromIsMin(s, w + 1, timeout);
      } else {
        IntFromIsMin(s, w + 1, if WheelInt(s, w) < timeout then WheelInt(s, w) else timeout);
      }
    }
  }

  // ---- One timer ------------------------------------------------------------------------------

  lemma SpanDivides(x: nat, w: nat)
    requires w < WHEEL_NUM
    ensures x == x / Span(w) * Span(w) + x % Span(w) && 0 <= x % Span(w) < Span(w)
  {
  }

  /**
   The slot of a placed timer is no farther than the tick it waits for; exactly as far when the timer is within
   the horizon.
  */
  lemma SlotDistance(w: nat, b: nat, expires: nat, now: nat)
    requires Placed(w, b, expires, now)
    ensures (b - Here(now, w)) % WHEEL_LEN <= SlotTick(w, expires) - now / Span(w)
    ensures expires - now <= TIMEOUT_MAX ==> (b - Here(now, w)) % WHEEL_LEN == SlotTick(w, expires) - now / Span(w)
  {
    var c, tick := now / Span(w), SlotTick(w, expires);
    DistanceFromTick(tick, c);
    if expires - now <= TIMEOUT_MAX {
      HorizonTick(w, expires, now);
      ModIs(tick - c, 0, tick - c);
    }
  }

  lemma DistanceFromTick(tick: int, c: nat)
    requires c <= tick
    ensures (tick % WHEEL_LEN - c % WHEEL_LEN) % WHEEL_LEN == (tick - c) % WHEEL_LEN <= tick - c
  {
    ModShift(tick, -(c % WHEEL_LEN));
    var e := tick - c % WHEEL_LEN;
    ModIs(tick - c, e / 64 - c / 64, e % 64);
  }

  lemma HorizonTick(w: nat, expires: nat, now: nat)
    requires w < WHEEL_NUM && now <= expires && expires - now <= TIMEOUT_MAX
    requires w < WHEEL_NUM - 1 ==> SlotTick(w, expires) <= now / Span(w) + WHEEL_MAX
    ensures SlotTick(w, expires) <= now / Span(w) + WHEEL_MAX
  {
  }

  /** The time at which the tick of a timer begins: its expiry rounded down to its wheel. */
  function TickStart(w: nat, expires: nat): nat
    requires w < WHEEL_NUM
  {
    expires / Span(w) * Span(w)
  }

  lemma TickStartDistance(w: nat, expires: nat, now: nat)
    requires w < WHEEL_NUM
    ensures Ahead(w, SlotTick(w, expires) - now / Span(w), now) == TickStart(w, expires) - now
    ensures TickStart(w, expires) <= expires
  {
    SpanDivides(now, w);
    SpanDivides(expires, w);
    Distribute(expires / Span(w), now / Span(w), Span(w));
  }

  lemma Distribute(a: int, b: int, c: int)
    ensures (a - b) * c == a * c - b * c
  {
  }

  lemma AheadMonotone(w: nat, d: int, e: int, now: nat)
    requires w < WHEEL_NUM && d <= e
    ensures Ahead(w, d, now) <= Ahead(w, e, now)
  {
  }

  /** A timer in a slot: its bit is set, and it may sit there. */
  lemma InItsSlot(s: State, t: Id, w: nat, b: nat)
    requires Inv(s) && t in s.timers && s.timers[t].place == InSlot(w, b)
    ensures Shape(s) && w < WHEEL_NUM && b < WHEEL_LEN && b in s.pending[w]
    ensures Placed(w, b, s.timers[t].expires, s.curtime)
  {
    hide Placed, NoDup;
    assert WhereItSays(s, [], t) && OnTime(s, t);
    assert SlotOk(s, [], w, b);
  }

  /** A pending bit: some timer is in that slot. */
  lemma PendingHasTimer(s: State, w: nat, b: nat) returns (t: Id)
    requires Inv(s) && w < WHEEL_NUM && b in s.pending[w]
    ensures t in s.timers && s.timers[t].place == InSlot(w, b)
  {
    hide Placed, NoDup;
    assert SlotOk(s, [], w, b);
    t := s.slots[w][b][0];
    assert t in s.slots[w][b];
  }

  /** A wheel's contribution never passes the tick of a timer on it, hence never its expiry. */
  lemma WheelIntBefore(s: State, t: Id, w: nat, b: nat)
    requires Inv(s) && t in s.timers && s.timers[t].place == InSlot(w, b)
    ensures Shape(s) && w < WHEEL_NUM && b < WHEEL_LEN && b in s.pending[w]
    ensures WheelInt(s, w) <= TickStart(w, s.timers[t].expires) - s.curtime <= s.timers[t].expires - s.curtime
  {
    hide Inv, Placed, Nearest, Ahead, SlotTick, TickStart, Here;
    InItsSlot(s, t, w, b);
    var x := s.timers[t].expires;
    SlotDistance(w, b, x, s.curtime);
    TickStartDistance(w, x, s.curtime);
    NearestFacts(s.pending[w], Here(s.curtime, w));
    AheadMonotone(w, Nearest(s.pending[w], Here(s.curtime, w)), SlotTick(w, x) - s.curtime / Span(w), s.curtime);
  }

  /** On the lowest wheel no timer sits in the current slot. */
  lemma NotHere(b: nat, expires: nat, now: nat)
    requires Placed(0, b, expires, now)
    ensures b != Here(now, 0)
  {
    DistanceFromTick(expires, now);
    ModIs(expires - now, 0, expires - now);
  }

  /** A wheel with something pending contributes at least 1, and far less than `NEVER`. */
  lemma WheelIntPositive(s: State, w: nat)
    requires Inv(s) && Shape(s) && w < WHEEL_NUM && s.pending[w] != {}
    ensures 1 <= WheelInt(s, w) < NEVER
  {
    hide Inv, Placed, Nearest, Here;
    var slot := Here(s.curtime, w);
    var d := Nearest(s.pending[w], slot);
    NearestFacts(s.pending[w], slot);
    if w == 0 && d == 0 {
      ModIs(slot, 0, slot);
      var t := PendingHasTimer(s, 0, slot);
      InItsSlot(s, t, 0, slot);
      NotHere(slot, s.timers[t].expires, s.curtime);
      assert false;
    }
  }

  // ---- Soundness ------------------------------------------------------------------------------

  predicate NothingPending(s: State)
  {
    forall t :: t in s.timers ==> !s.timers[t].place.InSlot?
  }

  /**
   `timeouts_int` is all-ones exactly when no timer is in a slot; otherwise it is at least 1 and wakes no later
   than the earliest expiry.
  */
  lemma SoftTimeoutSound(s: State)
    requires Inv(s)
    ensures Int(s) == NEVER <==> NothingPending(s)
    ensures 1 <= Int(s) <= NEVER
    ensures forall t :: t in s.timers && s.timers[t].place.InSlot? ==> Int(s) <= s.timers[t].expires - s.curtime
  {
    hide WheelInt, Inv, IntFrom;
    InvLinked(s);
    IntFromIsMin(s, 0, NEVER);
    forall t | t in s.timers && s.timers[t].place.InSlot?
      ensures Int(s) <= s.timers[t].expires - s.curtime && Int(s) < NEVER
    {
      var w := s.timers[t].place.wheel;
      WheelIntBefore(s, t, w, s.timers[t].place.slot);
      WheelIntPositive(s, w);
    }
    if Int(s) != NEVER {
      var v :| 0 <= v < WHEEL_NUM && s.pending[v] != {} && Int(s) == WheelInt(s, v);
      WheelIntPositive(s, v);
      var b :| b in s.pending[v];
      var t := PendingHasTimer(s, v, b);
    }
  }

  // ---- The wheel's own checker ----------------------------------------------------------------

  /** All the timers in slots, wheel by wheel and slot by slot, as `timeouts_min` meets them. */
  function Flat(lists: seq<seq<Id>>): seq<Id>
  {
    if lists == [] then [] else Flat(lists[..|lists| - 1]) + lists[|lists| - 1]
  }

  /** The 256 slot lists in the order of `timeouts_min`. */
  function Lists(s: State): seq<seq<Id>>
    requires Shape(s)
  {
    s.slots[0] + s.slots[1] + s.slots[2] + s.slots[3]
  }

  lemma ListsMember(s: State, w: nat, b: nat)
    requires Shape(s) && w < WHEEL_NUM && b < WHEEL_LEN
    ensures s.slots[w][b] in Lists(s)
  {
    assert s.slots[w][b] in s.slots[w];
  }

  lemma ListsWhere(s: State, l: seq<Id>) returns (w: nat, b: nat)
    requires Shape(s) && l in Lists(s)
    ensures w < WHEEL_NUM && b < WHEEL_LEN && l == s.slots[w][b]
  {
    w := if l in s.slots[0] then 0 else if l in s.slots[1] then 1 else if l in s.slots[2] then 2 else 3;
    b :| 0 <= b < WHEEL_LEN && l == s.slots[w][b];
  }

  /** The scan of `timeouts_min` over a list: the first timer with the least expiry. */
  function MinOver(timers: map<Id, Timer>, l: seq<Id>): Option<Id>
    requires forall t :: t in l ==> t in timers
  {
    if l == [] then None
    else
      var t := l[|l| - 1];
      match MinOver(timers, l[..|l| - 1])
      case None => Some(t)
      case Some(m) => if m in timers && timers[t].expires < timers[m].expires then Some(t) else Some(m)
  }

  lemma {:induction false} FlatMembers(lists: seq<seq<Id>>, t: Id)
    ensures t in Flat(lists) <==> exists l :: l in lists && t in l
  {
    if lists != [] {
      var n := |lists| - 1;
      FlatMembers(lists[..n], t);
      assert lists == lists[..n] + [lists[n]];
    }
  }

  lemma SlotsKnown(s: State, t: Id)
    requires Inv(s)
    ensures t in Flat(Lists(s)) <==> t in s.timers && s.timers[t].place.InSlot?
  {
    hide NoDup, Placed, Lists;
    FlatMembers(Lists(s), t);
    if t in Flat(Lists(s)) {
      var l :| l in Lists(s) && t in l;
      var w, b := ListsWhere(s, l);
      assert SlotOk(s, [], w, b);
    }
    if t in s.timers && s.timers[t].place.InSlot? {
      assert WhereItSays(s, [], t);
      var p := s.timers[t].place;
      ListsMember(s, p.wheel, p.slot);
    }
  }

  /** `timeouts_min` */
  function Min(s: State): Option<Id>
    requires Inv(s)
  {
    assert forall t :: t in Flat(Lists(s)) ==> t in s.timers by {
      forall t | t in Flat(Lists(s)) ensures t in s.timers { SlotsKnown(s, t); }
    }
    MinOver(s.timers, Flat(Lists(s)))
  }

  lemma {:induction false} MinOverIsLeast(timers: map<Id, Timer>, l: seq<Id>)
    requires forall t :: t in l ==> t in timers
    ensures MinOver(timers, l).None? <==> l == []
    ensures MinOver(timers, l).Some? ==> MinOver(timers, l).value in l
    ensures MinOver(timers, l).Some? ==> forall t :: t in l ==>
        timers[MinOver(timers, l).value].expires <= timers[t].expires
  {
    if l != [] {
      var n := |l| - 1;
      MinOverIsLeast(timers, l[..n]);
      assert l == l[..n] + [l[n]];
    }
  }

  /** Of several with the least expiry it is the first. */
  lemma {:induction false} MinOverFirst(timers: map<Id, Timer>, l: seq<Id>) returns (i: nat)
    requires l != [] && forall t :: t in l ==> t in timers
    ensures i < |l| && MinOver(timers, l) == Some(l[i])
    ensures forall j :: 0 <= j < i ==> timers[l[j]].expires > timers[l[i]].expires
  {
    var n := |l| - 1;
    if n == 0 {
      i := 0;
    } else {
      i := MinOverFirst(timers, l[..n]);
      MinOverIsLeast(timers, l[..n]);
      assert forall j :: 0 <= j < n ==> l[..n][j] in l[..n];
      if timers[l[n]].expires < timers[l[i]].expires {
        i := n;
      }
    }
  }

  lemma MinOverSnoc(timers: map<Id, Timer>, l: seq<Id>, t: Id)
    requires t in timers && forall u :: u in l ==> u in timers
    ensures forall u :: u in l + [t] ==> u in timers
    ensures MinOver(timers, l).Some? ==> MinOver(timers, l).value in timers
    ensures MinOver(timers, l + [t]) ==
            if MinOver(timers, l).None? || timers[t].expires < timers[MinOver(timers, l).value].expires
            then Some(t) else MinOver(timers, l)
  {
    MinOverIsLeast(timers, l);
    assert (l + [t])[..|l|] == l;
  }

  /** The dumb scan finds the earliest timer on the wheel. */
  lemma MinIsEarliest(s: State)
    requires Inv(s)
    ensures Min(s).None? <==> NothingPending(s)
    ensures Min(s).Some? ==> Min(s).value in s.timers && s.timers[Min(s).value].place.InSlot?
    ensures Min(s).Some? ==> forall t :: t in s.timers && s.timers[t].place.InSlot? ==>
              s.timers[Min(s).value].expires <= s.timers[t].expires
  {
    hide Inv, MinOver, Flat;
    var l := Flat(Lists(s)) by { InvLinked(s); }
    forall t ensures t in l <==> t in s.timers && s.timers[t].place.InSlot? { SlotsKnown(s, t); }
    MinOverIsLeast(s.timers, l);
    if l != [] {
      assert l[0] in l;
    }
  }

  /** `timeouts_check` */
  function Check(s: State): bool
    requires Inv(s)
  {
    match Min(s)
    case Some(m) =>
      m in s.timers
      && s.timers[m].expires > s.curtime
      && Int(s) <= s.timers[m].expires - s.curtime
      && Timeout(s) <= s.timers[m].expires - s.curtime
    case None =>
      if s.expired != [] then Timeout(s) == 0 else Timeout(s) == NEVER
  }

  /** The checker passes in every reachable state, and what it checks of the earliest timer holds of every timer. */
  lemma CheckPasses(ops: seq<Op>)
    ensures Inv(Open())
    ensures var s := Run(Open(), ops).0;
      && Check(s)
      && (forall t :: t in s.timers && s.timers[t].place.InSlot? ==>
            && s.timers[t].expires > s.curtime
            && Int(s) <= s.timers[t].expires - s.curtime
            && Timeout(s) <= s.timers[t].expires - s.curtime)
      && (s.expired != [] ==> Timeout(s) == 0)
      && (s.expired == [] && NothingPending(s) ==> Timeout(s) == NEVER)
  {
    hide Run, Int, Min, Linked;
    OpenInv();
    var s := Run(Open(), ops).0;
    InvLinked(s);
    MinIsEarliest(s);
    SoftTimeoutSound(s);
    forall t | t in s.timers && s.timers[t].place.InSlot?
      ensures s.timers[t].expires > s.curtime
    {
      assert OnTime(s, t);
    }
  }

  // ---- Progress -------------------------------------------------------------------------------

  /** Timer `t` is in the slot that decided the soft timeout. */
  predicate Determines(s: State, t: Id)
    requires Inv(s)
  {
    && t in s.timers && s.timers[t].place.InSlot?
    && var w, b := s.timers[t].place.wheel, s.timers[t].place.slot;
       && s.pending[w] != {}
       && WheelInt(s, w) == Int(s)
       && (b - Here(s.curtime, w)) % WHEEL_LEN == Nearest(s.pending[w], Here(s.curtime, w))
  }

  /** Sleeping for exactly the soft timeout. */
  function Wake(s: State): (r: State)
    requires Inv(s)
    ensures Inv(r) && r.curtime == s.curtime + Int(s) && SameTimers(s.timers, r.timers)
  {
    SoftTimeoutSound(s);
    Update(s, s.curtime + Int(s))
  }

  lemma StartOfTick(w: nat, expires: nat)
    requires w < WHEEL_NUM
    ensures TickStart(w, expires) / Span(w) == expires / Span(w)
  {
  }

  /** Between the start of a tick and the expiry in it no higher wheel ticks. */
  lemma NoHigherTick(w: nat, v: nat, expires: nat)
    requires w <= v < WHEEL_NUM
    ensures TickStart(w, expires) / Span(v) == expires / Span(v)
  {
    StartOfTick(w, expires);
    hide TickStart;
    var u := w;
    while u < v
      invariant w <= u <= v && TickStart(w, expires) / Span(u) == expires / Span(u)
    {
      DivSpan(TickStart(w, expires), u);
      DivSpan(expires, u);
      u := u + 1;
    }
  }

  /** A timer may not sit on wheel `v >= w` once the clock has reached the start of its tick on wheel `w`. */
  lemma OnlyLowerWheels(w: nat, v: nat, b: nat, expires: nat)
    requires w < WHEEL_NUM && Placed(v, b, expires, TickStart(w, expires))
    ensures v < w
  {
    if v >= w {
      NoHigherTick(w, v, expires);
      assert false;
    }
  }

  /**
   Waking by the soft timeout moves a timer that determined it, and is within the horizon, to the expired queue
   or to a strictly lower wheel.
  */
  lemma WakeProgress(s: State, t: Id)
    requires Inv(s) && Determines(s, t) && s.timers[t].expires - s.curtime <= TIMEOUT_MAX
    ensures var p := Wake(s).timers[t].place;
      p == OnExpired || (p.InSlot? && p.wheel < s.timers[t].place.wheel)
    ensures Wake(s).timers[t].place == OnExpired ==> Wake(s).curtime == s.timers[t].expires
  {
    hide Inv, Placed, Nearest, Ahead, SlotTick, TickStart, Here, Wake, Int;
    var w, b, x := s.timers[t].place.wheel, s.timers[t].place.slot, s.timers[t].expires;
    InItsSlot(s, t, w, b);
    SlotDistance(w, b, x, s.curtime);
    TickStartDistance(w, x, s.curtime);
    var u := Wake(s);
    assert u.curtime == TickStart(w, x);
    InvMeansExact(u, t);
    var p := u.timers[t].place;
    if p.InSlot? {
      InItsSlot(u, t, p.wheel, p.slot);
      OnlyLowerWheels(w, p.wheel, p.slot, x);
    } else {
      InvExpired(u, t);
    }
  }

  lemma InvExpired(s: State, t: Id)
    requires Inv(s) && t in s.timers && s.timers[t].place == OnExpired
    ensures s.timers[t].expires <= s.curtime
  {
    assert OnTime(s, t);
  }

  // ---- A lone timer ---------------------------------------------------------------------------

  predicate Lone(s: State, t: Id)
  {
    && Inv(s) && t in s.timers && s.timers[t].place.InSlot?
    && forall u :: u in s.timers && u != t ==> s.timers[u].place.Nowhere?
  }

  lemma LoneDetermines(s: State, t: Id)
    requires Lone(s, t)
    ensures Determines(s, t)
  {
    hide WheelInt, IntFrom, Inv, Here, Nearest;
    var w, b := s.timers[t].place.wheel, s.timers[t].place.slot;
    InItsSlot(s, t, w, b);
    forall v: nat, c: nat | v < WHEEL_NUM && c in s.pending[v] ensures v == w && c == b {
      var u := PendingHasTimer(s, v, c);
    }
    IntFromIsMin(s, 0, NEVER);
    WheelIntPositive(s, w);
    var slot := Here(s.curtime, w);
    var d := Nearest(s.pending[w], slot);
    NearestFacts(s.pending[w], slot);
    var back: int := -(slot as int);
    ModShift(slot + d, back);
    ModIs(d, 0, d);
  }

  function Wakes(s: State, k: nat): (r: State)
    requires Inv(s)
    ensures Inv(r)
    decreases k
  {
    hide Wake, Inv;
    if k == 0 then s else Wakes(Wake(s), k - 1)
  }

  /** A lone timer within the horizon fires exactly at its expiry, after at most one wake-up per wheel. */
  lemma {:induction false} LoneFires(s: State, t: Id) returns (k: nat)
    requires Lone(s, t) && s.timers[t].expires - s.curtime <= TIMEOUT_MAX
    ensures 1 <= k <= s.timers[t].place.wheel + 1 <= WHEEL_NUM
    ensures t in Wakes(s, k).timers && Wakes(s, k).timers[t].place == OnExpired
    ensures Wakes(s, k).curtime == s.timers[t].expires
    decreases s.timers[t].place.wheel
  {
    hide Inv, Wake, Determines, Int;
    InItsSlot(s, t, s.timers[t].place.wheel, s.timers[t].place.slot);
    LoneDetermines(s, t);
    WakeProgress(s, t);
    SoftTimeoutSound(s);
    var u := Wake(s);
    assert Wakes(u, 0) == u;
    assert Wakes(s, 1) == u;
    if u.timers[t].place == OnExpired {
      k := 1;
    } else {
      assert Lone(u, t);
      var j := LoneFires(u, t);
      k := j + 1;
    }
  }
}
