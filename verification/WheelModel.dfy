/**
 The timing wheel as a value: four wheels of 64 slot lists, one pending mask per wheel, the queue of
 expired timers and the clock. Each function is one routine of the wheel; `TimingWheel` (the class)
 performs them in place and is proved to agree with them.
 Times are unbounded naturals: sums that would pass 2^64 are outside the model.
*/
module WheelModel {
  import opened Common
  import opened Bits
  import opened WheelArithmetic

  /** A timer is the address of the caller's `struct timeout`. */
  type Id = nat

  /** What `to->pending` points to. */
  datatype Place = Nowhere | OnExpired | InSlot(wheel: nat, slot: nat)

  datatype Timer = Timer(periodic: bool, absolute: bool, expires: nat, interval: nat, place: Place)

  datatype State = State(
    slots: seq<seq<seq<Id>>>,
    pending: seq<Mask>,
    expired: seq<Id>,
    curtime: nat,
    timers: map<Id, Timer>)

  predicate Shape(s: State)
  {
    && |s.slots| == WHEEL_NUM
    && |s.pending| == WHEEL_NUM
    && (forall w :: 0 <= w < WHEEL_NUM ==> |s.slots[w]| == WHEEL_LEN)
    && (forall t :: t in s.timers && s.timers[t].place.InSlot? ==>
          s.timers[t].place.wheel < WHEEL_NUM && s.timers[t].place.slot < WHEEL_LEN)
  }

  // ---- Invariant ------------------------------------------------------------------------------

  /** Timer `t` is linked exactly where its `place` says; `todo` holds the timers swept off their slots. */
  predicate WhereItSays(s: State, todo: seq<Id>, t: Id)
    requires Shape(s) && t in s.timers
  {
    match s.timers[t].place
    case Nowhere => true
    case OnExpired => t in s.expired
    case InSlot(w, b) => t in s.slots[w][b] || t in todo
  }

  /** Slot `b` of wheel `w`: its mask bit tells whether it is empty, and its timers point back to it, each once. */
  predicate SlotOk(s: State, todo: seq<Id>, w: nat, b: nat)
    requires Shape(s) && w < WHEEL_NUM && b < WHEEL_LEN
  {
    && (b in s.pending[w] <==> s.slots[w][b] != [])
    && NoDup(s.slots[w][b])
    && (forall t :: t in s.slots[w][b] ==> t in s.timers && s.timers[t].place == InSlot(w, b) && t !in todo)
  }

  predicate QueueOk(s: State)
  {
    && NoDup(s.expired)
    && (forall t :: t in s.expired ==> t in s.timers && s.timers[t].place == OnExpired)
  }

  predicate TodoOk(s: State, todo: seq<Id>)
  {
    && NoDup(todo)
    && (forall t :: t in todo ==> t in s.timers && s.timers[t].place.InSlot?)
  }

  /** Lists, masks and timers agree: no timer is lost or linked twice. */
  predicate Linked(s: State, todo: seq<Id>)
  {
    && Shape(s)
    && (forall w, b :: 0 <= w < WHEEL_NUM && 0 <= b < WHEEL_LEN ==> SlotOk(s, todo, w, b))
    && QueueOk(s)
    && TodoOk(s, todo)
    && (forall t :: t in s.timers ==> WhereItSays(s, todo, t))
  }

  /** A timer sits where it may at the time `s.curtime`. */
  predicate OnTime(s: State, t: Id)
    requires t in s.timers
  {
    match s.timers[t].place
    case Nowhere => true
    case OnExpired => s.timers[t].expires <= s.curtime
    case InSlot(w, b) => Placed(w, b, s.timers[t].expires, s.curtime)
  }

  predicate Timely(s: State, todo: seq<Id>)
  {
    forall t :: t in s.timers && t !in todo ==> OnTime(s, t)
  }

  /** The invariant of every reachable wheel. */
  predicate Inv(s: State)
  {
    Linked(s, []) && Timely(s, [])
  }

  // ---- Routines -------------------------------------------------------------------------------

  /** `timeouts_init` */
  function Open(): State
  {
    State(seq(WHEEL_NUM, _ => seq(WHEEL_LEN, _ => [])), seq(WHEEL_NUM, _ => {}), [], 0, map[])
  }

  /** `timeout_init` on a timer that is on no list */
  function Init(s: State, t: Id, periodic: bool, absolute: bool): State
  {
    s.(timers := s.timers[t := Timer(periodic, absolute, 0, 0, Nowhere)])
  }

  /** `TAILQ_REMOVE` */
  function Remove(l: seq<Id>, t: Id): seq<Id>
  {
    if l == [] then [] else if l[0] == t then l[1..] else [l[0]] + Remove(l[1..], t)
  }

  function Moved(s: State, t: Id, place: Place): map<Id, Timer>
    requires t in s.timers
  {
    s.timers[t := s.timers[t].(place := place)]
  }

  /** `timeouts_del` */
  function Del(s: State, t: Id): (r: State)
    requires Shape(s) && t in s.timers
    ensures Shape(r) && r.curtime == s.curtime && r.timers.Keys == s.timers.Keys
  {
    match s.timers[t].place
    case Nowhere => s
    case OnExpired => s.(expired := Remove(s.expired, t), timers := Moved(s, t, Nowhere))
    case InSlot(w, b) =>
      var l := Remove(s.slots[w][b], t);
      s.(slots := s.slots[w := s.slots[w][b := l]],
         pending := if l == [] then s.pending[w := s.pending[w] - One(b)] else s.pending,
         timers := Moved(s, t, Nowhere))
  }

  /** The second half of `timeouts_sched`: link a timer that is on no list. */
  function Insert(s: State, t: Id, expires: nat): (r: State)
    requires Shape(s) && t in s.timers
    ensures Shape(r) && r.curtime == s.curtime && r.timers.Keys == s.timers.Keys
  {
    if expires > s.curtime then
      TimeoutWheelRange(expires - s.curtime);
      var w := TimeoutWheel(expires - s.curtime);
      var b := TimeoutSlot(w, expires);
      s.(slots := s.slots[w := s.slots[w][b := s.slots[w][b] + [t]]],
         pending := s.pending[w := s.pending[w] + One(b)],
         timers := s.timers[t := s.timers[t].(expires := expires, place := InSlot(w, b))])
    else
      s.(expired := s.expired + [t],
         timers := s.timers[t := s.timers[t].(expires := expires, place := OnExpired)])
  }

  /** `timeouts_sched` */
  function Sched(s: State, t: Id, expires: nat): (r: State)
    requires Shape(s) && t in s.timers
    ensures Shape(r) && r.curtime == s.curtime && r.timers.Keys == s.timers.Keys
  {
    Insert(Del(s, t), t, expires)
  }

  /** The expiry `timeouts_readd` computes for a periodic timer. */
  function NextExpiry(expires: nat, interval: nat, now: nat): nat
    requires interval > 0
  {
    var next := expires + interval;
    if next <= now then now + (interval - (now - next) % interval) else next
  }

  /** `timeouts_readd` */
  function Readd(s: State, t: Id): State
    requires Shape(s) && t in s.timers && s.timers[t].interval > 0
  {
    Sched(s, t, NextExpiry(s.timers[t].expires, s.timers[t].interval, s.curtime))
  }

  /** `timeouts_add` */
  function Add(s: State, t: Id, timeout: nat): State
    requires Shape(s) && t in s.timers
  {
    var s1 :=
      if s.timers[t].periodic then
        s.(timers := s.timers[t := s.timers[t].(interval := if timeout < 1 then 1 else timeout)])
      else s;
    Sched(s1, t, if s.timers[t].absolute then timeout else s.curtime + timeout)
  }

  /** The inner loop of `timeouts_update`: empty the pending slots of wheel `w` that are in `mask`, lowest first. */
  function SweepWheel(s: State, w: nat, mask: Mask, todo: seq<Id>): (r: (State, seq<Id>))
    requires Shape(s) && w < WHEEL_NUM
    ensures Shape(r.0) && r.0.curtime == s.curtime
    decreases mask * s.pending[w]
  {
    var hit := mask * s.pending[w];
    if hit == {} then (s, todo)
    else
      var b := Ctz(hit);
      SweepWheel(s.(slots := s.slots[w := s.slots[w][b := []]], pending := s.pending[w := s.pending[w] - One(b)]),
                 w, mask, todo + s.slots[w][b])
  }

  /** The loop of `timeouts_update` over the wheels. */
  function Sweep(s: State, w: nat, elapsed: nat, now: nat, todo: seq<Id>): (r: (State, seq<Id>))
    requires Shape(s) && w <= WHEEL_NUM
    ensures Shape(r.0)
    decreases WHEEL_NUM - w
  {
    if w == WHEEL_NUM then (s, todo)
    else
      var mask := SweepMask(w, elapsed, s.curtime, now);
      var (s1, todo1) := SweepWheel(s, w, mask, todo);
      if 0 !in mask then (s1, todo1)
      else Sweep(s1, w + 1, if elapsed < WHEEL_LEN * Span(w) then WHEEL_LEN * Span(w) else elapsed, now, todo1)
  }

  /** The last loop of `timeouts_update`: schedule the swept timers again, in order. */
  function Resched(s: State, todo: seq<Id>): State
    requires Shape(s) && forall t :: t in todo ==> t in s.timers
    decreases |todo|
  {
    if todo == [] then s
    else
      var t := todo[0];
      Resched(Sched(s.(timers := Moved(s, t, Nowhere)), t, s.timers[t].expires), todo[1..])
  }
}
