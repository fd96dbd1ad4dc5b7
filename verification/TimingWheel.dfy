/**
 The timing wheel itself, updated in place. Every routine is proved to do what the function of the same
 name in `WheelModel`, `WheelProofs`, `WheelRuns` or `WheelTimeout` says.
*/
module TimingWheels {
  import opened Common
  import opened Bits
  import opened WheelArithmetic
  import M = WheelModel
  import P = WheelProofs
  import R = WheelRuns
  import T = WheelTimeout

  type Id = M.Id

  class TimingWheel {
    const wheel: array<seq<seq<Id>>>
    const pending: array<Mask>
    var expired: seq<Id>
    var curtime: nat
    /** The callers' `struct timeout` records. */
    var timers: map<Id, M.Timer>

    ghost predicate Valid()
      reads this, wheel, pending
    {
      wheel.Length == WHEEL_NUM && pending.Length == WHEEL_NUM && M.Shape(Model())
    }

    ghost function Model(): M.State
      reads this, wheel, pending
    {
      M.State(wheel[..], pending[..], expired, curtime, timers)
    }

    /** `timeouts_init` */
    constructor ()
      ensures Valid() && fresh(wheel) && fresh(pending)
      ensures Model() == M.Open() && M.Inv(Model())
    {
      wheel := new seq<seq<Id>>[WHEEL_NUM](_ => seq(WHEEL_LEN, _ => []));
      pending := new Mask[WHEEL_NUM](_ => {});
      expired := [];
      curtime := 0;
      timers := map[];
      new;
      R.OpenInv();
      assert wheel[..] == M.Open().slots;
      assert pending[..] == M.Open().pending;
    }

    /** `timeout_init` */
    method Init(t: Id, periodic: bool, absolute: bool)
      requires Valid()
      modifies this`timers
      ensures Valid() && Model() == M.Init(old(Model()), t, periodic, absolute)
    {
      timers := timers[t := M.Timer(periodic, absolute, 0, 0, M.Nowhere)];
    }

    /** `timeouts_del` */
    method Del(t: Id)
      requires Valid() && t in timers
      modifies this, wheel, pending
      ensures Valid() && Model() == M.Del(old(Model()), t)
    {
      match timers[t].place {
        case Nowhere =>
        case OnExpired =>
          expired := M.Remove(expired, t);
          timers := timers[t := timers[t].(place := M.Nowhere)];
        case InSlot(w, slot) =>
          wheel[w] := wheel[w][slot := M.Remove(wheel[w][slot], t)];
          if wheel[w][slot] == [] {
            pending[w] := pending[w] - One(slot);
          }
          timers := timers[t := timers[t].(place := M.Nowhere)];
      }
    }

    /** `timeouts_sched` */
    method Sched(t: Id, expires: nat)
      requires Valid() && t in timers
      modifies this, wheel, pending
      ensures Valid() && Model() == M.Sched(old(Model()), t, expires)
    {
      hide TimeoutWheel, TimeoutSlot, M.Del;
      Del(t);
      if expires > curtime {
        TimeoutWheelRange(expires - curtime);
        var w := TimeoutWheel(expires - curtime);
        var slot := TimeoutSlot(w, expires);
        timers := timers[t := timers[t].(expires := expires, place := M.InSlot(w, slot))];
        wheel[w] := wheel[w][slot := wheel[w][slot] + [t]];
        pending[w] := pending[w] + One(slot);
      } else {
        timers := timers[t := timers[t].(expires := expires, place := M.OnExpired)];
        expired := expired + [t];
      }
    }

    /** `timeouts_readd` */
    method Readd(t: Id)
      requires Valid() && t in timers && timers[t].interval > 0
      modifies this, wheel, pending
      ensures Valid() && Model() == M.Readd(old(Model()), t)
    {
      hide M.Sched;
      var expires := timers[t].expires + timers[t].interval;
      if expires <= curtime {
        var n := curtime - expires;
        var r := n % timers[t].interval;
        expires := curtime + (timers[t].interval - r);
      }
      Sched(t, expires);
    }

    /** `timeouts_add` */
    method Add(t: Id, timeout: nat)
      requires Valid() && t in timers
      modifies this, wheel, pending
      ensures Valid() && Model() == M.Add(old(Model()), t, timeout)
    {
      hide M.Sched;
      if timers[t].periodic {
        timers := timers[t := timers[t].(interval := if timeout < 1 then 1 else timeout)];
      }
      if timers[t].absolute {
        Sched(t, timeout);
      } else {
        Sched(t, curtime + timeout);
      }
    }

    /** The sweep mask of one wheel, as `timeouts_update` builds it. */
    method PassedSlots(w: nat, elapsed: nat, now: nat) returns (passed: Mask)
      requires w < WHEEL_NUM
      ensures passed == SweepMask(w, elapsed, curtime, now)
    {
      if elapsed / Span(w) > WHEEL_MAX {
        passed := AllOnes();
      } else {
        var ticks := elapsed / Span(w) % WHEEL_LEN;
        var oslot := curtime / Span(w) % WHEEL_LEN;
        passed := Rotl(LowMask(ticks), oslot);
        var nslot := now / Span(w) % WHEEL_LEN;
        passed := passed + Rotr(Rotl(LowMask(ticks), nslot), ticks);
        passed := passed + One(nslot);
      }
    }

    /** The inner loop of `timeouts_update`. */
    method SweepWheel(w: nat, passed: Mask, todo0: seq<Id>) returns (todo: seq<Id>)
      requires Valid() && w < WHEEL_NUM
      modifies wheel, pending
      ensures Valid() && (Model(), todo) == M.SweepWheel(old(Model()), w, passed, todo0)
    {
      todo := todo0;
      while passed * pending[w] != {}
        invariant Valid()
        invariant M.SweepWheel(Model(), w, passed, todo) == M.SweepWheel(old(Model()), w, passed, todo0)
        decreases passed * pending[w]
      {
        var slot := Ctz(passed * pending[w]);
        ghost var before := Model();
        todo := todo + wheel[w][slot];
        wheel[w] := wheel[w][slot := []];
        pending[w] := pending[w] - One(slot);
        assert Model() == before.(slots := before.slots[w := before.slots[w][slot := []]],
                                  pending := before.pending[w := before.pending[w] - One(slot)]);
      }
    }

    /** `timeouts_update` */
    method Update(now: nat)
      requires Valid() && M.Inv(Model()) && curtime <= now
      modifies this, wheel, pending
      ensures Valid() && M.Inv(Model()) && Model() == P.Update(old(Model()), now)
    {
      hide M.Inv, M.Sweep, M.Resched, P.Update;
      P.UpdateParts(Model(), now);
      var todo := SweepAll(now);
      curtime := now;
      RescheduleAll(todo);
    }

    /** The loop of `timeouts_update` over the wheels. */
    method SweepAll(now: nat) returns (todo: seq<Id>)
      requires Valid() && curtime <= now
      modifies wheel, pending
      ensures Valid() && (Model(), todo) == M.Sweep(old(Model()), 0, now - curtime, now, [])
    {
      hide SweepMask, M.SweepWheel;
      var elapsed: nat := now - curtime;
      todo := [];
      var w := 0;
      while w < WHEEL_NUM
        invariant 0 <= w <= WHEEL_NUM && Valid()
        invariant M.Sweep(Model(), w, elapsed, now, todo) == M.Sweep(old(Model()), 0, now - curtime, now, [])
      {
        var passed := PassedSlots(w, elapsed, now);
        todo := SweepWheel(w, passed, todo);
        if 0 !in passed {
          break;
        }
        elapsed := if elapsed < WHEEL_LEN * Span(w) then WHEEL_LEN * Span(w) else elapsed;
        w := w + 1;
      }
    }

    /** The last loop of `timeouts_update`. */
    method RescheduleAll(swept: seq<Id>)
      requires Valid() && forall t :: t in swept ==> t in timers
      modifies this, wheel, pending
      ensures Valid() && Model() == M.Resched(old(Model()), swept)
    {
      var todo := swept;
      while todo != []
        invariant Valid() && forall t :: t in todo ==> t in timers
        invariant M.Resched(Model(), todo) == M.Resched(old(Model()), swept)
        decreases |todo|
      {
        var t := todo[0];
        todo := todo[1..];
        timers := timers[t := timers[t].(place := M.Nowhere)];
        Sched(t, timers[t].expires);
      }
    }

    /** `timeouts_int` */
    method Int() returns (timeout: int)
      requires Valid()
      ensures timeout == T.Int(Model())
    {
      hide Rotr, Ctz;
      timeout := T.NEVER;
      var relmask := 0;
      var w := 0;
      while w < WHEEL_NUM
        invariant 0 <= w <= WHEEL_NUM
        invariant relmask + 1 == Span(w)
        invariant T.IntFrom(Model(), w, timeout) == T.Int(Model())
      {
        if pending[w] != {} {
          var slot := curtime / Span(w) % WHEEL_LEN;
          T.NearestExists(pending[w], slot);
          var t := (Ctz(Rotr(pending[w], slot)) + (if w == 0 then 0 else 1)) * Span(w);
          t := t - curtime % (relmask + 1);
          timeout := if t < timeout then t else timeout;
        }
        SpanNext(w);
        relmask := relmask * WHEEL_LEN + WHEEL_MAX;
        w := w + 1;
      }
    }

    /** `timeouts_timeout` */
    method Timeout() returns (timeout: int)
      requires Valid() && M.Inv(Model())
      ensures timeout == T.Timeout(Model())
      ensures timeout == 0 <==> expired != []
      ensures timeout == T.NEVER <==> forall t :: t in timers ==> timers[t].place == M.Nowhere
      ensures forall t :: t in timers && timers[t].place.InSlot? ==> timeout <= timers[t].expires - curtime
    {
      T.SoftTimeoutSound(Model());
      forall t
        ensures t in expired <==> R.Armed(Model(), t) && timers[t].expires <= curtime
      {
        R.InvMeansExact(Model(), t);
      }
      if expired != [] {
        assert expired[0] in expired;
        timeout := 0;
        forall t | t in timers && timers[t].place.InSlot?
          ensures timers[t].expires > curtime
        {
          R.InvMeansExact(Model(), t);
        }
      } else {
        timeout := Int();
      }
    }

    /** `timeouts_get` */
    method Get() returns (r: Option<Id>)
      requires Valid() && M.Inv(Model())
      modifies this, wheel, pending
      ensures Valid() && M.Inv(Model()) && (Model(), r) == R.Get(old(Model()))
    {
      R.GetInv(Model());
      if expired != [] {
        var t := expired[0];
        expired := expired[1..];
        timers := timers[t := timers[t].(place := M.Nowhere)];
        if timers[t].periodic && timers[t].interval > 0 {
          Readd(t);
        }
        r := Some(t);
      } else {
        r := None;
      }
    }

    /** Get until nothing is left; `fired` lists the callbacks run. */
    method Drain() returns (fired: seq<Id>)
      requires Valid() && M.Inv(Model())
      modifies this, wheel, pending
      ensures Valid() && M.Inv(Model())
      ensures (Model(), fired) == R.Drain(old(Model()))
    {
      hide M.Inv, R.Get, R.Drain;
      fired := [];
      assert [] + R.Drain(Model()).1 == R.Drain(Model()).1;
      while true
        invariant Valid() && M.Inv(Model())
        invariant R.Drain(old(Model())) == (R.Drain(Model()).0, fired + R.Drain(Model()).1)
        decreases |expired|
      {
        ghost var s := Model();
        DrainStep(s);
        var r := Get();
        match r {
          case None =>
            assert fired + [] == fired;
            break;
          case Some(t) =>
            assert fired + ([t] + R.Drain(Model()).1) == (fired + [t]) + R.Drain(Model()).1;
            fired := fired + [t];
        }
      }
    }

    /** `NotifyAllTimeouts`: update, then drain. */
    method NotifyAll(now: nat) returns (fired: seq<Id>)
      requires Valid() && M.Inv(Model()) && curtime <= now
      modifies this, wheel, pending
      ensures Valid() && M.Inv(Model()) && curtime == now && expired == []
      ensures (Model(), fired) == R.Drain(P.Update(old(Model()), now))
      ensures forall t :: multiset(fired)[t] ==
                if old(R.Armed(Model(), t)) && old(timers)[t].expires <= now then 1 else 0
    {
      hide M.Inv, R.Drain, P.Update;
      ghost var s0 := Model();
      Update(now);
      R.DrainExact(Model());
      fired := Drain();
      forall t ensures multiset(fired)[t] == if R.Armed(s0, t) && s0.timers[t].expires <= now then 1 else 0 {
        R.TickFiresExactlyDue(s0, now, t);
      }
    }

    /** `timeouts_min` */
    method Min() returns (min: Option<Id>)
      requires Valid() && M.Inv(Model())
      ensures min == T.Min(Model())
    {
      ghost var lists := T.Lists(Model());
      forall t | t in T.Flat(lists) ensures t in timers { T.SlotsKnown(Model(), t); }
      min := None;
      var w := 0;
      ghost var done := 0;
      assert lists[..0] == [];
      while w < WHEEL_NUM
        invariant 0 <= w <= WHEEL_NUM && done == w * WHEEL_LEN
        invariant forall t :: t in T.Flat(lists[..done]) ==> t in timers
        invariant min == T.MinOver(timers, T.Flat(lists[..done]))
      {
        var slot := 0;
        while slot < WHEEL_LEN
          invariant 0 <= slot <= WHEEL_LEN && done == w * WHEEL_LEN + slot
          invariant forall t :: t in T.Flat(lists[..done]) ==> t in timers
          invariant min == T.MinOver(timers, T.Flat(lists[..done]))
        {
          var l := wheel[w][slot];
          assert lists[done] == l;
          ghost var before := T.Flat(lists[..done]);
          assert lists[..done + 1][..done] == lists[..done];
          assert T.Flat(lists[..done + 1]) == before + l;
          FlatPrefix(lists, done + 1);
          min := ScanList(l, before, min);
          done := done + 1;
          slot := slot + 1;
        }
        w := w + 1;
      }
      assert lists[..done] == lists;
    }

    /** The innermost loop of `timeouts_min`: one slot list. */
    method ScanList(l: seq<Id>, ghost before: seq<Id>, best: Option<Id>) returns (min: Option<Id>)
      requires forall t :: t in before + l ==> t in timers
      requires best == T.MinOver(timers, before)
      ensures min == T.MinOver(timers, before + l)
    {
      hide T.MinOver;
      min := best;
      assert before + l[..0] == before;
      for k := 0 to |l|
        invariant forall t :: t in before + l[..k] ==> t in timers
        invariant min == T.MinOver(timers, before + l[..k])
      {
        var to := l[k];
        assert to in before + l;
        T.MinOverSnoc(timers, before + l[..k], to);
        assert before + l[..k + 1] == before + l[..k] + [to];
        if min.None? || timers[to].expires < timers[min.value].expires {
          min := Some(to);
        }
      }
      assert l[..|l|] == l;
    }
  }

  lemma SpanNext(w: nat)
    requires w < WHEEL_NUM
    ensures Span(w + 1) == WHEEL_LEN * Span(w)
  {
  }

  lemma DrainStep(s: M.State)
    requires M.Inv(s)
    ensures if s.expired == [] then
              R.Get(s) == (s, None) && R.Drain(s) == (s, [])
            else
              var t := s.expired[0];
              && R.Get(s).1 == Some(t) && R.Get(s).0.expired == s.expired[1..] && M.Inv(R.Get(s).0)
              && R.Drain(s) == (R.Drain(R.Get(s).0).0, [t] + R.Drain(R.Get(s).0).1)
  {
    hide M.Sched;
    R.GetInv(s);
    if s.expired != [] {
      R.GetShrinks(s);
    }
  }

  lemma {:induction false} FlatPrefix(lists: seq<seq<Id>>, n: nat)
    requires n <= |lists|
    ensures forall t :: t in T.Flat(lists[..n]) ==> t in T.Flat(lists)
  {
    forall t | t in T.Flat(lists[..n]) ensures t in T.Flat(lists) {
      T.FlatMembers(lists[..n], t);
      T.FlatMembers(lists, t);
    }
  }
}
