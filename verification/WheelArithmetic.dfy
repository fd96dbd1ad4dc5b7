/**
 The arithmetic of the hierarchical timing wheel: which wheel and slot hold an expiry, which slots an
 update sweeps, and why the sweep may stop early. Wheel `w` ticks once every `Span(w) == 64^w` units.
*/
module WheelArithmetic {
  import opened Bits

  const WHEEL_NUM := 4
  const WHEEL_LEN := 64
  const WHEEL_MAX := 63
  const TIMEOUT_MAX := 0xFF_FFFF

  /** The length of one tick of wheel `w`: `1 << (w * WHEEL_BIT)`. */
  function Span(w: nat): (r: nat)
    requires w <= WHEEL_NUM
    ensures r > 0
  {
    if w == 0 then 1 else if w == 1 then 64 else if w == 2 then 4096 else if w == 3 then 262144 else 16777216
  }

  /** `fls`: the number of the highest one-bit, counted from 1; 0 for 0. */
  function Fls(n: nat): nat
  {
    if n == 0 then 0 else 1 + Fls(n / 2)
  }

  /** `timeout_wheel`; the source calls it only with a nonzero argument. */
  function TimeoutWheel(timeout: nat): int
    requires timeout != 0
  {
    (Fls(if timeout < TIMEOUT_MAX then timeout else TIMEOUT_MAX) - 1) / 6
  }

  /** `timeout_slot`: on the higher wheels a timer sits one slot early. */
  function TimeoutSlot(w: nat, expires: nat): (slot: nat)
    requires w < WHEEL_NUM
    ensures slot < WHEEL_LEN
  {
    SlotTick(w, expires) % WHEEL_LEN
  }

  /** The tick of wheel `w` at whose slot a timer for `expires` sits. */
  function SlotTick(w: nat, expires: nat): int
    requires w < WHEEL_NUM
  {
    expires / Span(w) - (if w == 0 then 0 else 1)
  }

  /** A timer for `expires` may sit in slot `slot` of wheel `w` while the clock reads `now`. */
  predicate Placed(w: nat, slot: nat, expires: nat, now: nat)
  {
    && w < WHEEL_NUM
    && slot == TimeoutSlot(w, expires)
    && now < expires
    && now / Span(w) <= SlotTick(w, expires)
    && (w < WHEEL_NUM - 1 ==> SlotTick(w, expires) <= now / Span(w) + WHEEL_MAX)
  }

  // ---- Which wheel ----------------------------------------------------------------------------

  lemma {:induction false} FlsOfSixty(n: nat)
    requires n >= 64
    ensures Fls(n) == 6 + Fls(n / 64)
  {
    assert Fls(n) == 1 + Fls(n / 2);
    assert Fls(n / 2) == 1 + Fls(n / 2 / 2);
    assert Fls(n / 2 / 2) == 1 + Fls(n / 2 / 2 / 2);
    assert Fls(n / 2 / 2 / 2) == 1 + Fls(n / 2 / 2 / 2 / 2);
    assert Fls(n / 2 / 2 / 2 / 2) == 1 + Fls(n / 2 / 2 / 2 / 2 / 2);
    assert n / 2 / 2 / 2 / 2 / 2 / 2 == n / 64;
  }

  lemma FlsSmall(n: nat)
    requires 1 <= n < 64
    ensures 1 <= Fls(n) <= 6
  {
    assert Fls(n) == 1 + Fls(n / 2);
    assert n / 2 > 0 ==> Fls(n / 2) == 1 + Fls(n / 2 / 2);
    assert n / 2 / 2 > 0 ==> Fls(n / 2 / 2) == 1 + Fls(n / 2 / 2 / 2);
    assert n / 2 / 2 / 2 > 0 ==> Fls(n / 2 / 2 / 2) == 1 + Fls(n / 2 / 2 / 2 / 2);
    assert n / 2 / 2 / 2 / 2 > 0 ==> Fls(n / 2 / 2 / 2 / 2) == 1 + Fls(n / 2 / 2 / 2 / 2 / 2);
    assert n / 2 / 2 / 2 / 2 / 2 < 2;
  }

  /**
   `timeout_wheel` picks the wheel whose range `64^w .. 64^(w+1)` holds the remaining time; the last wheel also
   takes everything beyond.
  */
  lemma TimeoutWheelRange(timeout: nat)
    requires timeout != 0
    ensures 0 <= TimeoutWheel(timeout) < WHEEL_NUM
    ensures Span(TimeoutWheel(timeout)) <= timeout
    ensures TimeoutWheel(timeout) < WHEEL_NUM - 1 ==> timeout < Span(TimeoutWheel(timeout) + 1)
  {
    var n := if timeout < TIMEOUT_MAX then timeout else TIMEOUT_MAX;
    if n < 64 {
      FlsSmall(n);
    } else {
      FlsOfSixty(n);
      var n1 := n / 64;
      if n1 < 64 {
        FlsSmall(n1);
      } else {
        FlsOfSixty(n1);
        var n2 := n1 / 64;
        if n2 < 64 {
          FlsSmall(n2);
        } else {
          FlsOfSixty(n2);
          FlsSmall(n2 / 64);
        }
      }
    }
  }

  /** Scheduling puts a timer where it may sit. */
  lemma SchedPlaces(expires: nat, now: nat)
    requires now < expires
    ensures 0 <= TimeoutWheel(expires - now) < WHEEL_NUM
    ensures Placed(TimeoutWheel(expires - now), TimeoutSlot(TimeoutWheel(expires - now), expires), expires, now)
  {
    TimeoutWheelRange(expires - now);
  }

  // ---- Which slots an update sweeps -----------------------------------------------------------

  /**
   The value of `elapsed` when the update loop reaches wheel `w`: the real time passed, forced up to one tick of
   `w`.
  */
  function ElapsedAt(w: nat, was: nat, now: nat): nat
    requires w < WHEEL_NUM && was <= now
  {
    if w == 0 then now - was else if now - was < Span(w) then Span(w) else now - was
  }

  /** The mask `pending` that `timeouts_update` computes on wheel `w`. */
  function SweepMask(w: nat, elapsed: nat, was: nat, now: nat): Mask
    requires w < WHEEL_NUM
  {
    MaskOf(was / Span(w), now / Span(w), elapsed / Span(w))
  }

  /** That mask, from the old and the new position of the wheel and the number of ticks elapsed. */
  function MaskOf(was: nat, now: nat, ticks: nat): Mask
  {
    if ticks > WHEEL_MAX then
      AllOnes()
    else
      var elapsed := ticks % WHEEL_LEN;
      var oslot := was % WHEEL_LEN;
      var nslot := now % WHEEL_LEN;
      Rotl(LowMask(elapsed), oslot) + Rotr(Rotl(LowMask(elapsed), nslot), elapsed) + One(nslot)
  }

  lemma TickBounds(w: nat, was: nat, now: nat)
    requires w < WHEEL_NUM && was <= now
    ensures (now - was) / Span(w) <= now / Span(w) - was / Span(w) <= (now - was) / Span(w) + 1
    ensures w > 0 ==> ElapsedAt(w, was, now) / Span(w) >= 1
    ensures ElapsedAt(w, was, now) / Span(w) >= (now - was) / Span(w)
  {
  }

  lemma ModIs(x: int, q: int, r: int)
    requires x == 64 * q + r && 0 <= r < 64
    ensures x % 64 == r
  {
  }

  lemma ModShift(a: int, b: int)
    ensures (a % WHEEL_LEN + b) % WHEEL_LEN == (a + b) % WHEEL_LEN
  {
    var c := a % 64 + b;
    ModIs(a + b, a / 64 + c / 64, c % 64);
  }

  lemma RunBit(k: nat, start: nat, slot: nat)
    requires k < WHEEL_LEN && slot < WHEEL_LEN
    ensures slot in Rotl(LowMask(k), start % WHEEL_LEN) <==> (slot - start) % WHEEL_LEN < k
  {
    RotlBit(LowMask(k), start % WHEEL_LEN, slot);
    var c := slot + WORD - start % WHEEL_LEN;
    ModIs(slot - start, c / 64 - start / 64 - 1, c % 64);
  }

  /** Membership in the mask of a wheel that has not gone all the way round, in terms of distances. */
  lemma MaskMember(o: nat, n: nat, k: nat, slot: nat)
    requires k < WHEEL_LEN && slot < WHEEL_LEN
    ensures slot in MaskOf(o, n, k) <==>
            (slot - o) % WHEEL_LEN < k || (slot + k - n) % WHEEL_LEN < k || slot == n % WHEEL_LEN
  {
    hide Rotl, Rotr, LowMask;
    RunBit(k, o, slot);
    RotrBit(Rotl(LowMask(k), n % WHEEL_LEN), k, slot);
    RunBit(k, n, (slot + k) % WHEEL_LEN);
    ModShift(slot + k, 0 - n);
  }

  lemma FullMask(o: nat, n: nat, k: nat, slot: nat)
    requires k >= WHEEL_LEN && slot < WHEEL_LEN
    ensures slot in MaskOf(o, n, k)
  {
  }

  lemma DistanceCovers(o: nat, n: nat, k: nat, tick: int)
    requires o <= tick <= n <= o + k + 1 && k < WHEEL_LEN
    requires k == 0 ==> o == n
    ensures || (tick % WHEEL_LEN - o) % WHEEL_LEN < k
            || (tick % WHEEL_LEN + k - n) % WHEEL_LEN < k
            || tick % WHEEL_LEN == n % WHEEL_LEN
  {
    if tick - o < k {
      ModShift(tick, 0 - o);
      ModIs(tick - o, 0, tick - o);
    } else if tick < n {
      ModShift(tick, k - n);
      ModIs(tick + k - n, 0, k - 1);
    }
  }

  lemma MaskCovers(o: nat, n: nat, k: nat, tick: int)
    requires o <= tick <= n <= o + k + 1
    requires k == 0 ==> o == n
    ensures tick % WHEEL_LEN in MaskOf(o, n, k)
  {
    hide MaskOf;
    if k < WHEEL_LEN {
      MaskMember(o, n, k, tick % WHEEL_LEN);
      DistanceCovers(o, n, k, tick);
    } else {
      FullMask(o, n, k, tick % WHEEL_LEN);
    }
  }

  lemma DistanceExact(o: nat, n: nat, k: nat, slot: nat)
    requires o + k <= n <= o + k + 1 && k < WHEEL_LEN && slot < WHEEL_LEN
    requires k == 0 ==> o == n
    ensures (slot - o) % WHEEL_LEN < k || (slot + k - n) % WHEEL_LEN < k || slot == n % WHEEL_LEN <==>
            (slot - o) % WHEEL_LEN <= n - o
  {
    var d := (slot - o) % WHEEL_LEN;
    SameSlot(slot, o, n);
    if n == o + k + 1 {
      ModShift(slot - o, -1);
      if d > 0 {
        ModIs(d - 1, 0, d - 1);
      } else {
        ModIs(d - 1, -1, 63);
      }
    }
  }

  lemma MaskExact(o: nat, n: nat, k: nat, slot: nat)
    requires o + k <= n <= o + k + 1 && slot < WHEEL_LEN
    requires k == 0 ==> o == n
    ensures slot in MaskOf(o, n, k) <==> (slot - o) % WHEEL_LEN <= n - o
  {
    hide MaskOf;
    if k < WHEEL_LEN {
      MaskMember(o, n, k, slot);
      DistanceExact(o, n, k, slot);
    } else {
      FullMask(o, n, k, slot);
    }
  }

  lemma SameSlot(slot: nat, o: nat, n: nat)
    requires slot < WHEEL_LEN && o <= n <= o + WHEEL_LEN
    ensures slot == n % WHEEL_LEN <==> (slot - o) % WHEEL_LEN == (n - o) % WHEEL_LEN
  {
    ModShift(slot - o, o);
    ModShift(n - o, o);
    ModShift(n, 0 - o);
    ModIs(slot, 0, slot);
  }

  /** Every slot that wheel `w` passes from its old to its new position, both included, is in the mask. */
  lemma SweepCovers(w: nat, was: nat, now: nat, tick: int)
    requires w < WHEEL_NUM && was <= now
    requires was / Span(w) <= tick <= now / Span(w)
    ensures tick % WHEEL_LEN in SweepMask(w, ElapsedAt(w, was, now), was, now)
  {
    hide MaskOf;
    TickBounds(w, was, now);
    MaskCovers(was / Span(w), now / Span(w), ElapsedAt(w, was, now) / Span(w), tick);
  }

  /** Before the tick is forced the mask is exact: it holds the slots passed and no other. */
  lemma SweepExact(w: nat, was: nat, now: nat, slot: nat)
    requires w < WHEEL_NUM && was <= now && slot < WHEEL_LEN
    requires ElapsedAt(w, was, now) == now - was
    ensures slot in SweepMask(w, ElapsedAt(w, was, now), was, now) <==>
            (slot - was / Span(w)) % WHEEL_LEN <= now / Span(w) - was / Span(w)
  {
    hide MaskOf;
    TickBounds(w, was, now);
    MaskExact(was / Span(w), now / Span(w), (now - was) / Span(w), slot);
  }

  lemma NoWrap(o: nat, n: nat, k: nat)
    requires o <= n <= o + k + 1 && (k == 0 ==> o == n)
    requires 0 !in MaskOf(o, n, k)
    ensures o / 64 == n / 64
  {
    hide MaskOf;
    if o / 64 < n / 64 {
      ModIs(n / 64 * 64, n / 64, 0);
      MaskCovers(o, n, k, n / 64 * 64);
    }
  }

  /** Stopping after a wheel whose mask lacks slot 0 is sound: no higher wheel has ticked. */
  lemma BreakIsSound(w: nat, was: nat, now: nat, higher: nat)
    requires w < higher < WHEEL_NUM && was <= now
    requires 0 !in SweepMask(w, ElapsedAt(w, was, now), was, now)
    ensures was / Span(higher) == now / Span(higher)
  {
    hide MaskOf;
    TickBounds(w, was, now);
    NoWrap(was / Span(w), now / Span(w), ElapsedAt(w, was, now) / Span(w));
    var v := w;
    while v + 1 < higher
      invariant w <= v < higher && was / Span(v) / 64 == now / Span(v) / 64
    {
      DivSpan(was, v);
      DivSpan(now, v);
      v := v + 1;
    }
    DivSpan(was, v);
    DivSpan(now, v);
  }

  lemma DivSpan(t: nat, w: nat)
    requires w < WHEEL_NUM
    ensures t / Span(w + 1) == t / Span(w) / 64
  {
  }

  // ---- What a sweep leaves behind -------------------------------------------------------------

  /** A timer that an update did not sweep still sits correctly at the new time. */
  lemma UnsweptStaysPlaced(w: nat, slot: nat, expires: nat, was: nat, now: nat)
    requires was <= now && Placed(w, slot, expires, was)
    requires slot !in SweepMask(w, ElapsedAt(w, was, now), was, now) || was / Span(w) == now / Span(w)
    requires w == 0 ==> slot !in SweepMask(w, ElapsedAt(w, was, now), was, now)
    ensures Placed(w, slot, expires, now)
  {
    hide MaskOf;
    var tick := SlotTick(w, expires);
    TickGrows(w, was, now);
    if tick <= now / Span(w) {
      SweepCovers(w, was, now, tick);
    }
  }

  lemma TickGrows(w: nat, was: nat, now: nat)
    requires w < WHEEL_NUM && was <= now
    ensures was / Span(w) <= now / Span(w)
  {
  }
}
