/**
 The look-ahead of the decider: earliest-deadline-first service of interactive jobs over the
 sporadic-server slots of a schedule, whole slots at a time. A job may use a slot that ends after its
 arrival and starts before its deadline.
*/
module EdfDecider {

  /** `ITaskEntry` */
  datatype Job = Job(deadline: nat, burst: nat, arrival: nat)

  /** A (start, end) pair of a schedule. */
  datatype Slot = Slot(start: nat, end: nat)

  /** An entry of the priority queue: a deadline and the burst still to be served. */
  datatype Entry = Entry(deadline: nat, burst: nat)

  /** The order of `std::greater` on pairs, smallest on top. */
  predicate Before(a: Entry, b: Entry)
  {
    a.deadline < b.deadline || (a.deadline == b.deadline && a.burst <= b.burst)
  }

  predicate Sorted(q: seq<Entry>)
  {
    forall i, j :: 0 <= i < j < |q| ==> Before(q[i], q[j])
  }

  /** `priority_queue::push`: equal entries are interchangeable, so a sorted sequence is the queue. */
  function Push(q: seq<Entry>, e: Entry): seq<Entry>
  {
    if q == [] then [e] else if Before(e, q[0]) then [e] + q else [q[0]] + Push(q[1..], e)
  }

  // ---- The simulation, slot by slot -----------------------------------------------------------

  datatype Sim = Sim(waiting: seq<Job>, queue: seq<Entry>, count: nat)

  /** Jobs that arrived before the slot ends enter the queue; `waiting` is in order of arrival. */
  function Admit(s: Sim, slot: Slot): Sim
    decreases |s.waiting|
  {
    if s.waiting == [] || s.waiting[0].arrival >= slot.end then s
    else
      var job := s.waiting[0];
      Admit(Sim(s.waiting[1..], Push(s.queue, Entry(job.deadline, job.burst)), s.count), slot)
  }

  /** Entries whose deadline is not after the start of the slot are dropped. */
  function Drop(q: seq<Entry>, slot: Slot): seq<Entry>
  {
    if q != [] && q[0].deadline <= slot.start then Drop(q[1..], slot) else q
  }

  /** Serving the queue for `time`: whole bursts while they fit, then part of one. */
  function Serve(q: seq<Entry>, count: nat, time: int): (seq<Entry>, nat)
    decreases |q|
  {
    if time <= 0 || q == [] then (q, count)
    else if q[0].burst <= time then Serve(q[1..], count + 1, time - q[0].burst)
    else (Push(q[1..], Entry(q[0].deadline, q[0].burst - time)), count)
  }

  function SlotStep(s: Sim, slot: Slot): Sim
  {
    var a := Admit(s, slot);
    var (q, count) := Serve(Drop(a.queue, slot), a.count, slot.end - slot.start);
    Sim(a.waiting, q, count)
  }

  /** The loop over the slots; it may stop once nothing is left. */
  function Simulate(s: Sim, slots: seq<Slot>): Sim
    decreases |slots|
  {
    if slots == [] then s
    else
      var s1 := SlotStep(s, slots[0]);
      if s1.queue == [] && s1.waiting == [] then s1 else Simulate(s1, slots[1..])
  }

  /** `CalculateMatchCount` */
  function MatchCount(jobs: seq<Job>, slots: seq<Slot>): nat
  {
    Simulate(Sim(jobs, [], 0), slots).count
  }

  // ---- Feasibility ----------------------------------------------------------------------------

  predicate Ordered(slots: seq<Slot>)
  {
    && (forall k :: 0 <= k < |slots| ==> slots[k].start <= slots[k].end)
    && (forall k, l :: 0 <= k < l < |slots| ==> slots[k].end <= slots[l].start)
  }

  predicate ByArrival(jobs: seq<Job>)
  {
    forall i, j :: 0 <= i < j < |jobs| ==> jobs[i].arrival <= jobs[j].arrival
  }

  predicate PositiveBursts(jobs: seq<Job>)
  {
    forall i :: 0 <= i < |jobs| ==> jobs[i].burst > 0
  }

  /** A job may be served in a slot. */
  predicate Usable(slot: Slot, job: Job)
  {
    slot.end > job.arrival && slot.start < job.deadline
  }

  predicate SomeUsable(slots: seq<Slot>, job: Job)
  {
    exists u :: 0 <= u < |slots| && Usable(slots[u], job)
  }

  /** All the slots a job may use are in the window `from..to`. */
  ghost predicate Within(slots: seq<Slot>, from: nat, to: nat, job: Job)
  {
    forall k :: 0 <= k < |slots| && Usable(slots[k], job) ==> from <= k < to
  }

  /** The bursts of the jobs that must be served inside the window. */
  ghost function Demand(jobs: seq<Job>, slots: seq<Slot>, from: nat, to: nat): nat
  {
    if jobs == [] then 0
    else (if Within(slots, from, to, jobs[0]) then jobs[0].burst else 0) + Demand(jobs[1..], slots, from, to)
  }

  /** The time the window offers. */
  function Capacity(slots: seq<Slot>, from: nat, to: nat): int
    requires from <= to <= |slots|
    decreases |slots| - from
  {
    if from == to then 0 else slots[from].end - slots[from].start + Capacity(slots, from + 1, to)
  }

  /** No window of consecutive slots is asked for more than it offers. */
  ghost predicate Feasible(jobs: seq<Job>, slots: seq<Slot>)
  {
    forall from, to :: 0 <= from <= to <= |slots| ==> Demand(jobs, slots, from, to) <= Capacity(slots, from, to)
  }

  // ---- Work due by a time ---------------------------------------------------------------------

  datatype Horizon = Until(time: nat) | Forever

  predicate DueBy(h: Horizon, deadline: nat)
  {
    h.Forever? || deadline <= h.time
  }

  /** The burst left in the queue for entries due by `h`. */
  function Work(q: seq<Entry>, h: Horizon): nat
  {
    if q == [] then 0 else (if DueBy(h, q[0].deadline) then q[0].burst else 0) + Work(q[1..], h)
  }

  /** The bursts of the jobs due by `h`. */
  function JobWork(jobs: seq<Job>, h: Horizon): nat
  {
    if jobs == [] then 0 else (if DueBy(h, jobs[0].deadline) then jobs[0].burst else 0) + JobWork(jobs[1..], h)
  }

  function Total(s: Sim, h: Horizon): nat
  {
    Work(s.queue, h) + JobWork(s.waiting, h)
  }

  predicate PositiveEntries(q: seq<Entry>)
  {
    forall i :: 0 <= i < |q| ==> q[i].burst > 0
  }

  /** A queue that a run can have. */
  predicate GoodQueue(q: seq<Entry>)
  {
    Sorted(q) && PositiveEntries(q)
  }

  lemma {:induction false} PushKeeps(q: seq<Entry>, e: Entry)
    requires GoodQueue(q) && e.burst > 0
    ensures GoodQueue(Push(q, e)) && |Push(q, e)| == |q| + 1
    ensures forall x :: x in Push(q, e) <==> x == e || x in q
  {
    if q != [] && !Before(e, q[0]) {
      var rest := q[1..];
      PushKeeps(rest, e);
      var r := [q[0]] + Push(rest, e);
      forall i, j | 0 <= i < j < |r| ensures Before(r[i], r[j]) {
        if i == 0 {
          assert r[j] in Push(rest, e);
        }
      }
      assert q == [q[0]] + rest;
    }
  }

  lemma {:induction false} PushWork(q: seq<Entry>, e: Entry, h: Horizon)
    ensures Work(Push(q, e), h) == Work(q, h) + (if DueBy(h, e.deadline) then e.burst else 0)
  {
    if q == [] {
    } else if Before(e, q[0]) {
      assert ([e] + q)[1..] == q;
    } else {
      PushWork(q[1..], e, h);
      assert ([q[0]] + Push(q[1..], e))[1..] == Push(q[1..], e);
    }
  }

  lemma {:induction false} NothingDue(q: seq<Entry>, h: Horizon)
    requires forall i :: 0 <= i < |q| ==> !DueBy(h, q[i].deadline)
    ensures Work(q, h) == 0
  {
    if q != [] {
      NothingDue(q[1..], h);
    }
  }

  /** Earliest deadline first: service goes to the work due earliest, whatever the horizon. */
  lemma {:induction false} ServeWork(q: seq<Entry>, count: nat, time: nat, h: Horizon)
    requires GoodQueue(q)
    ensures var (r, n) := Serve(q, count, time);
      && GoodQueue(r) && n + |r| == count + |q|
      && Work(r, h) == if Work(q, h) >= time then Work(q, h) - time else 0
    decreases |q|
  {
    if time > 0 && q != [] {
      var rest := q[1..];
      if !DueBy(h, q[0].deadline) {
        NothingDue(rest, h);
      }
      if q[0].burst <= time {
        ServeWork(rest, count + 1, time - q[0].burst, h);
      } else {
        var e := Entry(q[0].deadline, q[0].burst - time);
        PushKeeps(rest, e);
        PushWork(rest, e, h);
      }
    }
  }

  /** Admitting jobs moves work from the waiting list to the queue and loses none. */
  lemma {:induction false} AdmitWork(s: Sim, slot: Slot, h: Horizon)
    requires GoodQueue(s.queue) && PositiveBursts(s.waiting)
    ensures var a := Admit(s, slot);
      && GoodQueue(a.queue) && a.count == s.count
      && Total(a, h) == Total(s, h)
      && |a.queue| + |a.waiting| == |s.queue| + |s.waiting|
      && |a.waiting| <= |s.waiting| && a.waiting == s.waiting[|s.waiting| - |a.waiting|..]
    decreases |s.waiting|
  {
    if s.waiting != [] && s.waiting[0].arrival < slot.end {
      var job := s.waiting[0];
      var e := Entry(job.deadline, job.burst);
      PushKeeps(s.queue, e);
      PushWork(s.queue, e, h);
      AdmitWork(Sim(s.waiting[1..], Push(s.queue, e), s.count), slot, h);
    }
  }

  /** Who is still waiting: exactly the jobs that arrive at or after the end of the slot. */
  lemma {:induction false} AdmitByArrival(s: Sim, slot: Slot)
    requires ByArrival(s.waiting)
    ensures var a := Admit(s, slot);
      && |a.waiting| <= |s.waiting|
      && (forall i :: 0 <= i < |s.waiting| ==> (s.waiting[i].arrival >= slot.end <==> i >= |s.waiting| - |a.waiting|))
    decreases |s.waiting|
  {
    if s.waiting != [] && s.waiting[0].arrival < slot.end {
      var job := s.waiting[0];
      var s1 := Sim(s.waiting[1..], Push(s.queue, Entry(job.deadline, job.burst)), s.count);
      AdmitByArrival(s1, slot);
      forall i | 0 <= i < |s.waiting|
        ensures s.waiting[i].arrival >= slot.end <==> i >= |s.waiting| - |Admit(s, slot).waiting|
      {
        if i > 0 {
          assert s.waiting[i] == s1.waiting[i - 1];
        }
      }
    }
  }

  /** Dropping keeps a good queue, and drops nothing exactly when no work is due by the start of the slot. */
  lemma {:induction false} DropFacts(q: seq<Entry>, slot: Slot)
    requires GoodQueue(q)
    ensures GoodQueue(Drop(q, slot)) && |Drop(q, slot)| <= |q|
    ensures Drop(q, slot) == q <==> Work(q, Until(slot.start)) == 0
    ensures Drop(q, slot) != q ==> |Drop(q, slot)| < |q|
  {
    if q != [] {
      if q[0].deadline <= slot.start {
        DropFacts(q[1..], slot);
      } else {
        NothingDue(q, Until(slot.start));
      }
    }
  }

  // ---- Runs -----------------------------------------------------------------------------------

  /** The state before slot `k`, without the early exit. */
  function StateAt(jobs: seq<Job>, slots: seq<Slot>, k: nat): Sim
    requires k <= |slots|
  {
    if k == 0 then Sim(jobs, [], 0) else SlotStep(StateAt(jobs, slots, k - 1), slots[k - 1])
  }

  lemma {:induction false} NothingLeft(jobs: seq<Job>, slots: seq<Slot>, k: nat, n: nat)
    requires k <= n <= |slots|
    requires StateAt(jobs, slots, k).queue == [] && StateAt(jobs, slots, k).waiting == []
    ensures StateAt(jobs, slots, n) == StateAt(jobs, slots, k)
    decreases n - k
  {
    if k < n {
      NothingLeft(jobs, slots, k, n - 1);
    }
  }

  /** The early exit changes nothing. */
  lemma {:induction false} SimulateIsRun(jobs: seq<Job>, slots: seq<Slot>, k: nat)
    requires k <= |slots|
    ensures Simulate(StateAt(jobs, slots, k), slots[k..]) == StateAt(jobs, slots, |slots|)
    decreases |slots| - k
  {
    if k < |slots| {
      var s1 := StateAt(jobs, slots, k + 1);
      assert slots[k..][0] == slots[k] && slots[k..][1..] == slots[k + 1..];
      if s1.queue == [] && s1.waiting == [] {
        NothingLeft(jobs, slots, k + 1, |slots|);
      } else {
        SimulateIsRun(jobs, slots, k + 1);
      }
    }
  }

  predicate Setting(jobs: seq<Job>, slots: seq<Slot>)
  {
    Ordered(slots) && ByArrival(jobs) && PositiveBursts(jobs)
  }

  /**
   What holds before every slot: the queue is good, and the waiting jobs are those that arrive at or after the
   end of the last slot.
  */
  ghost predicate Sane(jobs: seq<Job>, slots: seq<Slot>, k: nat, s: Sim)
    requires k <= |slots|
  {
    && GoodQueue(s.queue)
    && s.count + |s.queue| + |s.waiting| <= |jobs|
    && |s.waiting| <= |jobs| && s.waiting == jobs[|jobs| - |s.waiting|..]
    && (k > 0 ==> forall i :: 0 <= i < |jobs| ==> (jobs[i].arrival >= slots[k - 1].end <==> i >= |jobs| - |s.waiting|))
    && (k == 0 ==> s.waiting == jobs)
  }

  lemma ArrivalsSane(jobs: seq<Job>, slots: seq<Slot>, k: nat, s: Sim)
    requires Setting(jobs, slots) && k < |slots| && Sane(jobs, slots, k, s)
    ensures var a := Admit(s, slots[k]);
      && |a.waiting| <= |s.waiting|
      && (forall i :: 0 <= i < |jobs| ==> (jobs[i].arrival >= slots[k].end <==> i >= |jobs| - |a.waiting|))
  {
    hide GoodQueue;
    var a := Admit(s, slots[k]);
    AdmitByArrival(s, slots[k]);
    var n := |jobs| - |s.waiting|;
    forall i | 0 <= i < |jobs| ensures jobs[i].arrival >= slots[k].end <==> i >= |jobs| - |a.waiting| {
      if i >= n {
        assert jobs[i] == s.waiting[i - n];
      } else {
        assert k > 0 && jobs[i].arrival < slots[k - 1].end <= slots[k].start <= slots[k].end;
      }
    }
  }

  /** What every slot keeps: no job is invented, and the waiting jobs are the right ones. */
  lemma SlotStepSane(jobs: seq<Job>, slots: seq<Slot>, k: nat, s: Sim)
    requires Setting(jobs, slots) && k < |slots| && Sane(jobs, slots, k, s)
    ensures Sane(jobs, slots, k + 1, SlotStep(s, slots[k]))
    ensures SlotStep(s, slots[k]).count + |SlotStep(s, slots[k]).queue| + |SlotStep(s, slots[k]).waiting| <=
        s.count + |s.queue| + |s.waiting|
  {
    hide GoodQueue, Admit, Drop, Serve, Work, JobWork, ByArrival;
    var slot := slots[k];
    var a := Admit(s, slot);
    AdmitWork(s, slot, Forever);
    ArrivalsSane(jobs, slots, k, s);
    DropFacts(a.queue, slot);
    ServeWork(Drop(a.queue, slot), a.count, slot.end - slot.start, Forever);
  }

  lemma {:induction false} RunSane(jobs: seq<Job>, slots: seq<Slot>, k: nat)
    requires Setting(jobs, slots) && k <= |slots|
    ensures Sane(jobs, slots, k, StateAt(jobs, slots, k))
  {
    if k > 0 {
      RunSane(jobs, slots, k - 1);
      SlotStepSane(jobs, slots, k - 1, StateAt(jobs, slots, k - 1));
    }
  }

  // ---- Feasible sets are served completely ----------------------------------------------------

  /** The deadlines that lie before window end `to`. */
  function HorizonOf(slots: seq<Slot>, to: nat): Horizon
    requires to <= |slots|
  {
    if to == |slots| then Forever else Until(slots[to].start)
  }

  predicate ArrivesAfter(slots: seq<Slot>, from: nat, job: Job)
    requires from <= |slots|
  {
    from == 0 || job.arrival >= slots[from - 1].end
  }

  lemma WithinIf(slots: seq<Slot>, from: nat, to: nat, job: Job)
    requires Ordered(slots) && from <= to <= |slots|
    requires ArrivesAfter(slots, from, job) && DueBy(HorizonOf(slots, to), job.deadline)
    ensures Within(slots, from, to, job)
  {
    assert forall k :: 0 <= k < from - 1 ==> slots[k].end <= slots[from - 1].start;
  }

  lemma {:induction false} DemandAtLeast(jobs: seq<Job>, slots: seq<Slot>, from: nat, to: nat)
    requires Ordered(slots) && from <= to <= |slots|
    requires forall i :: 0 <= i < |jobs| ==> ArrivesAfter(slots, from, jobs[i])
    ensures JobWork(jobs, HorizonOf(slots, to)) <= Demand(jobs, slots, from, to)
  {
    if jobs != [] {
      assert ArrivesAfter(slots, from, jobs[0]);
      if DueBy(HorizonOf(slots, to), jobs[0].deadline) {
        WithinIf(slots, from, to, jobs[0]);
      }
      DemandAtLeast(jobs[1..], slots, from, to);
    }
  }

  lemma {:induction false} DemandOfSuffix(jobs: seq<Job>, slots: seq<Slot>, from: nat, to: nat, n: nat)
    requires n <= |jobs|
    ensures Demand(jobs[n..], slots, from, to) <= Demand(jobs, slots, from, to)
  {
    if n > 0 {
      DemandOfSuffix(jobs[1..], slots, from, to, n - 1);
      assert jobs[1..][n - 1..] == jobs[n..];
    }
  }

  /** The jobs still to arrive fit in what is left of any window that starts now. */
  lemma WaitingFits(jobs: seq<Job>, slots: seq<Slot>, k: nat, to: nat, s: Sim)
    requires Setting(jobs, slots) && Feasible(jobs, slots) && k <= to <= |slots| && Sane(jobs, slots, k, s)
    ensures JobWork(s.waiting, HorizonOf(slots, to)) <= Capacity(slots, k, to)
  {
    var n := |jobs| - |s.waiting|;
    forall i | 0 <= i < |s.waiting| ensures ArrivesAfter(slots, k, s.waiting[i]) {
      assert s.waiting[i] == jobs[n + i];
    }
    DemandAtLeast(s.waiting, slots, k, to);
    DemandOfSuffix(jobs, slots, k, to, n);
  }

  /** From slot `k` on, every window is long enough for all the work due before its end. */
  ghost predicate Fits(slots: seq<Slot>, k: nat, s: Sim)
    requires k <= |slots|
  {
    forall to :: k <= to <= |slots| ==> Total(s, HorizonOf(slots, to)) <= Capacity(slots, k, to)
  }

  /** A slot that drops nothing serves its whole length, or all the work there is. */
  lemma SlotServes(s: Sim, slot: Slot, h: Horizon)
    requires GoodQueue(s.queue) && PositiveBursts(s.waiting) && slot.start <= slot.end
    requires Work(s.queue, Until(slot.start)) + JobWork(s.waiting, Until(slot.start)) == 0
    ensures var r := SlotStep(s, slot);
      && (Total(r, h) == Total(s, h) - (slot.end - slot.start) || Total(r, h) == JobWork(r.waiting, h))
      && r.count + |r.queue| + |r.waiting| == s.count + |s.queue| + |s.waiting|
  {
    var a := Admit(s, slot);
    AdmitWork(s, slot, Until(slot.start));
    DropFacts(a.queue, slot);
    AdmitWork(s, slot, h);
    ServeWork(a.queue, a.count, slot.end - slot.start, h);
  }

  lemma FitsStep(jobs: seq<Job>, slots: seq<Slot>, k: nat, s: Sim)
    requires Setting(jobs, slots) && Feasible(jobs, slots) && k < |slots| && Sane(jobs, slots, k, s)
    requires Fits(slots, k, s)
    ensures Fits(slots, k + 1, SlotStep(s, slots[k]))
    ensures SlotStep(s, slots[k]).count + |SlotStep(s, slots[k]).queue| + |SlotStep(s, slots[k]).waiting| ==
        s.count + |s.queue| + |s.waiting|
  {
    hide SlotStep, Feasible, GoodQueue, Work, JobWork;
    var r := SlotStep(s, slots[k]);
    assert Total(s, HorizonOf(slots, k)) <= Capacity(slots, k, k);
    SlotServes(s, slots[k], Forever);
    SlotStepSane(jobs, slots, k, s);
    forall to | k + 1 <= to <= |slots| ensures Total(r, HorizonOf(slots, to)) <= Capacity(slots, k + 1, to) {
      SlotServes(s, slots[k], HorizonOf(slots, to));
      WaitingFits(jobs, slots, k + 1, to, r);
      assert Total(s, HorizonOf(slots, to)) <= Capacity(slots, k, to);
    }
  }

  lemma FitsInitially(jobs: seq<Job>, slots: seq<Slot>)
    requires Setting(jobs, slots) && Feasible(jobs, slots)
    ensures Fits(slots, 0, Sim(jobs, [], 0))
  {
    hide Feasible;
    var s := Sim(jobs, [], 0);
    forall to | 0 <= to <= |slots| ensures Total(s, HorizonOf(slots, to)) <= Capacity(slots, 0, to) {
      WaitingFits(jobs, slots, 0, to, s);
    }
  }

  lemma {:induction false} FeasibleRun(jobs: seq<Job>, slots: seq<Slot>, k: nat)
    requires Setting(jobs, slots) && Feasible(jobs, slots) && k <= |slots|
    ensures Fits(slots, k, StateAt(jobs, slots, k))
    ensures var s := StateAt(jobs, slots, k); s.count + |s.queue| + |s.waiting| == |jobs|
  {
    hide Feasible, Setting, Fits, Sane, SlotStep;
    if k == 0 {
      FitsInitially(jobs, slots);
    } else {
      RunSane(jobs, slots, k - 1);
      FeasibleRun(jobs, slots, k - 1);
      FitsStep(jobs, slots, k - 1, StateAt(jobs, slots, k - 1));
    }
  }

  lemma NoWorkNoJobs(s: Sim)
    requires GoodQueue(s.queue) && PositiveBursts(s.waiting) && Total(s, Forever) == 0
    ensures s.queue == [] && s.waiting == []
  {
  }

  /** EDF is optimal here: when no window is overloaded, every job is counted. */
  lemma FeasibleImpliesAllCounted(jobs: seq<Job>, slots: seq<Slot>)
    requires Setting(jobs, slots) && Feasible(jobs, slots)
    ensures MatchCount(jobs, slots) == |jobs|
  {
    hide Feasible, StateAt, Simulate;
    var n := |slots|;
    FeasibleRun(jobs, slots, n);
    RunSane(jobs, slots, n);
    assert Total(StateAt(jobs, slots, n), HorizonOf(slots, n)) <= Capacity(slots, n, n);
    NoWorkNoJobs(StateAt(jobs, slots, n));
    CountIsRun(jobs, slots);
  }

  lemma CountIsRun(jobs: seq<Job>, slots: seq<Slot>)
    ensures MatchCount(jobs, slots) == StateAt(jobs, slots, |slots|).count
  {
    SimulateIsRun(jobs, slots, 0);
    assert slots[0..] == slots;
    assert StateAt(jobs, slots, 0) == Sim(jobs, [], 0);
  }

  // ---- And only feasible sets are -------------------------------------------------------------

  /** A run that counts everything in the end. */
  ghost predicate Complete(jobs: seq<Job>, slots: seq<Slot>)
  {
    var s := StateAt(jobs, slots, |slots|); s.count == |jobs|
  }

  /** In such a run nothing is ever dropped. */
  lemma {:induction false} CompleteKeepsAll(jobs: seq<Job>, slots: seq<Slot>, k: nat)
    requires Setting(jobs, slots) && Complete(jobs, slots) && k <= |slots|
    ensures var s := StateAt(jobs, slots, k); s.count + |s.queue| + |s.waiting| == |jobs|
    decreases |slots| - k
  {
    RunSane(jobs, slots, k);
    if k < |slots| {
      CompleteKeepsAll(jobs, slots, k + 1);
      SlotStepSane(jobs, slots, k, StateAt(jobs, slots, k));
    }
  }

  /** Each slot takes off at most its own length from the work due by any horizon, and no dropped entry hides more. */
  lemma CompleteStep(jobs: seq<Job>, slots: seq<Slot>, k: nat, h: Horizon)
    requires Setting(jobs, slots) && Complete(jobs, slots) && k < |slots|
    ensures Total(StateAt(jobs, slots, k), h) <= Total(StateAt(jobs, slots, k + 1), h) + (slots[k].end - slots[k].start)
    ensures Work(Admit(StateAt(jobs, slots, k), slots[k]).queue, Until(slots[k].start)) == 0
  {
    hide GoodQueue, Admit, Drop, Serve, Work, JobWork, ByArrival, Complete;
    var s, slot := StateAt(jobs, slots, k), slots[k];
    var a := Admit(s, slot);
    RunSane(jobs, slots, k);
    CompleteKeepsAll(jobs, slots, k);
    CompleteKeepsAll(jobs, slots, k + 1);
    AdmitWork(s, slot, h);
    DropFacts(a.queue, slot);
    ServeWork(Drop(a.queue, slot), a.count, slot.end - slot.start, h);
    assert Drop(a.queue, slot) == a.queue;
  }

  lemma {:induction false} WorkMonotone(q: seq<Entry>, h: Horizon, g: Horizon)
    requires forall d :: DueBy(h, d) ==> DueBy(g, d)
    ensures Work(q, h) <= Work(q, g)
  {
    if q != [] {
      WorkMonotone(q[1..], h, g);
    }
  }

  /** When slot `k` comes, nothing due before slot `to <= k` can be left: it would be dropped. */
  lemma {:induction false} NothingOverdue(jobs: seq<Job>, slots: seq<Slot>, to: nat, k: nat)
    requires Setting(jobs, slots) && Complete(jobs, slots) && to <= k <= |slots|
    ensures Total(StateAt(jobs, slots, k), HorizonOf(slots, to)) == 0
    decreases |slots| - k
  {
    hide GoodQueue, Admit, Drop, Serve, ByArrival;
    var h := HorizonOf(slots, to);
    var s := StateAt(jobs, slots, k);
    RunSane(jobs, slots, k);
    if k == |slots| {
      CompleteKeepsAll(jobs, slots, k);
    } else {
      var slot := slots[k];
      var a := Admit(s, slot);
      CompleteStep(jobs, slots, k, h);
      AdmitWork(s, slot, h);
      assert slots[to].start <= slot.start by { if to < k { assert slots[to].end <= slots[k].start; } }
      WorkMonotone(a.queue, h, Until(slot.start));
      NothingOverdue(jobs, slots, to, k + 1);
      assert StateAt(jobs, slots, k + 1).waiting == a.waiting;
    }
  }

  lemma {:induction false} WindowHoldsWork(jobs: seq<Job>, slots: seq<Slot>, from: nat, to: nat)
    requires Setting(jobs, slots) && Complete(jobs, slots) && from <= to <= |slots|
    ensures Total(StateAt(jobs, slots, from), HorizonOf(slots, to)) <= Capacity(slots, from, to)
    decreases |slots| - from
  {
    if from == to {
      NothingOverdue(jobs, slots, to, to);
    } else {
      CompleteStep(jobs, slots, from, HorizonOf(slots, to));
      WindowHoldsWork(jobs, slots, from + 1, to);
    }
  }

  /** The first slot that ends after `arrival`. */
  function FirstOpen(slots: seq<Slot>, arrival: nat): (u: nat)
    ensures u <= |slots|
    ensures u < |slots| ==> slots[u].end > arrival
    ensures forall k :: 0 <= k < u ==> slots[k].end <= arrival
  {
    if slots == [] then 0
    else if slots[0].end > arrival then 0
    else
      var v := FirstOpen(slots[1..], arrival);
      assert forall k :: 1 <= k < v + 1 ==> slots[k] == slots[1..][k - 1];
      v + 1
  }

  lemma {:induction false} JobWorkHas(jobs: seq<Job>, h: Horizon, i: nat)
    requires i < |jobs| && DueBy(h, jobs[i].deadline)
    ensures JobWork(jobs, h) >= jobs[i].burst
  {
    if i > 0 {
      JobWorkHas(jobs[1..], h, i - 1);
    }
  }

  /** In a complete run every job has a slot it may use. */
  lemma HasUsable(jobs: seq<Job>, slots: seq<Slot>, i: nat) returns (u: nat)
    requires Setting(jobs, slots) && Complete(jobs, slots) && i < |jobs|
    ensures u < |slots| && Usable(slots[u], jobs[i])
  {
    u := FirstOpen(slots, jobs[i].arrival);
    if u == |slots| || jobs[i].deadline <= slots[u].start {
      RunSane(jobs, slots, u);
      var s := StateAt(jobs, slots, u);
      var n := |jobs| - |s.waiting|;
      assert i >= n;
      assert s.waiting[i - n] == jobs[i];
      JobWorkHas(s.waiting, HorizonOf(slots, u), i - n);
      NothingOverdue(jobs, slots, u, u);
      assert false;
    }
  }

  /** A job confined to a window arrives after the slot before it and is due before the slot behind it. */
  lemma WithinMeans(slots: seq<Slot>, from: nat, to: nat, job: Job, u: nat)
    requires Ordered(slots) && from <= to <= |slots| && Within(slots, from, to, job)
    requires u < |slots| && Usable(slots[u], job)
    ensures ArrivesAfter(slots, from, job) && DueBy(HorizonOf(slots, to), job.deadline)
  {
    assert from <= u < to;
    if from > 0 {
      assert slots[from - 1].start <= slots[from - 1].end <= slots[u].start;
      assert !Usable(slots[from - 1], job);
    }
    if to < |slots| {
      assert slots[u].end <= slots[to].start <= slots[to].end;
      assert !Usable(slots[to], job);
    }
  }

  /**
   Demand is at most the work of the jobs that arrive after the window's left edge and are due before its right
   edge.
  */
  lemma {:induction false} DemandAtMost(jobs: seq<Job>, slots: seq<Slot>, from: nat, to: nat, n: nat)
    requires Ordered(slots) && from <= to <= |slots| && n <= |jobs|
    requires forall i :: 0 <= i < |jobs| ==> SomeUsable(slots, jobs[i])
    requires forall i :: 0 <= i < n ==> !ArrivesAfter(slots, from, jobs[i])
    ensures Demand(jobs, slots, from, to) <= JobWork(jobs[n..], HorizonOf(slots, to))
  {
    if jobs != [] {
      assert SomeUsable(slots, jobs[0]);
      var u :| 0 <= u < |slots| && Usable(slots[u], jobs[0]);
      if Within(slots, from, to, jobs[0]) {
        WithinMeans(slots, from, to, jobs[0], u);
      }
      if n == 0 {
        DemandAtMost(jobs[1..], slots, from, to, 0);
        assert jobs[1..][0..] == jobs[1..] && jobs[0..] == jobs;
      } else {
        assert !ArrivesAfter(slots, from, jobs[0]);
        DemandAtMost(jobs[1..], slots, from, to, n - 1);
        assert jobs[1..][n - 1..] == jobs[n..];
      }
    }
  }

  /** Counting every job is possible only when no window is overloaded. */
  lemma AllCountedImpliesFeasible(jobs: seq<Job>, slots: seq<Slot>)
    requires Setting(jobs, slots) && MatchCount(jobs, slots) == |jobs|
    ensures Feasible(jobs, slots)
  {
    hide StateAt, Simulate;
    CountIsRun(jobs, slots);
    forall i | 0 <= i < |jobs| ensures SomeUsable(slots, jobs[i]) {
      var u := HasUsable(jobs, slots, i);
    }
    forall from, to | 0 <= from <= to <= |slots| ensures Demand(jobs, slots, from, to) <= Capacity(slots, from, to) {
      var s := StateAt(jobs, slots, from);
      RunSane(jobs, slots, from);
      var n := |jobs| - |s.waiting|;
      DemandAtMost(jobs, slots, from, to, n);
      WindowHoldsWork(jobs, slots, from, to);
    }
  }
}
