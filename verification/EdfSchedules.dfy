/**
 Schedules in general: how much of each slot every job gets. The look-ahead counts every job exactly when some
 schedule serves every job, so earliest-deadline-first is optimal among all of them, and what it counts is served.
*/
module EdfSchedules {
  import opened EdfDecider

  /** What one job gets, slot by slot. */
  type Plan = seq<nat>

  function Sum(p: Plan): nat
  {
    if p == [] then 0 else p[0] + Sum(p[1..])
  }

  /** The plan gives the job its whole burst, in slots it may use. */
  predicate PlanOk(job: Job, slots: seq<Slot>, p: Plan)
  {
    && |p| == |slots| && Sum(p) == job.burst
    && (forall k :: 0 <= k < |p| && p[k] > 0 ==> Usable(slots[k], job))
  }

  /** What slot `k` gives to all jobs together. */
  function Load(plans: seq<Plan>, k: nat): nat
    requires forall p :: p in plans ==> k < |p|
  {
    if plans == [] then 0 else plans[0][k] + Load(plans[1..], k)
  }

  predicate Planned(jobs: seq<Job>, slots: seq<Slot>, plans: seq<Plan>)
  {
    |plans| == |jobs| && forall i :: 0 <= i < |jobs| ==> PlanOk(jobs[i], slots, plans[i])
  }

  /** No slot gives more than its length. */
  predicate IsSchedule(jobs: seq<Job>, slots: seq<Slot>, plans: seq<Plan>)
  {
    && Planned(jobs, slots, plans)
    && (forall k :: 0 <= k < |slots| ==> Load(plans, k) <= slots[k].end - slots[k].start)
  }

  /** Some schedule, by whatever rule, serves every job. */
  ghost predicate Schedulable(jobs: seq<Job>, slots: seq<Slot>)
  {
    exists plans :: IsSchedule(jobs, slots, plans)
  }

  // ---- Schedules job by job -------------------------------------------------------------------

  function Minus(room: seq<int>, p: Plan): seq<int>
    requires |p| == |room|
  {
    seq(|room|, k requires 0 <= k < |room| => room[k] - p[k])
  }

  function Rooms(slots: seq<Slot>): seq<int>
  {
    seq(|slots|, k requires 0 <= k < |slots| => slots[k].end - slots[k].start)
  }

  /** The plans fit into the room the slots offer, taken one after the other. */
  predicate Fits(jobs: seq<Job>, slots: seq<Slot>, plans: seq<Plan>, room: seq<int>)
    requires |room| == |slots|
    decreases |jobs|
  {
    && |plans| == |jobs|
    && if jobs == [] then forall k :: 0 <= k < |room| ==> room[k] >= 0
       else PlanOk(jobs[0], slots, plans[0]) && Fits(jobs[1..], slots, plans[1..], Minus(room, plans[0]))
  }

  lemma PlannedTail(jobs: seq<Job>, slots: seq<Slot>, plans: seq<Plan>)
    requires |plans| == |jobs| > 0
    ensures Planned(jobs, slots, plans) <==> PlanOk(jobs[0], slots, plans[0]) && Planned(jobs[1..], slots, plans[1..])
  {
    assert forall i :: 1 <= i < |jobs| ==> jobs[i] == jobs[1..][i - 1] && plans[i] == plans[1..][i - 1];
  }

  /** Taking the plans one after the other is the same as adding them up. */
  lemma {:induction false} FitsIsSchedule(jobs: seq<Job>, slots: seq<Slot>, plans: seq<Plan>, room: seq<int>)
    requires |room| == |slots|
    ensures Fits(jobs, slots, plans, room) <==>
      Planned(jobs, slots, plans) && forall k :: 0 <= k < |slots| ==> Load(plans, k) <= room[k]
    decreases |jobs|
  {
    hide PlanOk;
    if jobs != [] && |plans| == |jobs| {
      PlannedTail(jobs, slots, plans);
      if Planned(jobs, slots, plans) || Fits(jobs, slots, plans, room) {
        PlanSize(jobs[0], slots, plans[0]);
        var less := Minus(room, plans[0]);
        FitsIsSchedule(jobs[1..], slots, plans[1..], less);
        if Planned(jobs, slots, plans) {
          PlansSize(jobs, slots, plans);
          assert forall k :: 0 <= k < |slots| ==> Load(plans, k) == plans[0][k] + Load(plans[1..], k);
          assert forall k :: 0 <= k < |slots| ==> (Load(plans, k) <= room[k] <==> Load(plans[1..], k) <= less[k]);
        }
      }
    }
  }

  lemma PlanSize(job: Job, slots: seq<Slot>, p: Plan)
    ensures PlanOk(job, slots, p) ==> |p| == |slots|
  {
  }

  lemma PlansSize(jobs: seq<Job>, slots: seq<Slot>, plans: seq<Plan>)
    requires Planned(jobs, slots, plans)
    ensures forall p :: p in plans ==> |p| == |slots|
  {
  }

  // ---- No schedule beats the window condition -------------------------------------------------

  /** What is left in the window `from..to`. */
  function Part(s: seq<int>, from: nat, to: nat): int
    requires from <= to <= |s|
    decreases |s| - from
  {
    if from == to then 0 else s[from] + Part(s, from + 1, to)
  }

  lemma {:induction false} PartMinus(room: seq<int>, p: Plan, from: nat, to: nat)
    requires |p| == |room| && from <= to <= |room|
    ensures Part(room, from, to) == Part(Minus(room, p), from, to) + Part(p, from, to)
    decreases |room| - from
  {
    if from < to {
      PartMinus(room, p, from + 1, to);
    }
  }

  lemma {:induction false} PartNatural(s: seq<int>, from: nat, to: nat)
    requires from <= to <= |s| && forall k :: from <= k < to ==> s[k] >= 0
    ensures Part(s, from, to) >= 0
    decreases |s| - from
  {
    if from < to {
      PartNatural(s, from + 1, to);
    }
  }

  lemma {:induction false} SumFrom(p: Plan, from: nat, to: nat)
    requires from <= to <= |p| && forall k :: to <= k < |p| ==> p[k] == 0
    ensures Sum(p[from..]) == Part(p, from, to)
    decreases |p| - from
  {
    if from < |p| {
      assert p[from..][0] == p[from] && p[from..][1..] == p[from + 1..];
      SumFrom(p, from + 1, if from < to then to else from + 1);
    }
  }

  /** A plan with nothing outside the window has its whole sum inside. */
  lemma {:induction false} SumWithin(p: Plan, from: nat, to: nat, n: nat)
    requires n <= from <= to <= |p| && forall k :: 0 <= k < |p| && p[k] > 0 ==> from <= k < to
    ensures Sum(p[n..]) == Part(p, from, to)
    decreases |p| - n
  {
    if n == from {
      SumFrom(p, from, to);
    } else {
      assert p[n..][0] == p[n] && p[n..][1..] == p[n + 1..];
      SumWithin(p, from, to, n + 1);
    }
  }

  lemma {:induction false} DemandFits(jobs: seq<Job>, slots: seq<Slot>, plans: seq<Plan>, room: seq<int>,
                                      from: nat, to: nat)
    requires |room| == |slots| && from <= to <= |slots| && Fits(jobs, slots, plans, room)
    ensures Demand(jobs, slots, from, to) <= Part(room, from, to)
    decreases |jobs|
  {
    if jobs == [] {
      PartNatural(room, from, to);
    } else {
      var p := plans[0];
      DemandFits(jobs[1..], slots, plans[1..], Minus(room, p), from, to);
      PartMinus(room, p, from, to);
      PartNatural(p, from, to);
      if Within(slots, from, to, jobs[0]) {
        SumWithin(p, from, to, 0);
        assert p[0..] == p;
      }
    }
  }

  lemma {:induction false} CapacityIsPart(slots: seq<Slot>, from: nat, to: nat)
    requires from <= to <= |slots|
    ensures Capacity(slots, from, to) == Part(Rooms(slots), from, to)
    decreases |slots| - from
  {
    if from < to {
      CapacityIsPart(slots, from + 1, to);
    }
  }

  /** Whatever schedule serves every job, no window is overloaded: for all jobs and slots. */
  lemma SchedulableImpliesFeasible(jobs: seq<Job>, slots: seq<Slot>)
    requires Schedulable(jobs, slots)
    ensures Feasible(jobs, slots)
  {
    var plans :| IsSchedule(jobs, slots, plans);
    FitsIsSchedule(jobs, slots, plans, Rooms(slots));
    forall from, to | 0 <= from <= to <= |slots|
      ensures Demand(jobs, slots, from, to) <= Capacity(slots, from, to)
    {
      DemandFits(jobs, slots, plans, Rooms(slots), from, to);
      CapacityIsPart(slots, from, to);
    }
  }

  // ---- No job is counted twice ----------------------------------------------------------------

  lemma {:induction false} PushSize(q: seq<Entry>, e: Entry)
    ensures |Push(q, e)| == |q| + 1
  {
    if q != [] && !Before(e, q[0]) {
      PushSize(q[1..], e);
    }
  }

  lemma {:induction false} AdmitSize(s: Sim, slot: Slot)
    ensures var a := Admit(s, slot); a.count == s.count && |a.queue| + |a.waiting| == |s.queue| + |s.waiting|
    decreases |s.waiting|
  {
    if s.waiting != [] && s.waiting[0].arrival < slot.end {
      var e := Entry(s.waiting[0].deadline, s.waiting[0].burst);
      PushSize(s.queue, e);
      AdmitSize(Sim(s.waiting[1..], Push(s.queue, e), s.count), slot);
    }
  }

  lemma {:induction false} DropSize(q: seq<Entry>, slot: Slot)
    ensures |Drop(q, slot)| <= |q|
  {
    if q != [] {
      DropSize(q[1..], slot);
    }
  }

  lemma {:induction false} ServeSize(q: seq<Entry>, count: nat, time: int)
    ensures var (r, n) := Serve(q, count, time); n + |r| == count + |q|
    decreases |q|
  {
    if time > 0 && q != [] {
      if q[0].burst <= time {
        ServeSize(q[1..], count + 1, time - q[0].burst);
      } else {
        PushSize(q[1..], Entry(q[0].deadline, q[0].burst - time));
      }
    }
  }

  lemma {:induction false} SimulateSize(s: Sim, slots: seq<Slot>)
    ensures Simulate(s, slots).count <= s.count + |s.queue| + |s.waiting|
    decreases |slots|
  {
    if slots != [] {
      var a := Admit(s, slots[0]);
      AdmitSize(s, slots[0]);
      DropSize(a.queue, slots[0]);
      ServeSize(Drop(a.queue, slots[0]), a.count, slots[0].end - slots[0].start);
      SimulateSize(SlotStep(s, slots[0]), slots[1..]);
    }
  }

  /** For all jobs and slots, sorted or not. */
  lemma CountAtMost(jobs: seq<Job>, slots: seq<Slot>)
    ensures MatchCount(jobs, slots) <= |jobs|
  {
    SimulateSize(Sim(jobs, [], 0), slots);
  }

  // ---- What is counted is served --------------------------------------------------------------

  /** The entries of the queue as jobs that have arrived. */
  function JobsOf(q: seq<Entry>): (jobs: seq<Job>)
    ensures |jobs| == |q|
  {
    if q == [] then [] else [JobOf(q[0])] + JobsOf(q[1..])
  }

  function JobOf(e: Entry): Job
  {
    Job(e.deadline, e.burst, 0)
  }

  /** A plan for another job may serve this one. */
  predicate ServesToo(other: Job, job: Job, slots: seq<Slot>)
  {
    job.burst == other.burst && forall k :: 0 <= k < |slots| && Usable(slots[k], other) ==> Usable(slots[k], job)
  }

  lemma FitsCons(job: Job, jobs: seq<Job>, slots: seq<Slot>, p: Plan, plans: seq<Plan>, room: seq<int>)
    requires |room| == |slots| && PlanOk(job, slots, p) && Fits(jobs, slots, plans, Minus(room, p))
    ensures Fits([job] + jobs, slots, [p] + plans, room)
  {
    assert ([job] + jobs)[1..] == jobs && ([p] + plans)[1..] == plans;
  }

  lemma FitsHead(job: Job, jobs: seq<Job>, slots: seq<Slot>, plans: seq<Plan>, room: seq<int>)
    requires |room| == |slots| && Fits([job] + jobs, slots, plans, room)
    ensures |plans| == |jobs| + 1 && PlanOk(job, slots, plans[0]) && |plans[0]| == |slots|
    ensures Fits(jobs, slots, plans[1..], Minus(room, plans[0]))
  {
    assert ([job] + jobs)[1..] == jobs;
  }

  /**
   The order of jobs does not matter: the first two may change places, and another job may take the first one's
   plan.
  */
  lemma FitsSwap(a: Job, a': Job, b: Job, jobs: seq<Job>, slots: seq<Slot>, plans: seq<Plan>, room: seq<int>)
    returns (r: seq<Plan>, p: Plan)
    requires |room| == |slots| && Fits([a] + ([b] + jobs), slots, plans, room) && ServesToo(a, a', slots)
    ensures PlanOk(b, slots, p) && |p| == |slots|
    ensures Fits([a'] + jobs, slots, r, Minus(room, p))
  {
    FitsHead(a, [b] + jobs, slots, plans, room);
    var q := plans[0];
    FitsHead(b, jobs, slots, plans[1..], Minus(room, q));
    p := plans[1];
    assert plans[1..][1..] == plans[2..];
    assert Minus(Minus(room, q), p) == Minus(Minus(room, p), q);
    FitsCons(a', jobs, slots, q, plans[2..], Minus(room, p));
    r := [q] + plans[2..];
  }

  /** The first job may move behind `q`. */
  lemma {:induction false} MoveBehind(q: seq<Job>, first: Job, job: Job, rest: seq<Job>, slots: seq<Slot>,
                                      plans: seq<Plan>, room: seq<int>)
    returns (r: seq<Plan>)
    requires |room| == |slots| && Fits([first] + (q + rest), slots, plans, room) && ServesToo(first, job, slots)
    ensures Fits(q + ([job] + rest), slots, r, room)
    decreases |q|
  {
    if q == [] {
      assert q + rest == rest && q + ([job] + rest) == [job] + rest;
      FitsHead(first, rest, slots, plans, room);
      FitsCons(job, rest, slots, plans[0], plans[1..], room);
      r := [plans[0]] + plans[1..];
    } else {
      hide Fits, PlanOk, ServesToo;
      assert q + rest == [q[0]] + (q[1..] + rest);
      var r1, p := FitsSwap(first, first, q[0], q[1..] + rest, slots, plans, room) by { Reflexive(first, slots); }
      var r2 := MoveBehind(q[1..], first, job, rest, slots, r1, Minus(room, p));
      FitsCons(q[0], q[1..] + ([job] + rest), slots, p, r2, room);
      assert q + ([job] + rest) == [q[0]] + (q[1..] + ([job] + rest));
      r := [p] + r2;
    }
  }

  lemma Reflexive(job: Job, slots: seq<Slot>)
    ensures ServesToo(job, job, slots)
  {
  }

  /** An entry pushed anywhere into the queue may move to the front. */
  lemma {:induction false} MoveToFront(q: seq<Entry>, e: Entry, rest: seq<Job>, slots: seq<Slot>,
                                       plans: seq<Plan>, room: seq<int>)
    returns (r: seq<Plan>)
    requires |room| == |slots| && Fits(JobsOf(Push(q, e)) + rest, slots, plans, room)
    ensures Fits([JobOf(e)] + (JobsOf(q) + rest), slots, r, room)
    decreases |q|
  {
    hide Fits, PlanOk, ServesToo;
    if q == [] || Before(e, q[0]) {
      r := plans;
      assert ([e] + q)[1..] == q;
      assert JobsOf(Push(q, e)) + rest == [JobOf(e)] + (JobsOf(q) + rest);
    } else {
      var pushed := Push(q[1..], e);
      assert ([q[0]] + pushed)[1..] == pushed;
      assert JobsOf(Push(q, e)) + rest == [JobOf(q[0])] + (JobsOf(pushed) + rest);
      assert JobsOf(q) + rest == [JobOf(q[0])] + (JobsOf(q[1..]) + rest);
      hide Push, JobsOf;
      var tail := JobsOf(q[1..]) + rest;
      FitsHead(JobOf(q[0]), JobsOf(pushed) + rest, slots, plans, room);
      var r1 := MoveToFront(q[1..], e, rest, slots, plans[1..], Minus(room, plans[0]));
      FitsCons(JobOf(q[0]), [JobOf(e)] + tail, slots, plans[0], r1, room);
      Reflexive(JobOf(q[0]), slots);
      var r2, p := FitsSwap(JobOf(q[0]), JobOf(q[0]), JobOf(e), tail, slots, [plans[0]] + r1, room);
      FitsCons(JobOf(e), [JobOf(q[0])] + tail, slots, p, r2, room);
      r := [p] + r2;
    }
  }

  /** Undoing `Admit`: the jobs it moved into the queue go back among the waiting ones. */
  lemma {:induction false} AdmitBack(s: Sim, slots: seq<Slot>, plans: seq<Plan>, room: seq<int>) returns (r: seq<Plan>)
    requires slots != [] && Ordered(slots) && |room| == |slots|
    requires var a := Admit(s, slots[0]); Fits(JobsOf(a.queue) + a.waiting, slots, plans, room)
    ensures Fits(JobsOf(s.queue) + s.waiting, slots, r, room)
    decreases |s.waiting|
  {
    if s.waiting == [] || s.waiting[0].arrival >= slots[0].end {
      r := plans;
    } else {
      hide Fits;
      var job, rest := s.waiting[0], s.waiting[1..];
      var e := Entry(job.deadline, job.burst);
      var r1 := AdmitBack(Sim(rest, Push(s.queue, e), s.count), slots, plans, room);
      var r2 := MoveToFront(s.queue, e, rest, slots, r1, room);
      assert ServesToo(JobOf(e), job, slots);
      r := MoveBehind(JobsOf(s.queue), JobOf(e), job, rest, slots, r2, room);
      assert [job] + rest == s.waiting;
    }
  }

  lemma {:induction false} SumZeros(n: nat)
    ensures Sum(seq(n, _ => 0)) == 0
  {
    if n > 0 {
      SumZeros(n - 1);
      assert seq<nat>(n, _ => 0)[1..] == seq<nat>(n - 1, _ => 0);
    }
  }

  /** One more slot in front, of which the job gets `time`. */
  lemma PlanLonger(job: Job, slots: seq<Slot>, p: Plan, time: nat)
    requires slots != [] && time <= job.burst && PlanOk(job.(burst := job.burst - time), slots[1..], p)
    requires time > 0 ==> Usable(slots[0], job)
    ensures PlanOk(job, slots, [time] + p)
  {
    assert ([time] + p)[1..] == p;
    forall k | 0 <= k < |slots| && ([time] + p)[k] > 0
      ensures Usable(slots[k], job)
    {
      if k > 0 {
        assert p[k - 1] > 0 && slots[1..][k - 1] == slots[k];
        assert Usable(slots[k], job.(burst := job.burst - time));
      }
    }
  }

  /** The same schedule with one more slot in front that serves nobody. */
  lemma {:induction false} FitsLonger(jobs: seq<Job>, slots: seq<Slot>, plans: seq<Plan>, room: seq<int>)
      returns (r: seq<Plan>)
    requires slots != [] && |room| == |slots| && room[0] >= 0 && Fits(jobs, slots[1..], plans, room[1..])
    ensures Fits(jobs, slots, r, room)
    decreases |jobs|
  {
    if jobs == [] {
      r := [];
      assert forall k :: 1 <= k < |room| ==> room[k] == room[1..][k - 1];
    } else {
      var p := plans[0];
      PlanLonger(jobs[0], slots, p, 0);
      var less := Minus(room, [0] + p);
      assert less[1..] == Minus(room[1..], p);
      var r1 := FitsLonger(jobs[1..], slots, plans[1..], less);
      r := [[0] + p] + r1;
      assert r[1..] == r1;
    }
  }

  /** Undoing `Serve`: what the slot in front gave is added to the schedule of what was left. */
  lemma {:induction false} ServeBack(q: seq<Entry>, count: nat, time: nat, rest: seq<Job>, slots: seq<Slot>,
                                     plans: seq<Plan>, room: seq<int>)
    returns (r: seq<Plan>)
    requires slots != [] && |room| == |slots| && room[0] == time <= slots[0].end - slots[0].start
    requires forall i :: 0 <= i < |q| ==> q[i].burst > 0 && q[i].deadline > slots[0].start
    requires Fits(JobsOf(Serve(q, count, time).0) + rest, slots[1..], plans, room[1..])
    ensures Fits(JobsOf(q) + rest, slots, r, room)
    decreases |q|
  {
    hide Fits, PlanOk, Push;
    if time <= 0 || q == [] {
      r := FitsLonger(JobsOf(q) + rest, slots, plans, room);
    } else {
      var e, q1 := q[0], q[1..];
      assert JobsOf(q) + rest == [JobOf(e)] + (JobsOf(q1) + rest);
      hide JobsOf;
      var p, r1;
      if e.burst <= time {
        p := [e.burst] + seq<nat>(|slots| - 1, _ => 0);
        WholeBurst(JobOf(e), slots);
        assert Minus(room, p)[1..] == room[1..];
        r1 := ServeBack(q1, count + 1, time - e.burst, rest, slots, plans, Minus(room, p));
      } else {
        var left := Entry(e.deadline, e.burst - time);
        var r0 := MoveToFront(q1, left, rest, slots[1..], plans, room[1..]);
        FitsHead(JobOf(left), JobsOf(q1) + rest, slots[1..], r0, room[1..]);
        p := [time] + r0[0];
        PlanLonger(JobOf(e), slots, r0[0], time);
        assert Minus(room, p)[1..] == Minus(room[1..], r0[0]);
        r1 := FitsLonger(JobsOf(q1) + rest, slots, r0[1..], Minus(room, p));
      }
      FitsCons(JobOf(e), JobsOf(q1) + rest, slots, p, r1, room);
      r := [p] + r1;
    }
  }

  /** The slot in front serves the whole job. */
  lemma WholeBurst(job: Job, slots: seq<Slot>)
    requires slots != [] && Usable(slots[0], job)
    ensures PlanOk(job, slots, [job.burst] + seq<nat>(|slots| - 1, _ => 0))
  {
    SumZeros(|slots| - 1);
    PlanLonger(job, slots, seq<nat>(|slots| - 1, _ => 0), job.burst);
  }

  /** A queue from which the slot drops nothing is still good for the slot. */
  lemma NoneDropped(q: seq<Entry>, slot: Slot)
    requires GoodQueue(q) && Drop(q, slot) == q
    ensures forall i :: 0 <= i < |q| ==> q[i].burst > 0 && q[i].deadline > slot.start
  {
    if q != [] {
      DropSize(q[1..], slot);
    }
  }

  /** When a slot drops nothing it can still count everything; when it drops an entry it cannot. */
  lemma NothingToLose(s: Sim, slots: seq<Slot>)
    requires slots != [] && GoodQueue(s.queue) && PositiveBursts(s.waiting)
    requires Simulate(s, slots).count == s.count + |s.queue| + |s.waiting|
    ensures var a := Admit(s, slots[0]); var s1 := SlotStep(s, slots[0]);
      && GoodQueue(a.queue) && Drop(a.queue, slots[0]) == a.queue
      && PositiveBursts(a.waiting)
      && s1.count + |s1.queue| + |s1.waiting| == s.count + |s.queue| + |s.waiting|
  {
    var slot := slots[0];
    var a := Admit(s, slot);
    AdmitWork(s, slot, Forever);
    DropFacts(a.queue, slot);
    ServeSize(Drop(a.queue, slot), a.count, slot.end - slot.start);
    SimulateSize(SlotStep(s, slot), slots[1..]);
  }

  /** A run that counts everything has served everything: the schedule is read off the run, from the last slot back. */
  lemma {:induction false} RunIsSchedule(s: Sim, slots: seq<Slot>) returns (plans: seq<Plan>)
    requires Ordered(slots) && GoodQueue(s.queue) && PositiveBursts(s.waiting)
    requires Simulate(s, slots).count == s.count + |s.queue| + |s.waiting|
    ensures Fits(JobsOf(s.queue) + s.waiting, slots, plans, Rooms(slots))
    decreases |slots|
  {
    if slots == [] {
      plans := [];
    } else {
      hide Fits;
      NothingToLose(s, slots);
      var slot, a, s1 := slots[0], Admit(s, slots[0]), SlotStep(s, slots[0]);
      var time := slot.end - slot.start;
      ServeWork(a.queue, a.count, time, Forever);
      NoneDropped(a.queue, slot);
      assert Ordered(slots[1..]);
      assert Simulate(s1, slots[1..]).count == s1.count + |s1.queue| + |s1.waiting| by {
        if s1.queue == [] && s1.waiting == [] { NothingMore(s1, slots[1..]); }
      }
      var r := RunIsSchedule(s1, slots[1..]);
      assert Rooms(slots)[1..] == Rooms(slots[1..]);
      var r1 := ServeBack(a.queue, a.count, time, a.waiting, slots, r, Rooms(slots));
      plans := AdmitBack(s, slots, r1, Rooms(slots));
    }
  }

  lemma NothingMore(s: Sim, slots: seq<Slot>)
    requires s.queue == [] && s.waiting == []
    ensures Simulate(s, slots).count == s.count
  {
    if slots != [] {
      assert SlotStep(s, slots[0]) == s;
    }
  }

  /** What the look-ahead counts is served: counting every job yields a schedule for them. */
  lemma AllCountedImpliesSchedulable(jobs: seq<Job>, slots: seq<Slot>)
    requires Ordered(slots) && PositiveBursts(jobs) && MatchCount(jobs, slots) == |jobs|
    ensures Schedulable(jobs, slots)
  {
    var plans := RunIsSchedule(Sim(jobs, [], 0), slots);
    assert JobsOf([]) + jobs == jobs;
    FitsIsSchedule(jobs, slots, plans, Rooms(slots));
    assert IsSchedule(jobs, slots, plans);
  }

  /** Earliest-deadline-first is optimal: it counts every job if and only if some schedule serves every job. */
  lemma EdfOptimal(jobs: seq<Job>, slots: seq<Slot>)
    requires Setting(jobs, slots)
    ensures MatchCount(jobs, slots) == |jobs| <==> Schedulable(jobs, slots)
    ensures Feasible(jobs, slots) <==> Schedulable(jobs, slots)
  {
    if Schedulable(jobs, slots) {
      SchedulableImpliesFeasible(jobs, slots);
    }
    if Feasible(jobs, slots) {
      FeasibleImpliesAllCounted(jobs, slots);
    }
    if MatchCount(jobs, slots) == |jobs| {
      AllCountedImpliesSchedulable(jobs, slots);
    }
  }
}
