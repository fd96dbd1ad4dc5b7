/**
 The decider object: it records interactive arrivals and, at the end of a cycle, picks the schedule
 whose sporadic-server slots serve more of them.
*/
module Deciders {
  import opened EdfDecider
  import opened EdfSchedules
  import opened EdfAccounts

  // ---- Feasibility does not depend on the order of the jobs -----------------------------------

  function Without(jobs: seq<Job>, i: nat): seq<Job>
    requires i < |jobs|
  {
    jobs[..i] + jobs[i + 1..]
  }

  lemma {:induction false} DemandWithout(jobs: seq<Job>, slots: seq<Slot>, from: nat, to: nat, i: nat)
    requires i < |jobs|
    ensures Demand(jobs, slots, from, to) ==
            Demand(Without(jobs, i), slots, from, to) + (if Within(slots, from, to, jobs[i]) then jobs[i].burst else 0)
  {
    var rest := Without(jobs, i);
    if i == 0 {
      assert rest == jobs[1..];
    } else {
      DemandWithout(jobs[1..], slots, from, to, i - 1);
      assert rest[1..] == Without(jobs[1..], i - 1);
    }
  }

  lemma WithoutMultiset(a: seq<Job>, i: nat)
    requires i < |a|
    ensures multiset(Without(a, i)) == multiset(a) - multiset{a[i]} && |Without(a, i)| == |a| - 1
  {
    assert a == a[..i] + ([a[i]] + a[i + 1..]);
  }

  lemma {:induction false} DemandPermuted(a: seq<Job>, b: seq<Job>, slots: seq<Slot>, from: nat, to: nat)
    requires multiset(a) == multiset(b)
    ensures Demand(a, slots, from, to) == Demand(b, slots, from, to)
    decreases |a|
  {
    if a == [] {
      assert |multiset(b)| == 0;
    } else {
      hide Within, Demand, Without;
      assert a[0] in multiset(b);
      var i :| 0 <= i < |b| && b[i] == a[0];
      DemandWithout(a, slots, from, to, 0);
      DemandWithout(b, slots, from, to, i);
      WithoutMultiset(b, i);
      WithoutMultiset(a, 0);
      DemandPermuted(Without(a, 0), Without(b, i), slots, from, to);
    }
  }

  lemma FeasiblePermuted(a: seq<Job>, b: seq<Job>, slots: seq<Slot>)
    requires multiset(a) == multiset(b)
    ensures Feasible(a, slots) <==> Feasible(b, slots)
    ensures PositiveBursts(a) ==> PositiveBursts(b)
    ensures |a| == |b|
  {
    forall from, to | 0 <= from <= to <= |slots| ensures Demand(a, slots, from, to) == Demand(b, slots, from, to) {
      DemandPermuted(a, b, slots, from, to);
    }
    if PositiveBursts(a) {
      forall i | 0 <= i < |b| ensures b[i].burst > 0 {
        assert b[i] in multiset(a);
      }
    }
    assert |a| == |multiset(a)| && |b| == |multiset(b)|;
  }

  // ---- Sorting --------------------------------------------------------------------------------

  function InsertedAt(r: seq<Job>, i: nat, job: Job): (t: seq<Job>)
    requires i <= |r|
    ensures |t| == |r| + 1
    ensures forall p :: 0 <= p < |t| ==> t[p] == if p < i then r[p] else if p == i then job else r[p - 1]
  {
    r[..i] + [job] + r[i..]
  }

  lemma NoneInOrder()
    ensures ByArrival([])
  {
  }

  lemma InsertedMultiset(r: seq<Job>, i: nat, job: Job)
    requires i <= |r|
    ensures multiset(InsertedAt(r, i, job)) == multiset(r) + multiset{job}
  {
    assert r == r[..i] + r[i..];
  }

  lemma InsertedInOrder(r: seq<Job>, i: nat, job: Job)
    requires ByArrival(r) && i <= |r|
    requires i > 0 ==> r[i - 1].arrival <= job.arrival
    requires i < |r| ==> job.arrival <= r[i].arrival
    ensures ByArrival(InsertedAt(r, i, job))
  {
    var t := InsertedAt(r, i, job);
    hide InsertedAt;
    forall p, q | 0 <= p < q < |t| ensures t[p].arrival <= t[q].arrival {
      if p < i - 1 {
        assert r[p].arrival <= r[i - 1].arrival;
      }
      if i < q - 1 {
        assert r[i].arrival <= r[q - 1].arrival;
      }
    }
  }

  /** `std::sort` by arrival: callers may rely on the order and the contents only. */
  method SortByArrival(jobs: seq<Job>) returns (r: seq<Job>)
    ensures ByArrival(r) && multiset(r) == multiset(jobs)
  {
    hide ByArrival, InsertedAt;
    r := [];
    NoneInOrder();
    for n := 0 to |jobs|
      invariant ByArrival(r) && multiset(r) == multiset(jobs[..n])
    {
      var i := |r|;
      while i > 0 && r[i - 1].arrival > jobs[n].arrival
        invariant 0 <= i <= |r|
        invariant i < |r| ==> r[i].arrival > jobs[n].arrival
      {
        i := i - 1;
      }
      assert jobs[..n + 1] == jobs[..n] + [jobs[n]];
      InsertedInOrder(r, i, jobs[n]);
      InsertedMultiset(r, i, jobs[n]);
      r := InsertedAt(r, i, jobs[n]);
    }
    assert jobs[..|jobs|] == jobs;
  }

  // ---- The object -----------------------------------------------------------------------------

  class Decider {
    var normalSSSlot: seq<Slot>
    var greedySSSlot: seq<Slot>
    var interactiveTaskRecord: seq<Job>

    constructor ()
      ensures normalSSSlot == [] && greedySSSlot == [] && interactiveTaskRecord == []
    {
      normalSSSlot, greedySSSlot, interactiveTaskRecord := [], [], [];
    }

    /** `CalculateMatchCount` */
    method CalculateMatchCount(schedule: seq<Slot>) returns (mCount: nat)
      ensures mCount == MatchCount(interactiveTaskRecord, schedule)
      ensures Setting(interactiveTaskRecord, schedule) ==>
                (mCount == |interactiveTaskRecord| <==> Feasible(interactiveTaskRecord, schedule))
      ensures Setting(interactiveTaskRecord, schedule) ==>
                (mCount == |interactiveTaskRecord| <==> Schedulable(interactiveTaskRecord, schedule))
      // and in any case every job that is not counted was overdue at the start of a slot or is left over
      ensures var jobs, last := interactiveTaskRecord, StateAt(interactiveTaskRecord, schedule, |schedule|);
        mCount == |jobs| - Missed(jobs, schedule, |schedule|) - |last.queue| - |last.waiting|
    {
      mCount := 0;
      var tRecord := interactiveTaskRecord;
      var edfPQueue: seq<Entry> := [];
      var k := 0;
      while k < |schedule|
        invariant 0 <= k <= |schedule|
        invariant Simulate(Sim(tRecord, edfPQueue, mCount), schedule[k..]) ==
            Simulate(Sim(interactiveTaskRecord, [], 0), schedule)
      {
        assert schedule[k..][0] == schedule[k] && schedule[k..][1..] == schedule[k + 1..];
        tRecord, edfPQueue, mCount := ServeSlot(tRecord, edfPQueue, mCount, schedule[k]);
        if edfPQueue == [] && tRecord == [] {
          break;
        }
        k := k + 1;
      }
      EveryJobAccounted(interactiveTaskRecord, schedule);
      if Setting(interactiveTaskRecord, schedule) {
        EdfOptimal(interactiveTaskRecord, schedule);
      }
    }

    /** One turn of the loop over the slots. */
    method ServeSlot(tRecord0: seq<Job>, queue0: seq<Entry>, count0: nat, slot: Slot)
      returns (tRecord: seq<Job>, edfPQueue: seq<Entry>, mCount: nat)
      ensures Sim(tRecord, edfPQueue, mCount) == SlotStep(Sim(tRecord0, queue0, count0), slot)
    {
      tRecord, edfPQueue, mCount := tRecord0, queue0, count0;
      while tRecord != []
        invariant Admit(Sim(tRecord, edfPQueue, mCount), slot) == Admit(Sim(tRecord0, queue0, count0), slot)
        decreases |tRecord|
      {
        if tRecord[0].arrival >= slot.end {
          break;
        } else {
          edfPQueue := Push(edfPQueue, Entry(tRecord[0].deadline, tRecord[0].burst));
          tRecord := tRecord[1..];
        }
      }
      ghost var a := Sim(tRecord, edfPQueue, mCount);
      while edfPQueue != []
        invariant Drop(edfPQueue, slot) == Drop(a.queue, slot)
        decreases |edfPQueue|
      {
        if edfPQueue[0].deadline <= slot.start {
          edfPQueue := edfPQueue[1..];
        } else {
          break;
        }
      }
      ghost var q := edfPQueue;
      var tSlot: int := slot.end - slot.start;
      while tSlot > 0 && edfPQueue != []
        invariant Serve(edfPQueue, mCount, tSlot) == Serve(q, a.count, slot.end - slot.start)
        decreases if tSlot > 0 then |edfPQueue| + 1 else 0
      {
        if edfPQueue[0].burst <= tSlot {
          tSlot := tSlot - edfPQueue[0].burst;
          edfPQueue := edfPQueue[1..];
          mCount := mCount + 1;
        } else {
          var tRef := edfPQueue[0];
          tRef := tRef.(burst := tRef.burst - tSlot);
          PushSize(edfPQueue[1..], tRef);
          edfPQueue := edfPQueue[1..];
          tSlot := 0;
          edfPQueue := Push(edfPQueue, tRef);
        }
      }
    }

    /**
     `DecideNextScheduleToRun`; true is the normal schedule. `coin` is the random choice made when nothing arrived.
     The sort is any permutation in order of arrival.
    */
    method DecideNextScheduleToRun(coin: bool) returns (normal: bool)
      modifies this`interactiveTaskRecord
      ensures interactiveTaskRecord == []
      ensures old(interactiveTaskRecord) == [] ==> normal == coin
      ensures old(interactiveTaskRecord) != [] ==>
                exists jobs :: multiset(jobs) == multiset(old(interactiveTaskRecord)) && ByArrival(jobs)
                  && normal == (MatchCount(jobs, greedySSSlot) <= MatchCount(jobs, normalSSSlot))
      // a schedule that serves every job is taken whenever one of the two does
      ensures var jobs := old(interactiveTaskRecord);
        jobs != [] && PositiveBursts(jobs) && Ordered(normalSSSlot) && Ordered(greedySSSlot) ==>
          && (Feasible(jobs, normalSSSlot) ==> normal)
          && (!Feasible(jobs, normalSSSlot) && Feasible(jobs, greedySSSlot) ==> !normal)
    {
      if interactiveTaskRecord == [] {
        return coin;
      }
      ghost var before := interactiveTaskRecord;
      var jobs := SortByArrival(interactiveTaskRecord);
      interactiveTaskRecord := jobs;
      FeasiblePermuted(before, jobs, normalSSSlot);
      FeasiblePermuted(before, jobs, greedySSSlot);
      var successCountNormal := CalculateMatchCount(normalSSSlot);
      var successCountGreedy := CalculateMatchCount(greedySSSlot);
      CountAtMost(jobs, normalSSSlot);
      CountAtMost(jobs, greedySSSlot);
      interactiveTaskRecord := [];
      normal := successCountGreedy <= successCountNormal;
    }
  }
}
