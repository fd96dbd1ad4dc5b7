/**
 What becomes of every job, under overload too, for all jobs and slots: what a slot admits, drops and serves, stated
 by deadlines and bursts alone, and the account of a whole run.
*/
module EdfAccounts {
  import opened EdfDecider
  import opened EdfSchedules

  /** Pushing adds the entry and nothing else. */
  lemma {:induction false} PushAdds(q: seq<Entry>, e: Entry)
    ensures multiset(Push(q, e)) == multiset(q) + multiset{e}
    ensures forall x :: x in Push(q, e) <==> x == e || x in q
  {
    if q != [] {
      assert q == [q[0]] + q[1..];
      if !Before(e, q[0]) {
        PushAdds(q[1..], e);
      }
    }
  }

  lemma SortedTail(q: seq<Entry>)
    requires Sorted(q) && q != []
    ensures Sorted(q[1..]) && forall x :: x in q[1..] ==> Before(q[0], x)
  {
  }

  lemma SortedCons(e: Entry, q: seq<Entry>)
    requires Sorted(q) && forall x :: x in q ==> Before(e, x)
    ensures Sorted([e] + q)
  {
    var r := [e] + q;
    forall i, j | 0 <= i < j < |r| ensures Before(r[i], r[j]) {
      assert r[j] == q[j - 1] && q[j - 1] in q;
    }
  }

  /** Pushing keeps the order. */
  lemma {:induction false} PushSorted(q: seq<Entry>, e: Entry)
    requires Sorted(q)
    ensures Sorted(Push(q, e))
  {
    hide Sorted;
    if q != [] {
      SortedTail(q);
      assert q == [q[0]] + q[1..];
      if Before(e, q[0]) {
        SortedCons(e, q);
      } else {
        PushSorted(q[1..], e);
        PushAdds(q[1..], e);
        SortedCons(q[0], Push(q[1..], e));
      }
    } else {
      SortedCons(e, q);
      assert [e] + q == [e];
    }
  }

  function EntriesOf(jobs: seq<Job>): seq<Entry>
  {
    seq(|jobs|, i requires 0 <= i < |jobs| => Entry(jobs[i].deadline, jobs[i].burst))
  }

  /** A slot admits the waiting jobs up to the first that arrives at or after its end, and nothing else. */
  lemma {:induction false} AdmitExactly(s: Sim, slot: Slot) returns (n: nat)
    requires Sorted(s.queue)
    ensures n <= |s.waiting|
    ensures (forall i :: 0 <= i < n ==> s.waiting[i].arrival < slot.end)
    ensures n < |s.waiting| ==> s.waiting[n].arrival >= slot.end
    ensures var a := Admit(s, slot);
      && a.waiting == s.waiting[n..] && a.count == s.count && Sorted(a.queue)
      && multiset(a.queue) == multiset(s.queue) + multiset(EntriesOf(s.waiting[..n]))
    decreases |s.waiting|
  {
    hide Sorted, Push;
    if s.waiting == [] || s.waiting[0].arrival >= slot.end {
      n := 0;
      assert EntriesOf(s.waiting[..0]) == [];
    } else {
      var job, rest := s.waiting[0], s.waiting[1..];
      var e := Entry(job.deadline, job.burst);
      var pushed := Push(s.queue, e);
      PushSorted(s.queue, e);
      PushAdds(s.queue, e);
      var m := AdmitExactly(Sim(rest, pushed, s.count), slot);
      n := m + 1;
      hide Admit;
      EntriesCons(s.waiting, n);
      hide EntriesOf;
      assert rest[m..] == s.waiting[n..];
      AddAssociates(multiset(s.queue), multiset{e}, multiset(EntriesOf(rest[..m])));
    }
  }

  lemma AddAssociates(a: multiset<Entry>, b: multiset<Entry>, c: multiset<Entry>)
    ensures a + b + c == a + (b + c)
  {
  }

  lemma EntriesCons(jobs: seq<Job>, n: nat)
    requires 1 <= n <= |jobs|
    ensures multiset(EntriesOf(jobs[..n])) ==
            multiset{Entry(jobs[0].deadline, jobs[0].burst)} + multiset(EntriesOf(jobs[1..][..n - 1]))
  {
    assert EntriesOf(jobs[..n]) == [Entry(jobs[0].deadline, jobs[0].burst)] + EntriesOf(jobs[1..][..n - 1]);
  }

  /** How many entries of the queue are due at or before `time`. */
  function Overdue(q: seq<Entry>, time: int): nat
  {
    if q == [] then 0 else (if q[0].deadline <= time then 1 else 0) + Overdue(q[1..], time)
  }

  lemma {:induction false} OverdueNone(q: seq<Entry>, time: int)
    requires forall i :: 0 <= i < |q| ==> q[i].deadline > time
    ensures Overdue(q, time) == 0
  {
    if q != [] {
      OverdueNone(q[1..], time);
    }
  }

  /** A slot drops exactly the entries due at or before its start, with multiplicity, and keeps every other. */
  lemma {:induction false} DropExactly(q: seq<Entry>, slot: Slot)
    requires Sorted(q)
    ensures Sorted(Drop(q, slot))
    ensures forall e :: multiset(Drop(q, slot))[e] == if e.deadline > slot.start then multiset(q)[e] else 0
    ensures |Drop(q, slot)| + Overdue(q, slot.start) == |q|
  {
    if q != [] && q[0].deadline <= slot.start {
      assert q == [q[0]] + q[1..];
      DropExactly(q[1..], slot);
    } else {
      assert forall i :: 0 <= i < |q| ==> q[i].deadline > slot.start;
      OverdueNone(q, slot.start);
      forall e: Entry ensures e.deadline <= slot.start ==> multiset(q)[e] == 0 {
        assert e in multiset(q) <==> e in q;
      }
    }
  }

  function Bursts(q: seq<Entry>): nat
  {
    if q == [] then 0 else q[0].burst + Bursts(q[1..])
  }

  /**
   In `time` the first `k` entries are served whole, as many as fit; the next one gets what time is left, and the
   others stay as they are.
  */
  predicate Served(q: seq<Entry>, time: nat, k: nat, r: seq<Entry>)
  {
    && k <= |q| && Bursts(q[..k]) <= time
    && (k == |q| ==> r == [])
    && (k < |q| ==>
          var left := time - Bursts(q[..k]);
          && (left == 0 || left < q[k].burst)
          && multiset(r) == multiset(q[k + 1..]) + multiset{Entry(q[k].deadline, q[k].burst - left)})
  }

  lemma ServedNothing(q: seq<Entry>)
    ensures Served(q, 0, 0, q)
  {
    if q != [] {
      assert q == [q[0]] + q[1..];
    }
  }

  lemma ServedOne(q: seq<Entry>, time: nat, k: nat, r: seq<Entry>)
    requires q != [] && q[0].burst <= time && Served(q[1..], time - q[0].burst, k, r)
    ensures Served(q, time, k + 1, r)
  {
    assert q[..k + 1][0] == q[0] && q[..k + 1][1..] == q[1..][..k];
    assert Bursts(q[..k + 1]) == q[0].burst + Bursts(q[1..][..k]);
    if k + 1 < |q| {
      assert q[1..][k] == q[k + 1] && q[1..][k + 1..] == q[k + 2..];
    }
  }

  lemma ServedPart(q: seq<Entry>, time: nat, r: seq<Entry>)
    requires q != [] && time < q[0].burst
    requires multiset(r) == multiset(q[1..]) + multiset{Entry(q[0].deadline, q[0].burst - time)}
    ensures Served(q, time, 0, r)
  {
  }

  /** The service loop does just that, in order of deadline; a slot of no length serves nobody. */
  lemma {:induction false} ServeExactly(q: seq<Entry>, count: nat, time: int) returns (k: nat)
    requires Sorted(q)
    ensures Serve(q, count, time).1 == count + k && Sorted(Serve(q, count, time).0)
    ensures time <= 0 ==> k == 0 && Serve(q, count, time).0 == q
    ensures time >= 0 ==> Served(q, time, k, Serve(q, count, time).0)
    decreases |q|
  {
    hide Sorted, Push, Served;
    if time <= 0 {
      k := 0;
      ServedNothing(q);
    } else if q == [] {
      k := 0;
      assert Served(q, time, 0, q) by { NothingToServe(time); }
    } else {
      SortedTail(q);
      if q[0].burst <= time {
        var m := ServeExactly(q[1..], count + 1, time - q[0].burst);
        ServedOne(q, time, m, Serve(q, count, time).0);
        k := m + 1;
      } else {
        k := 0;
        var e := Entry(q[0].deadline, q[0].burst - time);
        PushSorted(q[1..], e);
        PushAdds(q[1..], e);
        ServedPart(q, time, Push(q[1..], e));
      }
    }
  }

  lemma NothingToServe(time: nat)
    ensures Served([], time, 0, [])
  {
  }

  // ---- Whole runs -----------------------------------------------------------------------------

  /** One slot: it neither loses nor invents a job, and what it gives up was overdue. */
  lemma SlotAccount(s: Sim, slot: Slot)
    requires Sorted(s.queue)
    ensures var r := SlotStep(s, slot);
      && Sorted(r.queue)
      && r.count + Overdue(Admit(s, slot).queue, slot.start) + |r.queue| + |r.waiting|
         == s.count + |s.queue| + |s.waiting|
  {
    hide Sorted, Admit, Drop, Serve, Overdue, Served;
    AdmitSize(s, slot);
    var n := AdmitExactly(s, slot);
    var a := Admit(s, slot);
    DropExactly(a.queue, slot);
    ServeSize(Drop(a.queue, slot), a.count, slot.end - slot.start);
    var k := ServeExactly(Drop(a.queue, slot), a.count, slot.end - slot.start);
  }

  lemma {:induction false} RunSorted(jobs: seq<Job>, slots: seq<Slot>, k: nat)
    requires k <= |slots|
    ensures Sorted(StateAt(jobs, slots, k).queue)
  {
    if k > 0 {
      hide Sorted, SlotStep;
      RunSorted(jobs, slots, k - 1);
      SlotAccount(StateAt(jobs, slots, k - 1), slots[k - 1]);
    }
  }

  /** The jobs that were admitted, had burst left and were overdue when slot `k` started. */
  function MissedAt(jobs: seq<Job>, slots: seq<Slot>, k: nat): nat
    requires k < |slots|
  {
    Overdue(Admit(StateAt(jobs, slots, k), slots[k]).queue, slots[k].start)
  }

  function Missed(jobs: seq<Job>, slots: seq<Slot>, k: nat): nat
    requires k <= |slots|
  {
    if k == 0 then 0 else Missed(jobs, slots, k - 1) + MissedAt(jobs, slots, k - 1)
  }

  lemma {:induction false} RunAccount(jobs: seq<Job>, slots: seq<Slot>, k: nat)
    requires k <= |slots|
    ensures var s := StateAt(jobs, slots, k);
      s.count + Missed(jobs, slots, k) + |s.queue| + |s.waiting| == |jobs|
  {
    if k > 0 {
      hide Sorted, SlotStep, Overdue, Admit;
      RunAccount(jobs, slots, k - 1);
      RunSorted(jobs, slots, k - 1);
      SlotAccount(StateAt(jobs, slots, k - 1), slots[k - 1]);
    }
  }

  /**
   The account of a run, for all jobs and slots: every job is counted, or was overdue with burst left when some slot
   started, or is unfinished or not yet arrived after the last slot; each in exactly one of these ways.
  */
  lemma EveryJobAccounted(jobs: seq<Job>, slots: seq<Slot>)
    ensures var s := StateAt(jobs, slots, |slots|);
      MatchCount(jobs, slots) + Missed(jobs, slots, |slots|) + |s.queue| + |s.waiting| == |jobs|
  {
    CountIsRun(jobs, slots);
    RunAccount(jobs, slots, |slots|);
  }

  /** In a run each slot serves, in order of deadline, exactly from the entries that are not overdue when it starts. */
  lemma SlotServesTimely(jobs: seq<Job>, slots: seq<Slot>, k: nat) returns (pool: seq<Entry>, m: nat)
    requires k < |slots|
    ensures var s, slot, r := StateAt(jobs, slots, k), slots[k], StateAt(jobs, slots, k + 1);
      && (forall i, j :: 0 <= i < j < |pool| ==>
            pool[i].deadline < pool[j].deadline
            || (pool[i].deadline == pool[j].deadline && pool[i].burst <= pool[j].burst))
      && (forall e :: multiset(pool)[e] == if e.deadline > slot.start then multiset(Admit(s, slot).queue)[e] else 0)
      && r.count == s.count + m
      && (if slot.end > slot.start then Served(pool, slot.end - slot.start, m, r.queue) else m == 0 && r.queue == pool)
  {
    hide Sorted, Admit, Drop, Serve, Served;
    RunSorted(jobs, slots, k);
    var s, slot := StateAt(jobs, slots, k), slots[k];
    var n := AdmitExactly(s, slot);
    var a := Admit(s, slot);
    DropExactly(a.queue, slot);
    pool := Drop(a.queue, slot);
    m := ServeExactly(pool, a.count, slot.end - slot.start);
    InOrder(pool);
  }

  lemma InOrder(q: seq<Entry>)
    requires Sorted(q)
    ensures forall i, j :: 0 <= i < j < |q| ==>
              q[i].deadline < q[j].deadline || (q[i].deadline == q[j].deadline && q[i].burst <= q[j].burst)
  {
  }
}
