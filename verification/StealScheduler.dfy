/**
 The worker of the work-stealing pool and the tasks it queues, updated in place, one call at a time. `WorkStealing`
 is a separate model of the same routines, on values, for the interleaving of many workers; the two share
 `StealQueue`, which says what a steal takes, and are otherwise not tied to each other by a proof.
*/
module StealSchedulers {
  import opened Common
  import opened StealQueue

  datatype Status = Ready | Pending | Finished | Running

  class Task {
    var status: Status
    var isStealable: bool
    var scheduler: StealScheduler
    /** True for a task with its own stack, false for one that runs on the worker's shared stack. */
    const standAlone: bool

    constructor (scheduler: StealScheduler, standAlone: bool)
      ensures status == Ready && isStealable && this.scheduler == scheduler && this.standAlone == standAlone
    {
      status, isStealable := Ready, true;
      this.scheduler := scheduler;
      this.standAlone := standAlone;
    }

    /** `CanSteal` */
    predicate CanSteal()
    {
      standAlone
    }

    /** `Steal`: move to another worker, if allowed. */
    method Steal(to: StealScheduler) returns (moved: bool)
      modifies this`scheduler
      ensures moved == isStealable
      ensures scheduler == if moved then to else old(scheduler)
    {
      if isStealable {
        scheduler := to;
        return true;
      }
      return false;
    }
  }

  ghost function StealableIn(q: seq<Task>): set<Task>
    reads q
  {
    set t | t in q && t.isStealable
  }

  class StealScheduler {
    var isReady: seq<Task>
    var sizeOfQueue: int

    constructor ()
      ensures isReady == [] && sizeOfQueue == 0
    {
      isReady, sizeOfQueue := [], 0;
    }

    /** `Enable`: to the back. The source asserts that the task is not linked. */
    method Enable(t: Task)
      requires t !in isReady
      modifies this, t`status
      ensures isReady == old(isReady) + [t] && sizeOfQueue == old(sizeOfQueue) + 1 && t.status == Ready
    {
      sizeOfQueue := sizeOfQueue + 1;
      isReady := isReady + [t];
      t.status := Ready;
    }

    /** `EnableImmediately`: to the front. */
    method EnableImmediately(t: Task)
      requires t !in isReady
      modifies this, t`status
      ensures isReady == [t] + old(isReady) && sizeOfQueue == old(sizeOfQueue) + 1 && t.status == Ready
    {
      sizeOfQueue := sizeOfQueue + 1;
      isReady := [t] + isReady;
      t.status := Ready;
    }

    /** The end of `GetNextTask`: the task at the front starts, and stops being stealable. */
    method PopNext() returns (t: Task)
      requires isReady != []
      modifies this, {isReady[0]}
      ensures t == old(isReady)[0] && isReady == old(isReady)[1..] && sizeOfQueue == old(sizeOfQueue) - 1
      ensures !t.isStealable && t.status == Running && t.scheduler == old(isReady[0].scheduler)
    {
      t := isReady[0];
      isReady := isReady[1..];
      sizeOfQueue := sizeOfQueue - 1;
      t.isStealable := false;
      t.status := Running;
    }

    /** `EndTask`: a task that can move may be stolen again; `deleted` tells that a finished one is freed. */
    method EndTask(t: Task) returns (deleted: bool)
      modifies t`isStealable
      ensures t.isStealable == (old(t.isStealable) || t.standAlone)
      ensures deleted <==> t.status == Finished
    {
      if t.CanSteal() {
        t.isStealable := true;
      }
      deleted := t.status == Finished;
    }

    /** The counting loop of `StealFrom`. */
    method CountStealable() returns (count: nat)
      ensures count == |Filter(isReady, StealableIn(isReady))|
    {
      ghost var s := StealableIn(isReady);
      count := 0;
      for k := 0 to |isReady|
        invariant count == |Filter(isReady[..k], s)|
      {
        assert isReady[..k + 1] == isReady[..k] + [isReady[k]];
        FilterSnoc(isReady[..k], isReady[k], s);
        if isReady[k].isStealable {
          count := count + 1;
        }
      }
      assert isReady[..|isReady|] == isReady;
    }

    /** The stealing loop: walk the victim's queue from the back and take up to `want` stealable tasks. */
    method TakeLoop(toSteal: StealScheduler, want: nat) returns (tasksToSteal: seq<Task>)
      requires toSteal != this
      modifies this`sizeOfQueue, toSteal
      ensures (toSteal.isReady, tasksToSteal) == TakeLast(old(toSteal.isReady), old(StealableIn(toSteal.isReady)), want)
      ensures toSteal.sizeOfQueue == old(toSteal.sizeOfQueue) - |tasksToSteal|
      ensures sizeOfQueue == old(sizeOfQueue) + |tasksToSteal|
    {
      ghost var q, s := toSteal.isReady, StealableIn(toSteal.isReady);
      tasksToSteal := [];
      var toStealCount := want;
      var i := |toSteal.isReady|;
      assert q[..i] == q && toSteal.isReady[i..] == [];
      while i > 0 && toStealCount > 0
        invariant 0 <= i <= |toSteal.isReady| && i <= |q|
        invariant toSteal.isReady[..i] == q[..i]
        invariant TakeLast(q[..i], s, toStealCount).0 + toSteal.isReady[i..] == TakeLast(q, s, want).0
        invariant tasksToSteal + TakeLast(q[..i], s, toStealCount).1 == TakeLast(q, s, want).1
        invariant toSteal.sizeOfQueue == old(toSteal.sizeOfQueue) - |tasksToSteal|
        invariant sizeOfQueue == old(sizeOfQueue) + |tasksToSteal|
        decreases i
      {
        assert q[..i][..i - 1] == q[..i - 1];
        var t := toSteal.isReady[i - 1];
        assert t == q[..i][i - 1];
        ghost var before := toSteal.isReady;
        if t.isStealable {
          toSteal.isReady := toSteal.isReady[..i - 1] + toSteal.isReady[i..];
          toSteal.sizeOfQueue := toSteal.sizeOfQueue - 1;
          sizeOfQueue := sizeOfQueue + 1;
          tasksToSteal := tasksToSteal + [t];
          toStealCount := toStealCount - 1;
          assert toSteal.isReady[i - 1..] == before[i..];
        } else {
          assert before[i - 1..] == [t] + before[i..];
        }
        i := i - 1;
      }
      assert TakeLast(q[..i], s, toStealCount) == (q[..i], []);
      assert toSteal.isReady[..i] + toSteal.isReady[i..] == toSteal.isReady;
      assert tasksToSteal + [] == tasksToSteal;
    }

    /** The first half of `StealFrom`, under the victim's lock. */
    method TakeFrom(toSteal: StealScheduler) returns (tasksToSteal: seq<Task>)
      requires toSteal != this
      modifies this`sizeOfQueue, toSteal
      ensures var q, s := old(toSteal.isReady), old(StealableIn(toSteal.isReady));
        (toSteal.isReady, tasksToSteal) == TakeLast(q, s, StealCount(q, s))
      ensures toSteal.sizeOfQueue == old(toSteal.sizeOfQueue) - |tasksToSteal|
      ensures sizeOfQueue == old(sizeOfQueue) + |tasksToSteal|
    {
      tasksToSteal := [];
      var stealableCount := toSteal.CountStealable();
      if stealableCount > 1 {
        var toStealCount := if stealableCount < |toSteal.isReady| / 2 then stealableCount else |toSteal.isReady| / 2;
        tasksToSteal := TakeLoop(toSteal, toStealCount);
      }
    }

    /** The second half: re-home the tasks and put them in front of this worker's queue. */
    method PutInFront(tasksToSteal: seq<Task>)
      requires forall t :: t in tasksToSteal ==> t.isStealable
      modifies this, (set t | t in tasksToSteal)`scheduler
      ensures isReady == Reverse(tasksToSteal) + old(isReady)
      ensures sizeOfQueue == old(sizeOfQueue) + |tasksToSteal|
      ensures forall t :: t in tasksToSteal ==> t.scheduler == this
    {
      assert Reverse<Task>(tasksToSteal[..0]) == [];
      assert [] + isReady == isReady;
      for k := 0 to |tasksToSteal|
        invariant isReady == Reverse(tasksToSteal[..k]) + old(isReady)
        invariant sizeOfQueue == old(sizeOfQueue) + k
        invariant forall j :: 0 <= j < k ==> tasksToSteal[j].scheduler == this
      {
        var moved := tasksToSteal[k].Steal(this);
        sizeOfQueue := sizeOfQueue + 1;
        isReady := [tasksToSteal[k]] + isReady;
        assert tasksToSteal[..k + 1] == tasksToSteal[..k] + [tasksToSteal[k]];
        ReverseSnoc(tasksToSteal[..k], tasksToSteal[k]);
      }
      assert tasksToSteal[..|tasksToSteal|] == tasksToSteal;
    }

    /**
     `StealFrom`. The thief counts every stolen task twice: afterwards `sizeOfQueue` has drifted from the
     length of its queue by the number of tasks taken.
    */
    method StealFrom(toSteal: StealScheduler) returns (n: nat)
      requires toSteal != this
      modifies this, toSteal, (set t | t in toSteal.isReady)`scheduler
      ensures var q, s := old(toSteal.isReady), old(StealableIn(toSteal.isReady));
        && n == StealCount(q, s)
        && (var c := |set i | 0 <= i < |q| && q[i] in s|;
            n == if c <= 1 then 0 else if c < |q| / 2 then c else |q| / 2)
        && 2 * |toSteal.isReady| >= |q|
        && toSteal.isReady == TakeLast(q, s, n).0
        && isReady == Reverse(TakeLast(q, s, n).1) + old(isReady)
        && (forall t :: t in TakeLast(q, s, n).1 ==> t.scheduler == this)
      ensures toSteal.sizeOfQueue - |toSteal.isReady| == old(toSteal.sizeOfQueue - |toSteal.isReady|)
      ensures sizeOfQueue - |isReady| == old(sizeOfQueue - |isReady|) + n
    {
      ghost var q, s := toSteal.isReady, StealableIn(toSteal.isReady);
      TakeLastConserves(q, s, StealCount(q, s));
      StealTakesExactly(q, s);
      var tasksToSteal := TakeFrom(toSteal);
      forall t | t in tasksToSteal ensures t in q && t.isStealable {
        assert t in multiset(tasksToSteal);
        assert t in multiset(q);
      }
      TakeLastSizes(q, s, StealCount(q, s));
      PutInFront(tasksToSteal);
      n := |tasksToSteal|;
    }
  }
}
