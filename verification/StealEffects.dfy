/**
 What every step of the work-stealing machine does, in every run: which task goes where, and that nothing else moves.
 A routine that works on the home of a task works, by the invariant, on the worker that runs it.
*/
module StealEffects {
  import opened Common
  import opened StealQueue
  import opened WorkStealing

  /** Queues, stacks and hands of all other workers, all other tasks and all other waiters are as they were. */
  ghost predicate OnlyThere(s: State, r: State, w: Worker, t: Id)
  {
    && r.queues.Keys == s.queues.Keys && r.phase.Keys == s.phase.Keys && r.hand == s.hand
    && (forall x :: x in s.queues && x != w ==> r.queues[x] == s.queues[x])
    && (forall x :: x in s.phase && x != w ==> r.phase[x] == s.phase[x])
    && (forall u :: u != t ==> (u in r.tasks <==> u in s.tasks) && (u in r.waiting <==> u in s.waiting))
    && (forall u :: u != t && u in s.tasks && u in r.tasks ==> r.tasks[u] == s.tasks[u])
  }

  /** A new task is ready, may be stolen, and stands behind all others of the worker it was created for. */
  ghost predicate Creates(s: State, r: State, t: Id, kind: Kind, w: Worker)
  {
    && OnlyThere(s, r, w, t) && r.phase == s.phase && w in s.queues && t in r.tasks
    && r.tasks[t] == Task(kind, Ready, true, w, None) && r.queues[w] == s.queues[w] + [t]
  }

  /** The worker's task is ready again, not stealable, and stands behind all others in the worker's own queue. */
  ghost predicate Yields(s: State, r: State, w: Worker)
  {
    && w in s.phase && w in s.queues && s.phase[w].Executing?
    && var t := s.phase[w].task;
    && OnlyThere(s, r, w, t) && t in s.tasks && t in r.tasks
    && r.tasks[t] == s.tasks[t].(status := Ready) && !r.tasks[t].stealable
    && r.queues[w] == s.queues[w] + [t] && r.phase[w] == Leaving(t) && t !in r.waiting
  }

  /** The worker's task waits and is on no queue. */
  ghost predicate Waits(s: State, r: State, w: Worker)
  {
    && w in s.phase && s.phase[w].Executing?
    && var t := s.phase[w].task;
    && OnlyThere(s, r, w, t) && t in r.waiting && r.phase[w] == Leaving(t)
    && r.queues == s.queues && r.tasks == s.tasks && (forall x :: x in r.queues ==> t !in r.queues[x])
  }

  /** The worker's task is finished and leaves. */
  ghost predicate Finishes(s: State, r: State, w: Worker)
  {
    && w in s.phase && s.phase[w].Executing?
    && var t := s.phase[w].task;
    && OnlyThere(s, r, w, t) && t in s.tasks && t in r.tasks
    && r.tasks[t] == s.tasks[t].(status := Finished) && r.phase[w] == Leaving(t)
    && r.queues == s.queues
  }

  /** The task no longer waits, is ready, and stands in front of all others in its home queue. */
  ghost predicate Notifies(s: State, r: State, t: Id)
  {
    && t in s.tasks && s.tasks[t].home in s.queues
    && var h := s.tasks[t].home;
    && OnlyThere(s, r, h, t) && r.phase == s.phase && t !in r.waiting && t in r.tasks
    && r.tasks[t] == s.tasks[t].(status := Ready) && r.queues[h] == [t] + s.queues[h]
  }

  /**
   The worker runs the task that stood first in its own queue, and from then on it may not be stolen. When that is the
   task it was leaving, it just goes on.
  */
  ghost predicate Pops(s: State, r: State, w: Worker)
  {
    && w in s.queues && w in s.phase && s.queues[w] != []
    && var t := s.queues[w][0];
    && OnlyThere(s, r, w, t) && r.queues[w] == s.queues[w][1..] && t !in r.queues[w] && t in s.tasks && t in r.tasks
    && r.tasks[t].status == Running && !r.tasks[t].stealable && r.tasks[t].home == w
    && r.tasks[t].startedBy == (if s.tasks[t].startedBy.Some? then s.tasks[t].startedBy else Some(w))
    && r.phase[w] == (if s.phase[w] == Leaving(t) then Executing(t)
                      else if s.phase[w].Leaving? then Switching(Some(s.phase[w].task), Some(t))
                      else Switching(None, Some(t)))
  }

  /** On shutdown the worker leaves its task for the main loop. */
  ghost predicate Stops(s: State, r: State, w: Worker)
  {
    && w in s.phase && s.phase[w].Leaving?
    && OnlyThere(s, r, w, s.phase[w].task) && r.tasks == s.tasks && r.queues == s.queues && r.waiting == s.waiting
    && r.phase[w] == Switching(Some(s.phase[w].task), None)
  }

  /** The task left behind is gone, from every list, if finished; else it may be stolen if it has its own stack. */
  ghost predicate LeavesBehind(s: State, r: State, w: Worker, t: Id)
  {
    && t in s.tasks && OnlyThere(s, r, w, t)
    && (t in r.tasks <==> s.tasks[t].status != Finished)
    && (t !in r.tasks ==> t !in r.waiting && forall x :: x in r.queues ==> t !in r.queues[x])
    && (t in r.tasks ==> r.tasks[t] == s.tasks[t].(stealable := s.tasks[t].kind.OwnStack?))
  }

  /** The worker executes the next task, or is idle when there is none. */
  ghost predicate EndsTask(s: State, r: State, w: Worker)
  {
    && w in s.phase && w in r.phase && s.phase[w].Switching?
    && var p := s.phase[w];
    && r.phase[w] == (if p.to.Some? then Executing(p.to.value) else Idle) && r.queues == s.queues && r.hand == s.hand
    && r.waiting == s.waiting
    && if p.from.Some? then LeavesBehind(s, r, w, p.from.value) else r.tasks == s.tasks
  }

  /** How many of a queue a thief takes. */
  function Half(q: seq<Id>, stealable: set<Id>): nat
  {
    var c := |set j | 0 <= j < |q| && q[j] in stealable|;
    if c <= 1 then 0 else if c < |q| / 2 then c else |q| / 2
  }

  /** From position `i` on the thief takes every task that may be stolen; what stays keeps its order. */
  ghost predicate TakesFrom(q: seq<Id>, stealable: set<Id>, kept: seq<Id>, taken: seq<Id>, i: nat)
  {
    && i <= |q| && |taken| == Half(q, stealable)
    && kept == q[..i] + FilterOut(q[i..], stealable) && Reverse(taken) == Filter(q[i..], stealable)
  }

  ghost predicate StealTakes(s: State, r: State, w: Worker, v: Worker)
  {
    && v in s.queues && w in s.hand && s.hand[w] == [] && v in r.queues && w in r.hand
    && var stealable := set t | t in s.queues[v] && t in s.tasks && s.tasks[t].stealable;
    && (exists i :: TakesFrom(s.queues[v], stealable, r.queues[v], r.hand[w], i))
    && r == s.(queues := s.queues[v := r.queues[v]], hand := s.hand[w := r.hand[w]])
  }

  /** The stolen tasks stand in front of the thief's queue in their old order, and the thief is their home. */
  ghost predicate StealPuts(s: State, r: State, w: Worker)
  {
    && w in s.queues && w in s.hand
    && r.queues == s.queues[w := Reverse(s.hand[w]) + s.queues[w]] && r.hand == s.hand[w := []]
    && r.phase == s.phase && r.waiting == s.waiting && r.tasks.Keys == s.tasks.Keys
    && (forall t :: t in s.tasks ==> r.tasks[t] == if t in s.hand[w] then s.tasks[t].(home := w) else s.tasks[t])
  }

  ghost predicate Acts(s: State, step: Step, r: State)
  {
    match step
    case Create(t, kind, w) => Creates(s, r, t, kind, w)
    case Yield(w) => Yields(s, r, w)
    case Wait(w) => Waits(s, r, w)
    case Finish(w) => Finishes(s, r, w)
    case Notify(t) => Notifies(s, r, t)
    case Pop(w) => Pops(s, r, w)
    case Stop(w) => Stops(s, r, w)
    case EndTask(w) => EndsTask(s, r, w)
    case StealTake(w, v) => StealTakes(s, r, w, v)
    case StealPut(w) => StealPuts(s, r, w)
  }

  // ---- Each step acts so ----------------------------------------------------------------------

  lemma CreateActs(s: State, t: Id, kind: Kind, w: Worker)
    requires Inv(s) && Enabled(s, Create(t, kind, w))
    ensures Creates(s, DoCreate(s, t, kind, w), t, kind, w)
  {
    hide Inv;
  }

  lemma YieldActs(s: State, w: Worker)
    requires Inv(s) && Enabled(s, Yield(w))
    ensures Yields(s, DoYield(s, w), w)
  {
    hide Inv, NoDup;
    InvAt(s, w);
  }

  lemma WaitActs(s: State, w: Worker)
    requires Inv(s) && Enabled(s, Wait(w))
    ensures Waits(s, DoWait(s, w), w)
  {
    hide Inv, NoDup;
    InvAt(s, w);
    forall x | x in s.queues ensures s.phase[w].task !in s.queues[x] {
      InvAt(s, x);
    }
  }

  lemma FinishActs(s: State, w: Worker)
    requires Inv(s) && Enabled(s, Finish(w))
    ensures Finishes(s, DoFinish(s, w), w)
  {
    hide Inv;
  }

  lemma NotifyActs(s: State, t: Id)
    requires Inv(s) && Enabled(s, Notify(t))
    ensures Notifies(s, DoNotify(s, t), t)
  {
    hide Inv;
    InvTask(s, t);
  }

  lemma PopActs(s: State, w: Worker)
    requires Inv(s) && Enabled(s, Pop(w))
    ensures Pops(s, DoPop(s, w), w)
  {
    hide Inv, NoDup;
    InvAt(s, w);
    NoDupTailOf(s, w);
  }

  lemma StopActs(s: State, w: Worker)
    requires Inv(s) && Enabled(s, Stop(w))
    ensures Stops(s, DoStop(s, w), w)
  {
    hide Inv;
  }

  lemma EndTaskActs(s: State, w: Worker)
    requires Inv(s) && Enabled(s, EndTask(w))
    ensures EndsTask(s, DoEndTask(s, w), w)
  {
    hide Inv, NoDup;
    InvAt(s, w);
    if s.phase[w].from.Some? {
      var t := s.phase[w].from.value;
      InvTask(s, t);
      forall x | x in s.queues ensures s.tasks[t].status == Finished ==> t !in s.queues[x] {
        InvAt(s, x);
      }
    }
  }

  lemma StealTakeActs(s: State, w: Worker, v: Worker)
    requires Inv(s) && Enabled(s, StealTake(w, v))
    ensures StealTakes(s, DoStealTake(s, w, v), w, v)
  {
    hide Inv, TakeLast, StealCount, Filter, FilterOut, Reverse;
    var q, stealable := s.queues[v], StealableIn(s, v);
    StealTakesExactly(q, stealable);
    var i := TakeLastSplits(q, stealable, StealCount(q, stealable));
    var r := DoStealTake(s, w, v);
    assert TakesFrom(q, stealable, r.queues[v], r.hand[w], i);
  }

  lemma StealPutActs(s: State, w: Worker)
    requires Inv(s) && Enabled(s, StealPut(w))
    ensures StealPuts(s, DoStealPut(s, w), w)
  {
    hide Inv, Reverse, Rehomed;
    RehomedKeys(s.tasks, s.hand[w], w);
    forall t | t in s.tasks
      ensures Rehomed(s.tasks, s.hand[w], w)[t] == if t in s.hand[w] then s.tasks[t].(home := w) else s.tasks[t]
    {
      RehomedTask(s, w, t);
    }
  }

  /** In every run every step does what its name says and nothing else. */
  lemma EveryStepActs(states: seq<State>, steps: seq<Step>, k: nat)
    requires IsRun(states, steps) && Initial(states[0]) && k < |steps|
    ensures Acts(states[k], steps[k], states[k + 1])
  {
    hide Inv, Enabled, Creates, Yields, Waits, Finishes, Notifies, Pops, Stops, EndsTask, StealTakes, StealPuts;
    hide DoCreate, DoYield, DoWait, DoFinish, DoNotify, DoPop, DoStop, DoEndTask, DoStealTake, DoStealPut;
    InitialInv(states[0]);
    RunKeeps(states, steps, k);
    var s := states[k];
    match steps[k]
    case Create(t, kind, w) => CreateActs(s, t, kind, w);
    case Yield(w) => YieldActs(s, w);
    case Wait(w) => WaitActs(s, w);
    case Finish(w) => FinishActs(s, w);
    case Notify(t) => NotifyActs(s, t);
    case Pop(w) => PopActs(s, w);
    case Stop(w) => StopActs(s, w);
    case EndTask(w) => EndTaskActs(s, w);
    case StealTake(w, v) => StealTakeActs(s, w, v);
    case StealPut(w) => StealPutActs(s, w);
  }

  // ---- No overtaking --------------------------------------------------------------------------

  lemma BeforeMore(front: seq<Id>, l: seq<Id>, back: seq<Id>, a: Id, b: Id)
    requires Before(l, a, b)
    ensures Before(front + l + back, a, b)
  {
    var i, j :| 0 <= i < j < |l| && l[i] == a && l[j] == b;
    var r := front + l + back;
    assert r[|front| + i] == a && r[|front| + j] == b;
  }

  lemma BeforeTail(l: seq<Id>, a: Id, b: Id)
    requires Before(l, a, b) && l[0] != a
    ensures Before(l[1..], a, b)
  {
    var i, j :| 0 <= i < j < |l| && l[i] == a && l[j] == b;
    assert l[1..][i - 1] == a && l[1..][j - 1] == b;
  }

  lemma BeforeAt(l: seq<Id>, x: nat, y: nat)
    requires x < y < |l|
    ensures Before(l, l[x], l[y])
  {
  }

  lemma BeforeWhere(l: seq<Id>, a: Id, b: Id) returns (i: nat, j: nat)
    requires Before(l, a, b)
    ensures i < j < |l| && l[i] == a && l[j] == b
  {
    i, j :| 0 <= i < j < |l| && l[i] == a && l[j] == b;
  }

  /** Two tasks that a thief leaves in the queue stay in their order. */
  lemma BeforeKept(q: seq<Id>, stealable: set<Id>, n: nat, kept: seq<Id>, a: Id, b: Id)
    requires NoDup(q) && n <= |q| && kept == q[..n] + FilterOut(q[n..], stealable)
    requires Before(q, a, b) && a in kept && b in kept
    ensures Before(kept, a, b)
  {
    hide FilterOut, NoDup, PickedAt, Increasing, Before;
    var i, j := BeforeWhere(q, a, b);
    var at := FilterOutPicks(q[n..], stealable);
    var x := Place(q, n, stealable, FilterOut(q[n..], stealable), at, a, i);
    var y := Place(q, n, stealable, FilterOut(q[n..], stealable), at, b, j);
    if i >= n {
      Ordered(at, x - n, y - n);
    }
    BeforeAt(kept, x, y);
  }

  lemma Ordered(at: seq<nat>, x: nat, y: nat)
    requires Increasing(at) && x < |at| && y < |at| && at[x] < at[y]
    ensures x < y
  {
  }

  /** Where a task that stays ends up. */
  lemma Place(q: seq<Id>, n: nat, stealable: set<Id>, left: seq<Id>, at: seq<nat>, a: Id, i: nat) returns (x: nat)
    requires NoDup(q) && n <= |q| && i < |q| && q[i] == a && a in q[..n] + left
    requires PickedAt(q[n..], stealable, false, left, at)
    ensures |at| == |left| && Increasing(at)
    ensures x < n + |left| && (q[..n] + left)[x] == a
    ensures if i < n then x == i else x >= n && at[x - n] == i - n
  {
    if i < n {
      x := i;
    } else {
      x :| 0 <= x < n + |left| && (q[..n] + left)[x] == a;
      if x < n { assert false; }
      assert left[x - n] == q[n + at[x - n]];
    }
  }

  /**
   No overtaking: two tasks that stay in a queue keep their order through every step of every worker, and the worker
   takes the one in front.
  */
  lemma NoOvertaking(states: seq<State>, steps: seq<Step>, k: nat, w: Worker, a: Id, b: Id)
    requires IsRun(states, steps) && Initial(states[0]) && k < |steps|
    requires w in states[k].queues && Before(states[k].queues[w], a, b)
    ensures w in states[k + 1].queues
    ensures a in states[k + 1].queues[w] && b in states[k + 1].queues[w] ==> Before(states[k + 1].queues[w], a, b)
    ensures steps[k] == Pop(w) ==> b in states[k + 1].queues[w]
  {
    hide Enabled, Apply, Inv, NoDup, Before;
    EveryStepActs(states, steps, k);
    InitialInv(states[0]);
    RunKeeps(states, steps, k);
    var s, r := states[k], states[k + 1];
    InvAt(s, w);
    var q := s.queues[w];
    match steps[k]
    case Create(t, kind, v) => BeforeMore([], q, [t], a, b); assert [] + q + [t] == q + [t];
    case Yield(v) =>
      var t := s.phase[v].task;
      BeforeMore([], q, [t], a, b);
      assert [] + q + [t] == q + [t];
    case Notify(t) => BeforeMore([t], q, [], a, b); assert [t] + q + [] == [t] + q;
    case Pop(v) =>
      if v == w {
        BeforeApart(q, a, b);
        if q[0] != a { BeforeTail(q, a, b); }
      }
    case StealTake(x, v) =>
      if v == w {
        var stealable := set t | t in q && t in s.tasks && s.tasks[t].stealable;
        var i :| TakesFrom(q, stealable, r.queues[w], r.hand[x], i);
        if a in r.queues[w] && b in r.queues[w] { BeforeKept(q, stealable, i, r.queues[w], a, b); }
      }
    case StealPut(v) =>
      BeforeMore(Reverse(s.hand[v]), q, [], a, b);
      assert Reverse(s.hand[v]) + q + [] == Reverse(s.hand[v]) + q;
    case _ =>
  }

  lemma BeforeApart(l: seq<Id>, a: Id, b: Id)
    requires Before(l, a, b) && NoDup(l)
    ensures l != [] && b in l[1..]
  {
    var i, j :| 0 <= i < j < |l| && l[i] == a && l[j] == b;
    assert l[1..][j - 1] == b;
  }
}
