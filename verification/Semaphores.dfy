/**
 The counting semaphore over a condition variable with Mesa semantics: a waiter that is notified must take the
 mutex again and re-check, and a newcomer may overtake it. Each step is one section under the mutex.
*/
module Semaphores {

  import opened Common

  type Task = nat

  /** `woken` holds the tasks notified but not yet through their re-check. */
  datatype Sem = Sem(count: int, waiting: seq<Task>, woken: set<Task>)

  /** `notify_one` */
  function NotifyOne(s: Sem): Sem
  {
    if s.waiting == [] then s else s.(waiting := s.waiting[1..], woken := s.woken + {s.waiting[0]})
  }

  /** `Signal` */
  function Signal(s: Sem): Sem
  {
    NotifyOne(s.(count := s.count + 1))
  }

  /**
   One evaluation of the predicate in `Wait`, by a newcomer or by a woken task: take a permit, or enqueue and
   release the mutex.
  */
  function Check(s: Sem, t: Task): (Sem, bool)
  {
    if s.count > 0 then (s.(count := s.count - 1, woken := s.woken - {t}), true)
    else (s.(waiting := s.waiting + [t], woken := s.woken - {t}), false)
  }

  /** `TryWait` */
  function TryWait(s: Sem): (Sem, bool)
  {
    if s.count > 0 then (s.(count := s.count - 1), true) else (s, false)
  }

  /** No wake-up is lost: while tasks wait, every free permit has a woken task on its way to it. */
  predicate Inv(s: Sem)
  {
    && s.count >= 0
    && NoDup(s.waiting)
    && (forall t :: t in s.waiting ==> t !in s.woken)
    && (s.waiting != [] ==> s.count <= |s.woken|)
  }

  lemma SignalKeeps(s: Sem)
    requires Inv(s)
    ensures Inv(Signal(s)) && Signal(s).count == s.count + 1
    ensures forall t :: t in Signal(s).waiting ==> t in s.waiting
    ensures forall t :: t in Signal(s).woken ==> t in s.woken || t in s.waiting
  {
    if s.waiting != [] {
      var t := s.waiting[0];
      assert s.waiting == [t] + s.waiting[1..];
      assert t !in s.waiting[1..];
      assert |s.woken + {t}| == |s.woken| + 1;
    }
  }

  lemma CheckKeeps(s: Sem, t: Task)
    requires Inv(s) && t !in s.waiting
    ensures var (r, granted) := Check(s, t);
      && Inv(r)
      && (granted <==> s.count > 0)
      && r.count == (if granted then s.count - 1 else s.count)
      && (granted ==> t !in r.waiting)
      && (forall u :: u in r.waiting ==> u == t || u in s.waiting)
      && t !in r.woken && (forall u :: u in r.woken ==> u in s.woken)
  {
    if t in s.woken {
      assert s.woken == (s.woken - {t}) + {t};
      assert |s.woken| == |s.woken - {t}| + 1;
    } else {
      assert s.woken - {t} == s.woken;
    }
  }

  /** When a permit is free and somebody waits, some woken task will find the permit or a later one. */
  lemma FreePermitIsClaimed(s: Sem) returns (t: Task)
    requires Inv(s) && s.waiting != [] && s.count > 0
    ensures t in s.woken && t !in s.waiting
  {
    assert s.woken != {};
    t :| t in s.woken;
  }

  // ---- The semaphore under any number of tasks ------------------------------------------------

  /** `grants` and `signals` count the permits given out and returned. */
  datatype State = State(sem: Sem, grants: nat, signals: nat)

  datatype Step = Call(task: Task) | Recheck(task: Task) | Try | Release

  predicate Enabled(s: State, step: Step)
  {
    match step
    case Call(t) => t !in s.sem.waiting && t !in s.sem.woken
    case Recheck(t) => t in s.sem.woken
    case Try => true
    case Release => true
  }

  function Apply(s: State, step: Step): State
    requires Enabled(s, step)
  {
    match step
    case Call(t) => var (r, granted) := Check(s.sem, t); State(r, if granted then s.grants + 1 else s.grants, s.signals)
    case Recheck(t) => var (r, granted) := Check(s.sem, t);
        State(r, if granted then s.grants + 1 else s.grants, s.signals)
    case Try => var (r, granted) := TryWait(s.sem); State(r, if granted then s.grants + 1 else s.grants, s.signals)
    case Release => State(Signal(s.sem), s.grants, s.signals + 1)
  }

  predicate IsRun(states: seq<State>, steps: seq<Step>)
  {
    && |states| == |steps| + 1
    && (forall k :: 0 <= k < |steps| ==> Enabled(states[k], steps[k]) && states[k + 1] == Apply(states[k], steps[k]))
  }

  lemma StepKeeps(s: State, step: Step)
    requires Inv(s.sem) && Enabled(s, step)
    ensures Inv(Apply(s, step).sem)
    ensures Apply(s, step).sem.count + Apply(s, step).grants - Apply(s, step).signals ==
        s.sem.count + s.grants - s.signals
  {
    hide Inv;
    match step
    case Call(t) => CheckKeeps(s.sem, t);
    case Recheck(t) => WokenNotWaiting(s.sem, t); CheckKeeps(s.sem, t);
    case Try => TryKeeps(s.sem);
    case Release => SignalKeeps(s.sem);
  }

  lemma WokenNotWaiting(s: Sem, t: Task)
    requires Inv(s) && t in s.woken
    ensures t !in s.waiting
  {
  }

  lemma TryKeeps(s: Sem)
    requires Inv(s)
    ensures Inv(TryWait(s).0)
  {
  }

  /** In every run the permits add up, the count is never negative, and no wake-up is lost. */
  lemma {:induction false} SemaphoreTheorem(states: seq<State>, steps: seq<Step>, size: nat, k: nat)
    requires IsRun(states, steps) && states[0] == State(Sem(size, [], {}), 0, 0) && k < |states|
    ensures var s := states[k];
      && Inv(s.sem)
      && s.sem.count + s.grants == size + s.signals
      && s.sem.count >= 0
      && (s.sem.waiting != [] && s.sem.count > 0 ==> s.sem.woken != {})
  {
    if k > 0 {
      SemaphoreTheorem(states, steps, size, k - 1);
      StepKeeps(states[k - 1], steps[k - 1]);
    }
    var s := states[k].sem;
    assert s.woken == {} ==> |s.woken| == 0;
  }

  // ---- What each step does, and in which order tasks are woken ----------------------------------

  /** The task gets a permit when one is free, and else stands behind all others that wait. */
  predicate Asks(s: State, t: Task, r: State)
  {
    && r.signals == s.signals && r.sem.woken == s.sem.woken - {t}
    && if s.sem.count > 0 then
         r.grants == s.grants + 1 && r.sem.count == s.sem.count - 1 && r.sem.waiting == s.sem.waiting
       else
         r.grants == s.grants && r.sem.count == s.sem.count && r.sem.waiting == s.sem.waiting + [t]
  }

  /** One permit more, and the task that has waited longest is woken. */
  predicate Returns(s: State, r: State)
  {
    && r.signals == s.signals + 1 && r.grants == s.grants && r.sem.count == s.sem.count + 1
    && if s.sem.waiting == [] then r.sem.waiting == [] && r.sem.woken == s.sem.woken
       else s.sem.waiting == [s.sem.waiting[0]] + r.sem.waiting && r.sem.woken == s.sem.woken + {s.sem.waiting[0]}
  }

  predicate Acts(s: State, step: Step, r: State)
  {
    match step
    case Call(t) => Asks(s, t, r)
    case Recheck(t) => Asks(s, t, r)
    case Release => Returns(s, r)
    case Try =>
      && r.sem.waiting == s.sem.waiting && r.sem.woken == s.sem.woken && r.signals == s.signals
      && r.sem.count + r.grants == s.sem.count + s.grants
      && r.grants == (if s.sem.count > 0 then s.grants + 1 else s.grants)
  }

  lemma EveryStepActs(s: State, step: Step)
    requires Enabled(s, step)
    ensures Acts(s, step, Apply(s, step))
  {
  }

  /** Tasks are woken in the order in which they began to wait: nobody is woken while another waits in front. */
  lemma WokenInOrder(s: State, step: Step, a: Task, b: Task)
    requires Inv(s.sem) && Enabled(s, step) && Before(s.sem.waiting, a, b)
    ensures var r := Apply(s, step);
      && b in r.sem.waiting && b !in r.sem.woken
      && (Before(r.sem.waiting, a, b) || (step == Release && a == s.sem.waiting[0] && a in r.sem.woken))
  {
    EveryStepActs(s, step);
    var r := Apply(s, step);
    hide Apply;
    var i, j :| 0 <= i < j < |s.sem.waiting| && s.sem.waiting[i] == a && s.sem.waiting[j] == b;
    if step == Release {
      assert r.sem.waiting[j - 1] == b;
      assert s.sem.waiting[j] != s.sem.waiting[0];
      if i > 0 {
        assert r.sem.waiting[i - 1] == a;
      }
    } else {
      assert r.sem.waiting[i] == a && r.sem.waiting[j] == b;
    }
  }

  /** The bookkeeping counts the steps that were taken. */
  lemma {:induction false} SignalsAreCounted(states: seq<State>, steps: seq<Step>, k: nat)
    requires IsRun(states, steps) && states[0].signals == 0 && k < |states|
    ensures states[k].signals == multiset(steps[..k])[Release]
  {
    hide Apply, Enabled;
    if k > 0 {
      SignalsAreCounted(states, steps, k - 1);
      EveryStepActs(states[k - 1], steps[k - 1]);
      assert steps[..k] == steps[..k - 1] + [steps[k - 1]];
    }
  }

  // ---- The object -----------------------------------------------------------------------------

  class Semaphore {
    var count: int
    var waitList: seq<Task>
    ghost var woken: set<Task>

    ghost function Model(): Sem
      reads this
    {
      Sem(count, waitList, woken)
    }

    constructor (size: nat)
      ensures Model() == Sem(size, [], {}) && Inv(Model())
    {
      count, waitList, woken := size, [], {};
    }

    /** `Signal`; `ready` is the task that `notify_one` makes ready, if any. */
    method Release() returns (ready: seq<Task>)
      requires Inv(Model())
      modifies this
      ensures Inv(Model()) && Model() == Signal(old(Model()))
      ensures ready == if old(waitList) == [] then [] else old(waitList)[..1]
    {
      SignalKeeps(Model());
      count := count + 1;
      ready := [];
      if waitList != [] {
        ready := waitList[..1];
        woken := woken + {waitList[0]};
        waitList := waitList[1..];
      }
    }

    /** One locked section of `Wait`: true when the task has the permit, false when it sleeps. */
    method WaitOnce(t: Task) returns (granted: bool)
      requires Inv(Model()) && t !in waitList
      modifies this
      ensures Inv(Model()) && (Model(), granted) == Check(old(Model()), t)
    {
      CheckKeeps(Model(), t);
      woken := woken - {t};
      if count > 0 {
        count := count - 1;
        granted := true;
      } else {
        waitList := waitList + [t];
        granted := false;
      }
    }

    /** `TryWait` */
    method TryAcquire() returns (granted: bool)
      requires Inv(Model())
      modifies this
      ensures Inv(Model()) && (Model(), granted) == TryWait(old(Model()))
    {
      TryKeeps(Model());
      if count > 0 {
        count := count - 1;
        return true;
      }
      return false;
    }
  }
}
