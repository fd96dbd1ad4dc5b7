/**
 The wake-up handshake of one condition variable with the timer. A notifier pops a waiter under the list lock and
 compare-exchanges its `cvStatus`; the timer exchanges it. Each atomic access and each hand-over to the scheduler
 is a step of its own, so notifiers, timer callbacks and waiters interleave at every point the locks allow. Every
 task takes part in one wait.
*/
module TimedWaits {

  import opened Common

  type Task = nat

  /** `Plain` is 0, `Armed` the address of the condition variable, `Claimed` is -1, `TimedOut` is -2. */
  datatype Status = Plain | Armed | Claimed | TimedOut

  /** `wait`, `wait_until`, or a sleep that no condition variable knows of. */
  datatype Kind = Untimed | Timed | Sleeping

  /** `Returning` is a timed waiter that found its deadline passed and has still to unlink itself. */
  datatype Phase = Entering | Asleep | Returning | Done

  /** `enabled` counts the calls to `EnableImmediately` made for this wait. */
  datatype Waiter = Waiter(kind: Kind, status: Status, enabled: nat, phase: Phase)

  /** Who holds the list lock, and how far it has come. */
  datatype Holder =
    | Free
    | Arming(task: Task) | Leaving(task: Task)
    | Looping(all: bool) | Popped(all: bool, task: Task) | Enabling(all: bool, task: Task)

  datatype Callback = Idle | Firing(task: Task)

  /** `armed` are the tasks whose timers have still to fire. */
  datatype State = State(waiters: map<Task, Waiter>, list: seq<Task>, holder: Holder, armed: set<Task>, timer: Callback)

  const Start: State := State(map[], [], Free, {}, Idle)

  datatype Step =
    | Enter(task: Task, kind: Kind) | Arm | Unlock
    | Notify(all: bool) | Pop | CompareExchange | Enable
    | Fire(task: Task) | FireEnable
    | Resume(task: Task, late: bool, deleted: bool) | Unlink(task: Task)

  predicate StepEnabled(s: State, step: Step)
  {
    match step
    case Enter(t, kind) => t !in s.waiters && (if kind.Sleeping? then s.timer.Idle? else s.holder.Free?)
    case Arm => s.holder.Arming? && s.timer.Idle?
    case Unlock => s.holder.Leaving? && s.holder.task in s.waiters
    case Notify(_) => s.holder.Free?
    case Pop => s.holder.Looping?
    case CompareExchange => s.holder.Popped? && s.holder.task in s.waiters
    case Enable => s.holder.Enabling? && s.holder.task in s.waiters
    case Fire(t) => t in s.armed && t in s.waiters && s.timer.Idle?
    case FireEnable => s.timer.Firing? && s.timer.task in s.waiters
    case Resume(t, late, deleted) =>
      && t in s.waiters && s.waiters[t].phase.Asleep? && s.waiters[t].enabled > 0 && s.timer.Idle?
      && (late || deleted ==> s.waiters[t].kind.Timed?)
      && (s.waiters[t].kind.Timed? && s.waiters[t].status.TimedOut? ==> late)  // a timer fires only after its deadline
    case Unlink(t) => t in s.waiters && s.waiters[t].phase.Returning? && s.holder.Free?
  }

  function With(s: State, t: Task, w: Waiter): State
  {
    s.(waiters := s.waiters[t := w])
  }

  /** `notify_one` ends after one task, `notify_all` goes round again. */
  function NextRound(all: bool): Holder
  {
    if all then Looping(true) else Free
  }

  function Apply(s: State, step: Step): State
    requires StepEnabled(s, step)
  {
    match step
    case Enter(t, kind) =>
      (match kind
       case Untimed => With(s.(list := s.list + [t]), t, Waiter(kind, Plain, 0, Asleep))
       case Timed => With(s.(list := s.list + [t], holder := Arming(t)), t, Waiter(kind, Armed, 0, Entering))
       case Sleeping => With(s.(armed := s.armed + {t}), t, Waiter(kind, Plain, 0, Asleep)))
    case Arm => s.(armed := s.armed + {s.holder.task}, holder := Leaving(s.holder.task))
    case Unlock => With(s.(holder := Free), s.holder.task, s.waiters[s.holder.task].(phase := Asleep))
    case Notify(all) => s.(holder := Looping(all))
    case Pop =>
      if s.list == [] then s.(holder := Free)
      else s.(list := s.list[1..], holder := Popped(s.holder.all, s.list[0]))
    case CompareExchange =>
      var t := s.holder.task; var w := s.waiters[t];
      if w.status.Armed? then With(s.(holder := Enabling(s.holder.all, t)), t, w.(status := Claimed))
      else if w.status.Plain? then s.(holder := Enabling(s.holder.all, t))
      else s.(holder := NextRound(s.holder.all))
    case Enable =>
      var t := s.holder.task; var w := s.waiters[t];
      With(s.(holder := NextRound(s.holder.all)), t, w.(enabled := w.enabled + 1))
    case Fire(t) =>
      var w := s.waiters[t];
      With(s.(armed := s.armed - {t}, timer := if w.status.Claimed? then Idle else Firing(t)), t,
          w.(status := TimedOut))
    case FireEnable =>
      var t := s.timer.task; var w := s.waiters[t];
      With(s.(timer := Idle), t, w.(enabled := w.enabled + 1))
    case Resume(t, late, deleted) =>
      With(s.(armed := if deleted then s.armed - {t} else s.armed), t,
           s.waiters[t].(phase := if late then Returning else Done))
    case Unlink(t) => With(s.(list := Without(s.list, t)), t, s.waiters[t].(phase := Done))
  }

  // ---- The invariant, one task at a time ------------------------------------------------------

  /** Everything in the state that concerns one task. */
  datatype View = View(w: Waiter, listed: bool, armed: bool, popped: bool, enabling: bool, firing: bool,
                       arming: bool, leaving: bool)

  function ViewOf(s: State, t: Task): View
    requires t in s.waiters
  {
    View(s.waiters[t], t in s.list, t in s.armed,
         s.holder.Popped? && s.holder.task == t, s.holder.Enabling? && s.holder.task == t,
         s.timer.Firing? && s.timer.task == t,
         s.holder.Arming? && s.holder.task == t, s.holder.Leaving? && s.holder.task == t)
  }

  /** The times the task has been made ready, or is committed to be. */
  function Wakes(v: View): nat
  {
    v.w.enabled + (if v.enabling then 1 else 0) + (if v.firing then 1 else 0)
  }

  /** Some side has claimed the waiter. */
  predicate IsClaimed(v: View)
  {
    match v.w.kind
    case Untimed => !v.listed && !v.popped
    case _ => v.w.status.Claimed? || v.w.status.TimedOut?
  }

  predicate ViewOk(v: View)
  {
    && Wakes(v) == (if IsClaimed(v) then 1 else 0)
    && (v.popped ==> !v.listed)
    && (v.w.phase.Returning? || v.w.phase.Done? ==> v.w.enabled == 1)
    && (v.w.phase.Done? ==> !v.listed && !v.popped)
    && (match v.w.kind
        case Untimed => v.w.status.Plain? && !v.armed && !v.firing && !v.arming && !v.leaving
        case Sleeping =>
          && (v.w.status.Plain? || v.w.status.TimedOut?) && (v.armed <==> v.w.status.Plain?)
          && !v.listed && !v.popped && !v.enabling && !v.arming && !v.leaving
        case Timed =>
          && !v.w.status.Plain?
          && (v.w.phase.Entering? <==> v.arming || v.leaving)
          && (v.arming ==> v.w.status.Armed? && !v.armed)
          && (v.w.status.Armed? ==> (v.listed || v.popped) && (v.armed || v.arming))
          && (v.w.status.Claimed? ==> !v.listed && !v.popped)
          && (v.w.status.TimedOut? ==> !v.armed))
  }

  predicate Inv(s: State)
  {
    && NoDup(s.list)
    && (forall t :: t in s.list ==> t in s.waiters)
    && (forall t :: t in s.armed ==> t in s.waiters)
    && (s.holder.Arming? || s.holder.Leaving? || s.holder.Popped? || s.holder.Enabling? ==> s.holder.task in s.waiters)
    && (s.timer.Firing? ==> s.timer.task in s.waiters)
    && (forall t :: t in s.waiters ==> ViewOk(ViewOf(s, t)))
  }

  /** The task a step is about; a notifier that starts or finds the list empty concerns nobody. */
  predicate About(s: State, step: Step, t: Task)
  {
    match step
    case Enter(u, _) => t == u
    case Notify(_) => false
    case Pop => s.list != [] && t == s.list[0]
    case Fire(u) => t == u
    case FireEnable => s.timer.Firing? && t == s.timer.task
    case Resume(u, _, _) => t == u
    case Unlink(u) => t == u
    case _ => !s.holder.Free? && !s.holder.Looping? && t == s.holder.task
  }

  lemma ListKept(s: State, step: Step)
    requires Inv(s) && StepEnabled(s, step)
    ensures var r := Apply(s, step);
      && NoDup(r.list)
      && (forall u :: !About(s, step, u) ==> (u in r.list <==> u in s.list))
      && (step.Pop? && s.list != [] ==> s.list[0] !in r.list)
      && (step.Unlink? ==> step.task !in r.list)
      && (!step.Pop? && !step.Unlink? && !step.Enter? ==> r.list == s.list)
      && (step.Enter? && step.kind.Sleeping? ==> r.list == s.list)
      && (forall u :: u in r.list ==> u in r.waiters)
  {
    hide ViewOk, ViewOf;
    match step
    case Pop =>
      if s.list != [] {
        assert s.list == [s.list[0]] + s.list[1..];
        assert s.list[0] !in s.list[1..];
      }
    case Unlink(t) => WithoutIs(s.list, t);
    case _ =>
  }

  lemma OthersKept(s: State, step: Step, u: Task)
    requires Inv(s) && StepEnabled(s, step) && !About(s, step, u) && u in Apply(s, step).waiters
    ensures u in s.waiters && ViewOf(Apply(s, step), u) == ViewOf(s, u)
  {
    ListKept(s, step);
    hide ViewOk, NoDup, Without;
  }

  lemma OwnKept(s: State, step: Step, t: Task)
    requires Inv(s) && StepEnabled(s, step) && About(s, step, t)
    ensures t in Apply(s, step).waiters && ViewOk(ViewOf(Apply(s, step), t))
  {
    ListKept(s, step);
    hide NoDup, Without;
    if step.Enter? {
      assert t !in s.armed && t !in s.list;
    } else {
      assert t in s.waiters;
      assert ViewOk(ViewOf(s, t));
    }
  }

  lemma StepKept(s: State, step: Step)
    requires Inv(s) && StepEnabled(s, step)
    ensures Inv(Apply(s, step))
  {
    var r := Apply(s, step);
    ListKept(s, step);
    hide NoDup, Without, ViewOk;
    forall u | u in r.waiters
      ensures ViewOk(ViewOf(r, u))
    {
      if About(s, step, u) { OwnKept(s, step, u); } else { OthersKept(s, step, u); }
    }
  }

  // ---- Whole runs -----------------------------------------------------------------------------

  predicate IsRun(states: seq<State>, steps: seq<Step>)
  {
    && |states| == |steps| + 1
    && states[0] == Start
    && (forall k :: 0 <= k < |steps| ==>
          StepEnabled(states[k], steps[k]) && states[k + 1] == Apply(states[k], steps[k]))
  }

  lemma {:induction false} RunKept(states: seq<State>, steps: seq<Step>, k: nat)
    requires IsRun(states, steps) && k < |states|
    ensures Inv(states[k])
  {
    hide Inv;
    if k == 0 {
      StartInv();
    } else {
      RunKept(states, steps, k - 1);
      StepKept(states[k - 1], steps[k - 1]);
    }
  }

  lemma StartInv()
    ensures Inv(Start)
  {
  }

  /** No notifier or callback is between claiming a task and making it ready. */
  predicate Settled(s: State)
  {
    !s.holder.Enabling? && !s.timer.Firing?
  }

  /**
   A waiter is never made ready twice; nobody makes it ready before claiming it; once claimed it is ready or the
   claimer is about to make it ready; and when no claimer is in between, ready exactly once if and only if claimed.
  */
  lemma WokenExactlyOnce(states: seq<State>, steps: seq<Step>, k: nat, t: Task)
    requires IsRun(states, steps) && k < |states| && t in states[k].waiters
    ensures var s := states[k]; var v := ViewOf(s, t);
      && v.w.enabled <= 1
      && Wakes(v) == (if IsClaimed(v) then 1 else 0)
      && (Settled(s) ==> (v.w.enabled == 1 <==> IsClaimed(v)))
  {
    RunKept(states, steps, k);
    assert ViewOk(ViewOf(states[k], t));
  }

  /** An unclaimed timed waiter that has gone to sleep still has its timer, and the list or a notifier has it too. */
  lemma UnclaimedIsReachable(states: seq<State>, steps: seq<Step>, k: nat, t: Task)
    requires IsRun(states, steps) && k < |states| && t in states[k].waiters
    requires states[k].waiters[t].kind.Timed? && states[k].waiters[t].phase.Asleep? && !IsClaimed(ViewOf(states[k], t))
    ensures var s := states[k]; t in s.armed && (t in s.list || ViewOf(s, t).popped)
  {
    RunKept(states, steps, k);
    assert ViewOk(ViewOf(states[k], t));
  }

  /** When a wait returns, its task is unlinked and no notifier has it in hand, now or at any later time. */
  lemma ReturnedIsUnlinked(states: seq<State>, steps: seq<Step>, k: nat, t: Task)
    requires IsRun(states, steps) && k < |states| && t in states[k].waiters && states[k].waiters[t].phase.Done?
    ensures var s := states[k];
      && t !in s.list
      && !(s.holder.Popped? && s.holder.task == t)
      && !(s.holder.Enabling? && s.holder.task == t)
      && s.waiters[t].enabled == 1
  {
    RunKept(states, steps, k);
    assert ViewOk(ViewOf(states[k], t));
  }

  // ---- What each step does --------------------------------------------------------------------

  /** All waiters but `t` are as they were. */
  ghost predicate OnlyTask(s: State, r: State, t: Task)
  {
    && (forall u :: u != t ==> (u in r.waiters <==> u in s.waiters))
    && (forall u :: u != t && u in s.waiters && u in r.waiters ==> r.waiters[u] == s.waiters[u])
  }

  /** A new waiter stands behind all others in the list, or has its timer set, or both, and nobody has claimed it. */
  ghost predicate Enters(s: State, r: State, t: Task, kind: Kind)
  {
    && OnlyTask(s, r, t) && t in r.waiters && r.waiters[t].kind == kind && r.waiters[t].enabled == 0
    && r.waiters[t].status == (if kind.Timed? then Armed else Plain)
    && r.list == (if kind.Sleeping? then s.list else s.list + [t])
    && r.armed == (if kind.Sleeping? then s.armed + {t} else s.armed)
    && r.holder == (if kind.Timed? then Arming(t) else s.holder) && r.timer == s.timer
    && (r.waiters[t].phase == if kind.Timed? then Entering else Asleep)
  }

  /** The first of the list is in the notifier's hands; with an empty list the notifier is done. */
  ghost predicate PopsFirst(s: State, r: State)
  {
    && r.waiters == s.waiters && r.armed == s.armed && r.timer == s.timer && s.holder.Looping?
    && if s.list == [] then r.list == [] && r.holder == Free
       else r.holder == Popped(s.holder.all, s.list[0]) && s.list == [s.list[0]] + r.list
  }

  /** An armed waiter is claimed; it or a plain one is to be made ready, and any other is passed over. */
  ghost predicate Claims(s: State, r: State, t: Task, all: bool)
  {
    && t in s.waiters && t in r.waiters && OnlyTask(s, r, t)
    && r.list == s.list && r.armed == s.armed && r.timer == s.timer
    && r.waiters[t] == s.waiters[t].(status := if s.waiters[t].status.Armed? then Claimed else s.waiters[t].status)
    && r.holder == (if s.waiters[t].status.Armed? || s.waiters[t].status.Plain? then Enabling(all, t)
                    else if all then Looping(true) else Free)
  }

  /** The task is made ready once more. */
  ghost predicate MakesReady(s: State, r: State, t: Task)
  {
    && t in s.waiters && t in r.waiters && OnlyTask(s, r, t) && r.list == s.list && r.armed == s.armed
    && r.waiters[t] == s.waiters[t].(enabled := s.waiters[t].enabled + 1)
  }

  /** The timer is spent and the waiter timed out; it is to be made ready unless a notifier claimed it first. */
  ghost predicate Fires(s: State, r: State, t: Task)
  {
    && t in s.waiters && t in r.waiters && OnlyTask(s, r, t) && r.list == s.list && r.holder == s.holder
    && r.armed == s.armed - {t} && r.waiters[t] == s.waiters[t].(status := TimedOut)
    && r.timer == if s.waiters[t].status.Claimed? then Idle else Firing(t)
  }

  ghost predicate Acts(s: State, step: Step, r: State)
  {
    match step
    case Enter(t, kind) => Enters(s, r, t, kind)
    case Arm => s.holder.Arming? && r == s.(armed := s.armed + {s.holder.task}, holder := Leaving(s.holder.task))
    case Unlock =>
      && s.holder.Leaving? && s.holder.task in s.waiters && s.holder.task in r.waiters
      && OnlyTask(s, r, s.holder.task) && r.waiters[s.holder.task] == s.waiters[s.holder.task].(phase := Asleep)
      && r == s.(waiters := r.waiters, holder := Free)
    case Notify(all) => r == s.(holder := Looping(all))
    case Pop => PopsFirst(s, r)
    case CompareExchange => s.holder.Popped? && Claims(s, r, s.holder.task, s.holder.all)
    case Enable =>
      && s.holder.Enabling? && MakesReady(s, r, s.holder.task) && r.timer == s.timer
      && r.holder == (if s.holder.all then Looping(true) else Free)
    case Fire(t) => Fires(s, r, t)
    case FireEnable => s.timer.Firing? && MakesReady(s, r, s.timer.task) && r.timer == Idle && r.holder == s.holder
    case Resume(t, late, deleted) =>
      && t in s.waiters && t in r.waiters && OnlyTask(s, r, t)
      && r.waiters[t] == s.waiters[t].(phase := if late then Returning else Done)
      && r == s.(waiters := r.waiters, armed := if deleted then s.armed - {t} else s.armed)
    case Unlink(t) =>
      && t in s.waiters && t in r.waiters && OnlyTask(s, r, t) && r.waiters[t] == s.waiters[t].(phase := Done)
      && t !in r.list && (forall a, b :: a != t && b != t && Before(s.list, a, b) ==> Before(r.list, a, b))
      && (forall u :: u != t ==> (u in r.list <==> u in s.list))
      && r == s.(waiters := r.waiters, list := r.list)
  }

  /** Every step does what its name says and nothing else. */
  lemma EveryStepActs(states: seq<State>, steps: seq<Step>, k: nat)
    requires IsRun(states, steps) && k < |steps|
    ensures Acts(states[k], steps[k], states[k + 1])
  {
    hide Inv, Before, Without;
    RunKept(states, steps, k);
    var s, step := states[k], steps[k];
    if step.Unlink? {
      var t := step.task;
      WithoutIs(s.list, t) by { ListOk(s); }
      forall a, b | a != t && b != t && Before(s.list, a, b) ensures Before(Without(s.list, t), a, b) {
        WithoutOrder(s.list, t, a, b);
      }
    }
  }

  lemma ListOk(s: State)
    requires Inv(s)
    ensures NoDup(s.list)
  {
  }

  /** Waiters are claimed by notifiers in the order in which they entered: nobody is popped from behind another. */
  lemma PoppedInOrder(states: seq<State>, steps: seq<Step>, k: nat, a: Task, b: Task)
    requires IsRun(states, steps) && k < |steps| && Before(states[k].list, a, b)
    ensures var r := states[k + 1];
      || Before(r.list, a, b)
      || (steps[k] == Pop && r.holder.Popped? && r.holder.task == a && b in r.list)
      || (steps[k].Unlink? && (steps[k].task == a || steps[k].task == b))
  {
    EveryStepActs(states, steps, k);
    hide Inv, Apply, StepEnabled;
    var s, r := states[k], states[k + 1];
    var i, j :| 0 <= i < j < |s.list| && s.list[i] == a && s.list[j] == b;
    if steps[k] == Pop {
      assert r.list[j - 1] == b;
      if i > 0 {
        assert r.list[i - 1] == a;
      }
    } else if !steps[k].Unlink? {
      assert r.list[i] == a && r.list[j] == b;
    }
  }

  // ---- The condition variable, when no timer runs beside it --------------------------------------

  predicate Wakeable(status: Status)
  {
    status.Plain? || status.Armed?
  }

  /** The tasks of a list that a notification makes ready, in list order. */
  function Ready(l: seq<Task>, status: map<Task, Status>): seq<Task>
    requires forall t :: t in l ==> t in status
  {
    if l == [] then [] else (if Wakeable(status[l[0]]) then [l[0]] else []) + Ready(l[1..], status)
  }

  /** Exactly the wakeable tasks, and each as often as the list has it. */
  lemma {:induction false} ReadyIs(l: seq<Task>, status: map<Task, Status>)
    requires (forall t :: t in l ==> t in status) && NoDup(l)
    ensures NoDup(Ready(l, status))
    ensures forall t :: t in Ready(l, status) <==> t in l && Wakeable(status[t])
  {
    if l != [] {
      assert l == [l[0]] + l[1..];
      ReadyIs(l[1..], status);
      assert l[0] !in l[1..];
    }
  }

  lemma {:induction false} ReadySame(l: seq<Task>, status: map<Task, Status>, after: map<Task, Status>)
    requires forall t :: t in l ==> t in status && t in after && status[t] == after[t]
    ensures Ready(l, status) == Ready(l, after)
  {
    if l != [] {
      ReadySame(l[1..], status, after);
    }
  }

  /** The compare-exchange of one notification. */
  function Claim(status: map<Task, Status>, t: Task): (r: map<Task, Status>)
    requires t in status
    ensures r.Keys == status.Keys
  {
    if status[t].Armed? then status[t := Claimed] else status
  }

  function ClaimAll(l: seq<Task>, status: map<Task, Status>): (r: map<Task, Status>)
    requires forall t :: t in l ==> t in status
    ensures r.Keys == status.Keys
  {
    if l == [] then status else ClaimAll(l[1..], Claim(status, l[0]))
  }

  lemma {:induction false} ClaimAllIs(l: seq<Task>, status: map<Task, Status>, t: Task)
    requires (forall u :: u in l ==> u in status) && t in status
    ensures ClaimAll(l, status)[t] == if t in l && status[t].Armed? then Claimed else status[t]
  {
    if l != [] {
      assert l == [l[0]] + l[1..];
      ClaimAllIs(l[1..], Claim(status, l[0]), t);
    }
  }

  /** Claiming the head does not change who else is to be woken. */
  lemma ReadyStep(l: seq<Task>, status: map<Task, Status>)
    requires (forall t :: t in l ==> t in status) && NoDup(l) && l != []
    ensures NoDup(l[1..])
    ensures Ready(l, status) == (if Wakeable(status[l[0]]) then [l[0]] else []) + Ready(l[1..], Claim(status, l[0]))
  {
    assert l == [l[0]] + l[1..];
    assert l[0] !in l[1..];
    ReadySame(l[1..], status, Claim(status, l[0]));
  }

  class ConditionVariable {
    var waitList: seq<Task>
    var cvStatus: map<Task, Status>

    ghost predicate Valid()
      reads this
    {
      NoDup(waitList) && forall t :: t in waitList ==> t in cvStatus
    }

    constructor ()
      ensures Valid() && waitList == [] && cvStatus == map[]
    {
      waitList, cvStatus := [], map[];
    }

    /** Pop the first waiter and claim it; the result says whether it is to be made ready. */
    method ClaimFirst() returns (t: Task, won: bool)
      requires Valid() && waitList != []
      modifies this
      ensures Valid() && t == old(waitList)[0] && waitList == old(waitList)[1..]
      ensures won == Wakeable(old(cvStatus)[t]) && cvStatus == Claim(old(cvStatus), t)
    {
      t := waitList[0];
      waitList := waitList[1..];
      var exp := cvStatus[t];
      if exp.Armed? {
        cvStatus := cvStatus[t := Claimed];
      }
      won := exp.Armed? || exp.Plain?;
    }

    /** `notify_one`: a claimed or timed-out waiter at the head uses the notification up. */
    method NotifyOne() returns (ready: seq<Task>)
      requires Valid()
      modifies this
      ensures Valid()
      ensures old(waitList) == [] ==> ready == [] && waitList == [] && cvStatus == old(cvStatus)
      ensures old(waitList) != [] ==>
        var t := old(waitList)[0];
        && waitList == old(waitList)[1..] && cvStatus == Claim(old(cvStatus), t)
        && ready == if Wakeable(old(cvStatus)[t]) then [t] else []
    {
      ready := [];
      if waitList != [] {
        var t, won := ClaimFirst();
        if won {
          ready := [t];
        }
      }
    }

    /** `notify_all`: empties the list and makes every wakeable waiter ready once, in order. */
    method NotifyAll() returns (ready: seq<Task>)
      requires Valid()
      modifies this
      ensures Valid() && waitList == []
      ensures ready == Ready(old(waitList), old(cvStatus)) && cvStatus == ClaimAll(old(waitList), old(cvStatus))
    {
      hide NoDup, Claim, Wakeable;
      ready := [];
      ghost var result := Ready(waitList, cvStatus);
      while waitList != []
        invariant Valid()
        invariant ready + Ready(waitList, cvStatus) == result
        invariant ClaimAll(waitList, cvStatus) == ClaimAll(old(waitList), old(cvStatus))
        decreases |waitList|
      {
        ReadyStep(waitList, cvStatus);
        var t, won := ClaimFirst();
        if won {
          ready := ready + [t];
        }
      }
    }
  }
}
