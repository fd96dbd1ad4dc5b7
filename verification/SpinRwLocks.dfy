/**
 The spinning reader-writer lock on one atomic integer. Loads and compare-exchanges are separate steps, a weak
 compare-exchange may fail for no reason, and any number of tasks interleave.
*/
module SpinRwLocks {

  import opened Common

  type Task = nat

  const UNLOCK := 0
  const WRITE_LOCK := -1

  /**
   `once` tells `try_lock` from `lock`. A `Cas` place carries the value its load has seen. `Failed` is a failed
   assertion.
  */
  datatype Pc =
    | Out
    | LockLoad(once: bool) | LockCas(once: bool, expected: int) | Writing | UnlockLoad | UnlockCas(expected: int)
    | ShareLoad(once: bool) | ShareCas(once: bool, expected: int) | Reading | UnshareLoad | UnshareCas(expected: int)
    | Failed

  /** `l` is the atomic; `readers` and `writer` are bookkeeping that no step consults. */
  datatype State = State(l: int, pcs: map<Task, Pc>, readers: set<Task>, writer: Option<Task>)

  const Start: State := State(UNLOCK, map[], {}, None)

  function At(s: State, t: Task): Pc
  {
    if t in s.pcs then s.pcs[t] else Out
  }

  predicate HasWrite(p: Pc) { p.Writing? || p.UnlockLoad? || p.UnlockCas? }

  predicate HasRead(p: Pc) { p.Reading? || p.UnshareLoad? || p.UnshareCas? }

  /** `Call` picks the operation of a task that is outside; `Go` is its next atomic access or its next call. */
  datatype Step = Call(task: Task, exclusive: bool, once: bool) | Go(task: Task, spurious: bool)

  predicate Enabled(s: State, step: Step)
  {
    match step
    case Call(t, _, _) => At(s, t) == Out
    case Go(t, _) => At(s, t) != Out && At(s, t) != Failed
  }

  function Move(s: State, t: Task, p: Pc): State
  {
    s.(pcs := s.pcs[t := p])
  }

  function Apply(s: State, step: Step): State
  {
    match step
    case Call(t, exclusive, once) => Move(s, t, if exclusive then LockLoad(once) else ShareLoad(once))
    case Go(t, spurious) => Advance(s, t, spurious)
  }

  function Advance(s: State, t: Task, spurious: bool): State
  {
    match At(s, t)
    case Out => s
    case Failed => s
    case LockLoad(once) =>
      Move(s, t, if s.l == UNLOCK then LockCas(once, s.l) else if once then Out else LockLoad(once))
    case LockCas(once, expected) =>
      if s.l == expected && !spurious then Move(s.(l := WRITE_LOCK, writer := Some(t)), t, Writing)
      else Move(s, t, if once then Out else LockLoad(once))
    case Writing => Move(s, t, UnlockLoad)
    case UnlockLoad => Move(s, t, if s.l == WRITE_LOCK then UnlockCas(s.l) else Failed)
    case UnlockCas(expected) =>
      if s.l == expected && !spurious then Move(s.(l := UNLOCK, writer := None), t, Out)
      else Move(s, t, UnlockLoad)
    case ShareLoad(once) =>
      Move(s, t, if s.l >= 0 then ShareCas(once, s.l) else if once then Out else ShareLoad(once))
    case ShareCas(once, expected) =>
      if s.l == expected && !spurious then Move(s.(l := 1 + expected, readers := s.readers + {t}), t, Reading)
      else Move(s, t, if once then Out else ShareLoad(once))
    case Reading => Move(s, t, UnshareLoad)
    case UnshareLoad => Move(s, t, if s.l > 0 then UnshareCas(s.l) else Failed)
    case UnshareCas(expected) =>
      if s.l == expected && !spurious then Move(s.(l := expected - 1, readers := s.readers - {t}), t, Out)
      else Move(s, t, UnshareLoad)
  }

  /** What a place knows: the value a load has accepted, and that no assertion has failed. */
  predicate PlaceOk(p: Pc)
  {
    && !p.Failed?
    && (p.LockCas? ==> p.expected == UNLOCK)
    && (p.UnlockCas? ==> p.expected == WRITE_LOCK)
    && (p.ShareCas? ==> p.expected >= 0)
    && (p.UnshareCas? ==> p.expected > 0)
  }

  /** The integer says exactly who is inside. */
  predicate ValueOk(s: State)
  {
    || (s.l == WRITE_LOCK && s.writer.Some? && s.readers == {})
    || (s.l == |s.readers| && s.writer.None?)
  }

  predicate TaskOk(s: State, t: Task)
  {
    && PlaceOk(At(s, t))
    && (HasWrite(At(s, t)) <==> s.writer == Some(t))
    && (HasRead(At(s, t)) <==> t in s.readers)
  }

  ghost predicate Inv(s: State)
  {
    ValueOk(s) && forall t :: TaskOk(s, t)
  }

  lemma StepTask(s: State, step: Step)
    requires ValueOk(s) && TaskOk(s, step.task) && Enabled(s, step)
    ensures ValueOk(Apply(s, step)) && TaskOk(Apply(s, step), step.task)
  {
    hide Advance;
    match step
    case Call(_, _, _) =>
    case Go(t, spurious) =>
      if AtExclusive(At(s, t)) {
        ExclusiveKeeps(s, t, spurious);
      } else {
        SharedKeeps(s, t, spurious);
      }
  }

  predicate AtExclusive(p: Pc)
  {
    p.LockLoad? || p.LockCas? || p.Writing? || p.UnlockLoad? || p.UnlockCas?
  }

  lemma ExclusiveKeeps(s: State, t: Task, spurious: bool)
    requires ValueOk(s) && TaskOk(s, t) && AtExclusive(At(s, t))
    ensures var r := Advance(s, t, spurious); ValueOk(r) && TaskOk(r, t)
  {
    Resized(s.readers, t);
  }

  lemma SharedKeeps(s: State, t: Task, spurious: bool)
    requires ValueOk(s) && TaskOk(s, t) && !AtExclusive(At(s, t))
    ensures var r := Advance(s, t, spurious); ValueOk(r) && TaskOk(r, t)
  {
    Resized(s.readers, t);
  }

  lemma Resized(r: set<Task>, t: Task)
    ensures if t in r then |r - {t}| == |r| - 1 else |r + {t}| == |r| + 1
    ensures |r| == 0 <==> r == {}
  {
  }

  /** A step leaves every other task where it is, and inside or not as it was. */
  lemma OthersKept(s: State, step: Step, u: Task)
    requires ValueOk(s) && TaskOk(s, step.task) && TaskOk(s, u) && Enabled(s, step) && u != step.task
    ensures TaskOk(Apply(s, step), u)
  {
    var r := Apply(s, step);
    assert At(r, u) == At(s, u);
  }

  lemma StepKept(s: State, step: Step)
    requires Inv(s) && Enabled(s, step)
    ensures Inv(Apply(s, step))
  {
    hide TaskOk, Apply, Enabled;
    var r := Apply(s, step);
    StepTask(s, step);
    forall u
      ensures TaskOk(r, u)
    {
      if u != step.task { OthersKept(s, step, u); }
    }
  }

  predicate IsRun(states: seq<State>, steps: seq<Step>)
  {
    && |states| == |steps| + 1
    && states[0] == Start
    && (forall k :: 0 <= k < |steps| ==> Enabled(states[k], steps[k]) && states[k + 1] == Apply(states[k], steps[k]))
  }

  lemma {:induction false} RunKept(states: seq<State>, steps: seq<Step>, k: nat)
    requires IsRun(states, steps) && k < |states|
    ensures Inv(states[k])
  {
    if k > 0 {
      RunKept(states, steps, k - 1);
      StepKept(states[k - 1], steps[k - 1]);
    }
  }

  /** In every run a writer is alone inside, and no assertion of `unlock` or `unlock_shared` fails. */
  lemma SpinExclusion(states: seq<State>, steps: seq<Step>, k: nat, t: Task, u: Task)
    requires IsRun(states, steps) && k < |states|
    ensures !At(states[k], t).Failed?
    ensures HasWrite(At(states[k], t)) && u != t ==> !HasWrite(At(states[k], u)) && !HasRead(At(states[k], u))
  {
    RunKept(states, steps, k);
    var s := states[k];
    assert TaskOk(s, t) && TaskOk(s, u);
  }

  /** The integer is -1 exactly while a writer is inside, and otherwise the number of readers inside. */
  lemma SpinValue(states: seq<State>, steps: seq<Step>, k: nat)
    requires IsRun(states, steps) && k < |states|
    ensures var s := states[k];
      && (s.l == WRITE_LOCK <==> exists t :: HasWrite(At(s, t)))
      && (s.l != WRITE_LOCK ==> s.l == |s.readers| && forall t :: t in s.readers <==> HasRead(At(s, t)))
  {
    RunKept(states, steps, k);
    var s := states[k];
    forall t: Task
      ensures HasWrite(At(s, t)) <==> s.writer == Some(t)
      ensures t in s.readers <==> HasRead(At(s, t))
    {
      assert TaskOk(s, t);
    }
    if s.l == WRITE_LOCK {
      assert HasWrite(At(s, s.writer.value));
    }
  }

  /** Nobody can disturb a writer's `unlock`: its compare-exchange fails only spuriously. */
  lemma UnlockSucceeds(states: seq<State>, steps: seq<Step>, k: nat, t: Task)
    requires IsRun(states, steps) && k < |states| && At(states[k], t).UnlockCas?
    ensures var r := Apply(states[k], Go(t, false)); At(r, t) == Out && r.l == UNLOCK
  {
    RunKept(states, steps, k);
    assert TaskOk(states[k], t);
  }

  // ---- What each step does, said of who is inside -----------------------------------------------

  predicate Idle(s: State)
  {
    s.writer.None? && s.readers == {}
  }

  /** A failed attempt goes round again, or gives up when it was only to be tried once. */
  function Again(once: bool, load: Pc): Pc
  {
    if once then Out else load
  }

  /** Nobody gets in or out. */
  predicate SameInside(s: State, r: State)
  {
    r.l == s.l && r.readers == s.readers && r.writer == s.writer
  }

  ghost predicate Acts(s: State, step: Step, r: State)
  {
    var t := step.task; var p, n := At(s, t), At(r, t);
    && (forall u :: u != t ==> At(r, u) == At(s, u))
    && match step
       case Call(_, exclusive, once) => SameInside(s, r) && n == if exclusive then LockLoad(once) else ShareLoad(once)
       case Go(_, spurious) =>
         match p
         case LockLoad(once) => SameInside(s, r) && n == if Idle(s) then LockCas(once, 0) else Again(once, p)
         case LockCas(once, _) =>
           if Idle(s) && !spurious then n == Writing && r.writer == Some(t) && r.readers == {} && r.l == -1
           else SameInside(s, r) && n == Again(once, LockLoad(once))
         case Writing => SameInside(s, r) && n == UnlockLoad
         case UnlockLoad => SameInside(s, r) && n == UnlockCas(-1)
         case UnlockCas(_) =>
           if spurious then SameInside(s, r) && n == UnlockLoad else n == Out && Idle(r) && r.l == 0
         case ShareLoad(once) =>
           SameInside(s, r) && n == if s.writer.None? then ShareCas(once, |s.readers|) else Again(once, p)
         case ShareCas(once, seen) =>
           if s.writer.None? && |s.readers| == seen && !spurious then
             n == Reading && r.writer.None? && r.readers == s.readers + {t} && r.l == |s.readers| + 1
           else SameInside(s, r) && n == Again(once, ShareLoad(once))
         case Reading => SameInside(s, r) && n == UnshareLoad
         case UnshareLoad => SameInside(s, r) && n == UnshareCas(|s.readers|)
         case UnshareCas(seen) =>
           if |s.readers| == seen && !spurious then
             n == Out && r.writer.None? && r.readers == s.readers - {t} && r.l == |s.readers| - 1
           else SameInside(s, r) && n == UnshareLoad
         case _ => true
  }

  /** The loads and compare-exchanges on the integer decide exactly as if they saw who is inside. */
  lemma EveryStepActs(states: seq<State>, steps: seq<Step>, k: nat)
    requires IsRun(states, steps) && k < |steps|
    ensures Acts(states[k], steps[k], states[k + 1])
  {
    hide Apply, Acts, Enabled;
    RunKept(states, steps, k);
    StepActs(states[k], steps[k]);
  }

  lemma StepActs(s: State, step: Step)
    requires Inv(s) && Enabled(s, step)
    ensures Acts(s, step, Apply(s, step))
  {
    assert ValueOk(s) && TaskOk(s, step.task);
    hide Inv, TaskOk, ValueOk, Advance;
    match step
    case Call(_, _, _) =>
    case Go(t, spurious) =>
      if AtExclusive(At(s, t)) {
        ExclusiveActs(s, t, spurious);
      } else {
        SharedActs(s, t, spurious);
      }
  }

  /** What the value means. */
  lemma ValueMeans(s: State)
    requires ValueOk(s)
    ensures s.l == 0 <==> Idle(s)
    ensures s.l >= 0 <==> s.writer.None?
    ensures s.writer.None? ==> s.l == |s.readers|
    ensures s.writer.Some? ==> s.l == -1 && s.readers == {}
  {
    Resized(s.readers, 0);
  }

  lemma ExclusiveActs(s: State, t: Task, spurious: bool)
    requires ValueOk(s) && TaskOk(s, t) && AtExclusive(At(s, t))
    ensures Acts(s, Go(t, spurious), Advance(s, t, spurious))
  {
    ValueMeans(s);
    hide ValueOk;
  }

  lemma SharedActs(s: State, t: Task, spurious: bool)
    requires ValueOk(s) && TaskOk(s, t) && !AtExclusive(At(s, t))
    ensures Acts(s, Go(t, spurious), Advance(s, t, spurious))
  {
    ValueMeans(s);
    Resized(s.readers, t);
    hide ValueOk;
  }

  /** Without interference two steps lock an idle lock and two more unlock it, and it is as before. */
  lemma WriteRoundTrip(s: State, t: Task, once: bool)
    requires Inv(s) && Idle(s) && At(s, t) == Out
    ensures var a := Advance(Advance(Apply(s, Call(t, true, once)), t, false), t, false);
      && At(a, t) == Writing && a.l == -1
      && var b := Advance(Advance(Advance(a, t, false), t, false), t, false);
      && At(b, t) == Out && SameInside(s, b)
  {
    var a0 := Apply(s, Call(t, true, once));
    var a1 := Advance(a0, t, false);
    var a := Advance(a1, t, false);
    assert At(a1, t) == LockCas(once, 0);
    var b1 := Advance(a, t, false);
    var b2 := Advance(b1, t, false);
    assert At(b1, t) == UnlockLoad && At(b2, t) == UnlockCas(-1);
  }

  /** Readers share: two steps let a reader in beside any number of others. */
  lemma ReadersShare(s: State, t: Task, once: bool)
    requires Inv(s) && s.writer.None? && At(s, t) == Out
    ensures var a := Advance(Advance(Apply(s, Call(t, false, once)), t, false), t, false);
      At(a, t) == Reading && a.l == s.l + 1 && a.readers == s.readers + {t}
  {
    var a0 := Apply(s, Call(t, false, once));
    var a1 := Advance(a0, t, false);
    assert At(a1, t) == ShareCas(once, s.l);
  }
}
