/**
 The fair reader-writer lock built from three one-permit semaphores: `q` is the turnstile, `c` guards the reader
 count, `w` is held by the writer or by the readers as a group. Every step is one locked section of a semaphore
 or one access to the count, and the steps of any number of tasks interleave freely.
*/
module ReaderWriterFairs {

  import opened Semaphores

  /** Where a task stands, named by the action it performs next. */
  datatype Pc =
    | Out
    | ReadWaitQ | ReadWaitC | ReadCount | ReadWaitW | ReadSignalC | ReadSignalQ | Reading
    | UnreadWaitC | UnreadCount | UnreadSignalW | UnreadSignalC
    | WriteWaitQ | WriteWaitW | WriteSignalQ | Writing

  datatype Gate = Q | C | W

  datatype Owner = Nobody | Readers | One(task: Task)

  /** One of the semaphores, and, as bookkeeping no step consults, who holds its permit. */
  datatype Held = Held(sem: Sem, owner: Owner)

  /** `counted` is bookkeeping too: the tasks that `rCount` stands for. */
  datatype Lock = Lock(q: Held, c: Held, w: Held, rCount: int, counted: set<Task>, pcs: map<Task, Pc>)

  const Unheld: Held := Held(Sem(1, [], {}), Nobody)

  const Fresh: Lock := Lock(Unheld, Unheld, Unheld, 0, {}, map[])

  function At(l: Lock, t: Task): Pc
  {
    if t in l.pcs then l.pcs[t] else Out
  }

  function HeldOf(l: Lock, g: Gate): Held
  {
    match g case Q => l.q case C => l.c case W => l.w
  }

  function SemOf(l: Lock, g: Gate): Sem
  {
    HeldOf(l, g).sem
  }

  /** The task is at a `Wait` of the semaphore. */
  predicate Wants(g: Gate, p: Pc)
  {
    match g
    case Q => p.ReadWaitQ? || p.WriteWaitQ?
    case C => p.ReadWaitC? || p.UnreadWaitC?
    case W => p.ReadWaitW? || p.WriteWaitW?
  }

  /** The task holds the semaphore's permit for itself. */
  predicate Holds(g: Gate, p: Pc)
  {
    match g
    case Q =>
      || p.ReadWaitC? || p.ReadCount? || p.ReadWaitW? || p.ReadSignalC? || p.ReadSignalQ?
      || p.WriteWaitW? || p.WriteSignalQ?
    case C => p.ReadCount? || p.ReadWaitW? || p.ReadSignalC? || p.UnreadCount? || p.UnreadSignalW? || p.UnreadSignalC?
    case W => HasWrite(p)
  }

  predicate Counted(p: Pc)
  {
    p.ReadWaitW? || p.ReadSignalC? || p.ReadSignalQ? || p.Reading? || p.UnreadWaitC? || p.UnreadCount?
  }

  /** The task may read: it is past the acquisition and has not yet given up its count. */
  predicate HasRead(p: Pc)
  {
    Counted(p) && !p.ReadWaitW?
  }

  /** The task may write. */
  predicate HasWrite(p: Pc)
  {
    p.WriteSignalQ? || p.Writing?
  }

  // ---- Steps ----------------------------------------------------------------------------------

  datatype Step = BeginRead(task: Task) | BeginWrite(task: Task) | Go(task: Task)

  predicate Asleep(l: Lock, t: Task)
  {
    t in l.q.sem.waiting || t in l.c.sem.waiting || t in l.w.sem.waiting
  }

  predicate Enabled(l: Lock, step: Step)
  {
    match step
    case Go(t) => At(l, t) != Out && !Asleep(l, t)
    case _ => At(l, step.task) == Out
  }

  function Move(l: Lock, t: Task, p: Pc): Lock
  {
    l.(pcs := l.pcs[t := p])
  }

  function Put(l: Lock, g: Gate, h: Held): Lock
  {
    match g case Q => l.(q := h) case C => l.(c := h) case W => l.(w := h)
  }

  /** One locked section of a semaphore's `Wait`. */
  function Pass(l: Lock, g: Gate, t: Task, owner: Owner, next: Pc): Lock
  {
    var (sem, granted) := Check(SemOf(l, g), t);
    if granted then Move(Put(l, g, Held(sem, owner)), t, next)
    else Put(l, g, Held(sem, HeldOf(l, g).owner))
  }

  /** A semaphore's `Signal`. */
  function Leave(l: Lock, g: Gate, t: Task, next: Pc): Lock
  {
    Move(Put(l, g, Held(Signal(SemOf(l, g)), Nobody)), t, next)
  }

  function Advance(l: Lock, t: Task): Lock
  {
    match At(l, t)
    case Out => l
    case ReadWaitQ => Pass(l, Q, t, One(t), ReadWaitC)
    case ReadWaitC => Pass(l, C, t, One(t), ReadCount)
    case ReadCount =>
      Move(l.(rCount := l.rCount + 1, counted := l.counted + {t}), t,
           if l.rCount + 1 == 1 then ReadWaitW else ReadSignalC)
    case ReadWaitW => Pass(l, W, t, Readers, ReadSignalC)
    case ReadSignalC => Leave(l, C, t, ReadSignalQ)
    case ReadSignalQ => Leave(l, Q, t, Reading)
    case Reading => Move(l, t, UnreadWaitC)
    case UnreadWaitC => Pass(l, C, t, One(t), UnreadCount)
    case UnreadCount =>
      Move(l.(rCount := l.rCount - 1, counted := l.counted - {t}), t,
           if l.rCount - 1 == 0 then UnreadSignalW else UnreadSignalC)
    case UnreadSignalW => Leave(l, W, t, UnreadSignalC)
    case UnreadSignalC => Leave(l, C, t, Out)
    case WriteWaitQ => Pass(l, Q, t, One(t), WriteWaitW)
    case WriteWaitW => Pass(l, W, t, One(t), WriteSignalQ)
    case WriteSignalQ => Leave(l, Q, t, Writing)
    case Writing => Leave(l, W, t, Out)
  }

  function Apply(l: Lock, step: Step): Lock
  {
    match step
    case BeginRead(t) => Move(l, t, ReadWaitQ)
    case BeginWrite(t) => Move(l, t, WriteWaitQ)
    case Go(t) => Advance(l, t)
  }

  // ---- The invariant --------------------------------------------------------------------------

  ghost predicate GateInv(l: Lock, g: Gate)
  {
    var h := HeldOf(l, g);
    && Inv(h.sem)
    && h.sem.count == (if h.owner == Nobody then 1 else 0)
    && (forall t :: Holds(g, At(l, t)) <==> h.owner == One(t))
    && (forall t :: t in h.sem.waiting || t in h.sem.woken ==> Wants(g, At(l, t)))
  }

  /** The readers hold `w` as a group exactly while somebody is counted, except around the first and last of them. */
  predicate GroupOk(l: Lock)
  {
    if l.c.owner.One? && At(l, l.c.owner.task).ReadWaitW? then l.w.owner != Readers && l.counted == {l.c.owner.task}
    else if l.c.owner.One? && At(l, l.c.owner.task).UnreadSignalW? then l.w.owner == Readers && l.counted == {}
    else l.w.owner == Readers <==> l.counted != {}
  }

  ghost predicate CountOk(l: Lock)
  {
    && |l.counted| == l.rCount
    && (forall t :: Counted(At(l, t)) <==> t in l.counted)
  }

  ghost predicate LockInv(l: Lock)
  {
    && GateInv(l, Q) && GateInv(l, C) && GateInv(l, W)
    && l.q.owner != Readers && l.c.owner != Readers
    && CountOk(l) && GroupOk(l)
  }

  /** Every way in which a step of task `t` can affect one semaphore. */
  predicate Affects(l: Lock, r: Lock, t: Task, g: Gate)
  {
    var h, k := HeldOf(l, g), HeldOf(r, g);
    var p, n := At(l, t), At(r, t);
    || (k == h && (Holds(g, n) <==> Holds(g, p)) && (Wants(g, p) ==> Wants(g, n)))
    || (Wants(g, p) && t !in h.sem.waiting && k.sem == Check(h.sem, t).0 &&
        if h.sem.count > 0 then !Wants(g, n) && k.owner == (if Holds(g, n) then One(t) else Readers)
        else n == p && k.owner == h.owner)
    || (k == Held(Signal(h.sem), Nobody) && !Wants(g, p) && !Holds(g, n) &&
        h.owner == (if Holds(g, p) then One(t) else Readers))
  }

  /** What the invariant says of one task, and of the permits of `c` and `w`. */
  predicate TaskOk(l: Lock, t: Task)
  {
    && (Holds(Q, At(l, t)) <==> l.q.owner == One(t))
    && (Holds(C, At(l, t)) <==> l.c.owner == One(t))
    && (Holds(W, At(l, t)) <==> l.w.owner == One(t))
    && (Counted(At(l, t)) <==> t in l.counted)
    && l.c.sem.count == (if l.c.owner == Nobody then 1 else 0)
    && l.w.sem.count == (if l.w.owner == Nobody then 1 else 0)
  }

  lemma InvTask(l: Lock, t: Task)
    requires LockInv(l)
    ensures TaskOk(l, t) && GroupOk(l) && l.rCount == |l.counted|
  {
  }

  lemma StepAffects(l: Lock, step: Step, g: Gate)
    requires TaskOk(l, step.task) && GroupOk(l) && Enabled(l, step)
    ensures Affects(l, Apply(l, step), step.task, g)
  {
    hide Signal;
    match g case Q => case C => case W =>
  }

  lemma AffectedKeeps(l: Lock, r: Lock, t: Task, g: Gate)
    requires GateInv(l, g) && Affects(l, r, t, g)
    requires forall u :: u != t ==> At(r, u) == At(l, u)
    ensures GateInv(r, g)
  {
    hide Inv;
    hide Check;
    hide Signal;
    var s := SemOf(l, g);
    if t !in s.waiting { CheckKeeps(s, t); }
    SignalKeeps(s);
    assert Holds(g, At(l, t)) <==> HeldOf(l, g).owner == One(t);
  }

  /** A step moves only its own task, and changes the count together with what the task's place says of it. */
  lemma StepCounts(l: Lock, step: Step)
    requires TaskOk(l, step.task) && Enabled(l, step)
    ensures var r := Apply(l, step); var t := step.task;
      && (forall u :: u != t ==> At(r, u) == At(l, u))
      && (l.q.owner != Readers && l.c.owner != Readers ==> r.q.owner != Readers && r.c.owner != Readers)
      && (Counted(At(r, t)) <==> t in r.counted)
      && ((r.counted == l.counted && r.rCount == l.rCount)
        || (t !in l.counted && r.counted == l.counted + {t} && r.rCount == l.rCount + 1)
        || (t in l.counted && r.counted == l.counted - {t} && r.rCount == l.rCount - 1))
  {
    hide Signal;
  }

  lemma CountKept(l: Lock, r: Lock, t: Task)
    requires CountOk(l)
    requires forall u :: u != t ==> At(r, u) == At(l, u)
    requires Counted(At(r, t)) <==> t in r.counted
    requires
      || (r.counted == l.counted && r.rCount == l.rCount)
      || (t !in l.counted && r.counted == l.counted + {t} && r.rCount == l.rCount + 1)
      || (t in l.counted && r.counted == l.counted - {t} && r.rCount == l.rCount - 1)
    ensures CountOk(r)
  {
  }

  lemma GroupKept(l: Lock, step: Step)
    requires TaskOk(l, step.task) && GroupOk(l) && l.rCount == |l.counted| && Enabled(l, step)
    ensures GroupOk(Apply(l, step))
  {
    hide Signal;
    var t := step.task;
    assert l.rCount == 0 <==> l.counted == {};
    assert l.counted == {} ==> l.counted + {t} == {t};
    if At(l, t).UnreadCount? {
      assert |l.counted - {t}| == |l.counted| - 1;
      assert l.counted - {t} == {} <==> |l.counted - {t}| == 0;
    }
  }

  lemma StepKept(l: Lock, step: Step)
    requires LockInv(l) && Enabled(l, step)
    ensures LockInv(Apply(l, step))
  {
    hide TaskOk;
    hide GateInv;
    hide Affects;
    hide CountOk;
    hide GroupOk;
    hide Apply;
    hide Enabled;
    hide At;
    var r := Apply(l, step);
    InvTask(l, step.task);
    StepCounts(l, step);
    StepAffects(l, step, Q);
    StepAffects(l, step, C);
    StepAffects(l, step, W);
    AffectedKeeps(l, r, step.task, Q);
    AffectedKeeps(l, r, step.task, C);
    AffectedKeeps(l, r, step.task, W);
    CountKept(l, r, step.task);
    GroupKept(l, step);
  }

  // ---- Whole runs -----------------------------------------------------------------------------

  predicate IsLockRun(locks: seq<Lock>, steps: seq<Step>)
  {
    && |locks| == |steps| + 1
    && locks[0] == Fresh
    && (forall k :: 0 <= k < |steps| ==> Enabled(locks[k], steps[k]) && locks[k + 1] == Apply(locks[k], steps[k]))
  }

  lemma {:induction false} RunKept(locks: seq<Lock>, steps: seq<Step>, k: nat)
    requires IsLockRun(locks, steps) && k < |locks|
    ensures LockInv(locks[k])
  {
    hide LockInv;
    if k == 0 {
      FreshInv();
    } else {
      RunKept(locks, steps, k - 1);
      StepKept(locks[k - 1], steps[k - 1]);
    }
  }

  lemma FreshInv()
    ensures LockInv(Fresh)
  {
  }

  /** A writer is alone: no other writer is inside and no reader is. */
  lemma Exclusion(locks: seq<Lock>, steps: seq<Step>, k: nat, t: Task, u: Task)
    requires IsLockRun(locks, steps) && k < |locks|
    requires HasWrite(At(locks[k], t)) && t != u
    ensures !HasWrite(At(locks[k], u)) && !HasRead(At(locks[k], u))
  {
    RunKept(locks, steps, k);
    var l := locks[k];
    assert l.w.owner == One(t);
    if l.c.owner.One? { assert Holds(C, At(l, l.c.owner.task)); }
    assert Counted(At(l, u)) <==> u in l.counted;
  }

  /**
   `rwMutex` is taken exactly when a writer is inside, or readers are counted and the first is past its wait, or
   the last is about to signal; and `rCount` is the number of readers counted.
  */
  lemma TakenExactly(locks: seq<Lock>, steps: seq<Step>, k: nat)
    requires IsLockRun(locks, steps) && k < |locks|
    ensures var l := locks[k];
      && l.w.sem.count == (if
          || (exists t :: HasWrite(At(l, t)))
          || (l.rCount > 0 && !exists t :: At(l, t).ReadWaitW?)
          || (exists t :: At(l, t).UnreadSignalW?) then 0 else 1)
      && l.rCount == |l.counted| && forall t :: t in l.counted <==> Counted(At(l, t))
  {
    RunKept(locks, steps, k);
    var l := locks[k];
    assert l.counted == {} <==> l.rCount == 0;
    if t :| At(l, t).ReadWaitW? {
      assert Holds(C, At(l, t));
      assert l.c.owner == One(t);
    }
    if t :| At(l, t).UnreadSignalW? {
      assert Holds(C, At(l, t));
      assert l.c.owner == One(t);
    }
    if l.w.owner.One? {
      assert HasWrite(At(l, l.w.owner.task));
    }
  }

  // ---- No deadlock ----------------------------------------------------------------------------

  /** The task is awake and its next step takes it to another place, not back to sleep. */
  predicate CanAdvance(l: Lock, t: Task)
  {
    Enabled(l, Go(t)) && At(Advance(l, t), t) != At(l, t)
  }

  /** Somebody can advance when `w` is contended. */
  lemma WMoves(l: Lock) returns (u: Task)
    requires LockInv(l) && (l.w.sem.waiting != [] || l.w.sem.count == 0)
    ensures CanAdvance(l, u)
  {
    if l.w.sem.count > 0 {
      u := FreePermitIsClaimed(l.w.sem);
      assert Wants(W, At(l, u));
      return;
    }
    match l.w.owner
    case One(t) =>
      u := t;
      assert HasWrite(At(l, u));
    case Readers =>
      if l.c.owner.One? {
        u := l.c.owner.task;
        assert Holds(C, At(l, u));
      } else {
        u :| u in l.counted;
        assert Counted(At(l, u)) && !Holds(C, At(l, u));
        if u in l.c.sem.waiting {
          u := FreePermitIsClaimed(l.c.sem);
          assert Wants(C, At(l, u));
        }
      }
  }

  /** Somebody can advance when `c` is contended. */
  lemma CMoves(l: Lock) returns (u: Task)
    requires LockInv(l) && (l.c.sem.waiting != [] || l.c.sem.count == 0)
    ensures CanAdvance(l, u)
  {
    if l.c.sem.count > 0 {
      u := FreePermitIsClaimed(l.c.sem);
      assert Wants(C, At(l, u));
      return;
    }
    u := l.c.owner.task;
    assert Holds(C, At(l, u));
    if At(l, u).ReadWaitW? && (l.w.sem.count == 0 || u in l.w.sem.waiting) {
      u := WMoves(l);
    }
  }

  /** Somebody can advance when `q` is contended. */
  lemma QMoves(l: Lock) returns (u: Task)
    requires LockInv(l) && (l.q.sem.waiting != [] || l.q.sem.count == 0)
    ensures CanAdvance(l, u)
  {
    if l.q.sem.count > 0 {
      u := FreePermitIsClaimed(l.q.sem);
      assert Wants(Q, At(l, u));
      return;
    }
    u := l.q.owner.task;
    assert Holds(Q, At(l, u));
    if Wants(W, At(l, u)) && (l.w.sem.count == 0 || u in l.w.sem.waiting) {
      u := WMoves(l);
    } else if At(l, u).ReadWaitC? && (l.c.sem.count == 0 || u in l.c.sem.waiting) {
      u := CMoves(l);
    }
  }

  /** No deadlock: in every reachable state with a task anywhere in the lock, some task can advance. */
  lemma NoDeadlock(locks: seq<Lock>, steps: seq<Step>, k: nat, t: Task) returns (u: Task)
    requires IsLockRun(locks, steps) && k < |locks|
    requires At(locks[k], t) != Out
    ensures CanAdvance(locks[k], u)
  {
    RunKept(locks, steps, k);
    var l := locks[k];
    u := t;
    if Wants(W, At(l, t)) && (l.w.sem.count == 0 || t in l.w.sem.waiting) {
      u := WMoves(l);
    } else if Wants(C, At(l, t)) && (l.c.sem.count == 0 || t in l.c.sem.waiting) {
      u := CMoves(l);
    } else if Wants(Q, At(l, t)) && (l.q.sem.count == 0 || t in l.q.sem.waiting) {
      u := QMoves(l);
    }
  }

  /** A sleeping task is somewhere in the lock, so while any task is blocked some task can advance. */
  lemma BlockedImpliesProgress(locks: seq<Lock>, steps: seq<Step>, k: nat, t: Task) returns (u: Task)
    requires IsLockRun(locks, steps) && k < |locks| && Asleep(locks[k], t)
    ensures CanAdvance(locks[k], u)
  {
    RunKept(locks, steps, k);
    u := NoDeadlock(locks, steps, k, t);
  }

  // ---- What each step does --------------------------------------------------------------------

  /** Where the code goes from a place, when it does not sleep; the two branches test the count as it has become. */
  function Follows(p: Pc, rCount: int): Pc
  {
    match p
    case Out => Out
    case ReadWaitQ => ReadWaitC
    case ReadWaitC => ReadCount
    case ReadCount => if rCount == 1 then ReadWaitW else ReadSignalC
    case ReadWaitW => ReadSignalC
    case ReadSignalC => ReadSignalQ
    case ReadSignalQ => Reading
    case Reading => UnreadWaitC
    case UnreadWaitC => UnreadCount
    case UnreadCount => if rCount == 0 then UnreadSignalW else UnreadSignalC
    case UnreadSignalW => UnreadSignalC
    case UnreadSignalC => Out
    case WriteWaitQ => WriteWaitW
    case WriteWaitW => WriteSignalQ
    case WriteSignalQ => Writing
    case Writing => Out
  }

  /** The semaphores a place signals. */
  predicate Signals(g: Gate, p: Pc)
  {
    match g
    case Q => p.ReadSignalQ? || p.WriteSignalQ?
    case C => p.ReadSignalC? || p.UnreadSignalC?
    case W => p.UnreadSignalW? || p.Writing?
  }

  /** A task at a wait takes the permit or goes to sleep behind all others there. */
  predicate GateActs(g: Gate, s: Sem, p: Pc, t: Task, r: Sem)
  {
    if Wants(g, p) then
      if s.count > 0 then r == Sem(s.count - 1, s.waiting, s.woken - {t})
      else r == Sem(s.count, s.waiting + [t], s.woken - {t})
    else if Signals(g, p) then
      if s.waiting == [] then r == Sem(s.count + 1, [], s.woken)
      else r == Sem(s.count + 1, s.waiting[1..], s.woken + {s.waiting[0]})
    else r == s
  }

  /** The task must sleep where it stands. */
  predicate Sleeps(l: Lock, p: Pc)
  {
    exists g :: Wants(g, p) && SemOf(l, g).count <= 0
  }

  ghost predicate LockActs(l: Lock, step: Step, r: Lock)
  {
    var t := step.task;
    && (forall u :: u != t ==> At(r, u) == At(l, u))
    && match step
       case BeginRead(_) => At(r, t) == ReadWaitQ && r == l.(pcs := r.pcs)
       case BeginWrite(_) => At(r, t) == WriteWaitQ && r == l.(pcs := r.pcs)
       case Go(_) =>
         var p := At(l, t);
         && (forall g :: GateActs(g, SemOf(l, g), p, t, SemOf(r, g)))
         && r.rCount == l.rCount + (if p.ReadCount? then 1 else if p.UnreadCount? then -1 else 0)
         && At(r, t) == if Sleeps(l, p) then p else Follows(p, r.rCount)
  }

  /** Every step takes its task to the next place of its routine, or to sleep, and does there what the routine says. */
  lemma EveryLockStepActs(l: Lock, step: Step)
    requires Enabled(l, step)
    ensures LockActs(l, step, Apply(l, step))
  {
    var t := step.task;
    var r := Apply(l, step);
    assert forall u :: u != t ==> At(r, u) == At(l, u);
    if step.Go? {
      forall g ensures GateActs(g, SemOf(l, g), At(l, t), t, SemOf(r, g)) {
        match g case Q => case C => case W =>
      }
      GoPlace(l, t);
    }
  }

  lemma GoPlace(l: Lock, t: Task)
    requires Enabled(l, Go(t))
    ensures var r := Advance(l, t); var p := At(l, t);
      && r.rCount == l.rCount + (if p.ReadCount? then 1 else if p.UnreadCount? then -1 else 0)
      && At(r, t) == if Sleeps(l, p) then p else Follows(p, r.rCount)
  {
    hide Signal;
    var p := At(l, t);
    assert Wants(Q, p) && l.q.sem.count <= 0 ==> Sleeps(l, p) by { assert SemOf(l, Q) == l.q.sem; }
    assert Wants(C, p) && l.c.sem.count <= 0 ==> Sleeps(l, p) by { assert SemOf(l, C) == l.c.sem; }
    assert Wants(W, p) && l.w.sem.count <= 0 ==> Sleeps(l, p) by { assert SemOf(l, W) == l.w.sem; }
  }

  // ---- Getting in and out ---------------------------------------------------------------------

  /** One task alone takes `n` steps. */
  function Steps(l: Lock, t: Task, n: nat): Lock
    decreases n
  {
    if n == 0 then l else Steps(Advance(l, t), t, n - 1)
  }

  predicate Free(s: Sem)
  {
    s.count == 1 && s.waiting == [] && s.woken == {}
  }

  /** Readers share: with other readers inside and nobody on the way, a reader gets in without waiting. */
  lemma ReadersShare(l: Lock, t: Task)
    requires Free(l.q.sem) && Free(l.c.sem) && l.rCount > 0 && At(l, t) == Out
    ensures var r := Steps(Apply(l, BeginRead(t)), t, 5);
      && At(r, t) == Reading && r.rCount == l.rCount + 1
      && r.q.sem == l.q.sem && r.c.sem == l.c.sem && r.w == l.w
  {
    var l0 := Apply(l, BeginRead(t));
    var l1 := Advance(l0, t);
    var l2 := Advance(l1, t);
    var l3 := Advance(l2, t);
    var l4 := Advance(l3, t);
    var l5 := Advance(l4, t);
    assert At(l1, t) == ReadWaitC && At(l2, t) == ReadCount && At(l3, t) == ReadSignalC && At(l4, t) == ReadSignalQ;
    FiveSteps(l0, t);
  }

  lemma FiveSteps(l: Lock, t: Task)
    ensures Steps(l, t, 5) == Advance(Advance(Advance(Advance(Advance(l, t), t), t), t), t)
  {
    hide Advance;
    var a := Advance(l, t);
    var b := Advance(a, t);
    var c := Advance(b, t);
    assert Steps(l, t, 5) == Steps(a, t, 4) == Steps(b, t, 3) == Steps(c, t, 2);
    assert Steps(c, t, 2) == Steps(Advance(c, t), t, 1);
    assert Steps(Advance(c, t), t, 1) == Steps(Advance(Advance(c, t), t), t, 0);
  }

  /** Locking for writing and unlocking again leaves the lock as it was. */
  lemma WriteRoundTrip(l: Lock, t: Task)
    requires Free(l.q.sem) && Free(l.w.sem) && At(l, t) == Out
    ensures var l1 := Advance(Advance(Advance(Apply(l, BeginWrite(t)), t), t), t);
      && At(l1, t) == Writing && l1.w.sem.count == 0 && l1.q.sem == l.q.sem
      && var r := Advance(l1, t);
      && At(r, t) == Out && r.q.sem == l.q.sem && r.c == l.c && r.w.sem == l.w.sem && r.rCount == l.rCount
  {
    var a := Apply(l, BeginWrite(t));
    var b := Advance(a, t);
    var c := Advance(b, t);
    assert At(b, t) == WriteWaitW && At(c, t) == WriteSignalQ;
  }
}
