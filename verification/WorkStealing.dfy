/**
 Work stealing and task switching by any number of workers, as a machine whose steps are the locked
 sections of the source. A yielding task is back in a queue while its stack is still in use, and a task
 being stolen is for a moment in no queue at all.
 `EndTask` is one step.
*/
module WorkStealing {
  import opened Common
  import opened StealQueue

  type Worker = nat
  type Id = nat

  datatype Kind = SharedStack | OwnStack

  datatype Status = Ready | Finished | Running

  /** `startedBy` records the worker that first ran the task. */
  datatype Task = Task(kind: Kind, status: Status, stealable: bool, home: Worker, startedBy: Option<Worker>)

  datatype Phase =
    | Idle                                              // in the main loop, on no task's stack
    | Executing(task: Id)
    | Leaving(task: Id)                                 // in `SwapOut`, still on the task's stack
    | Switching(from: Option<Id>, to: Option<Id>)       // the next task is popped, `EndTask` is to come

  datatype State = State(
    tasks: map<Id, Task>,
    queues: map<Worker, seq<Id>>,
    phase: map<Worker, Phase>,
    hand: map<Worker, seq<Id>>,                          // stolen, not yet put in the thief's queue
    waiting: set<Id>)

  // ---- Steps ----------------------------------------------------------------------------------

  datatype Step =
    | Create(task: Id, kind: Kind, worker: Worker)
    | Yield(worker: Worker)
    | Wait(worker: Worker)
    | Finish(worker: Worker)
    | Notify(task: Id)
    | Pop(worker: Worker)
    | Stop(worker: Worker)
    | EndTask(worker: Worker)
    | StealTake(worker: Worker, victim: Worker)
    | StealPut(worker: Worker)

  predicate WellFormed(s: State)
  {
    s.queues.Keys == s.phase.Keys == s.hand.Keys
  }

  function StealableIn(s: State, w: Worker): set<Id>
    requires w in s.queues
  {
    set t | t in s.queues[w] && t in s.tasks && s.tasks[t].stealable
  }

  /** The worker is looking for a task. */
  predicate Looking(s: State, w: Worker)
  {
    w in s.phase && w in s.hand && (s.phase[w].Idle? || s.phase[w].Leaving?) && s.hand[w] == []
  }

  predicate Enabled(s: State, step: Step)
  {
    WellFormed(s) &&
    match step
    case Create(t, _, w) => t !in s.tasks && t !in s.waiting && w in s.queues
    case Yield(w) =>
      && w in s.phase && s.phase[w].Executing?
      && s.phase[w].task in s.tasks && s.tasks[s.phase[w].task].home in s.queues
    case Wait(w) => w in s.phase && s.phase[w].Executing?
    case Finish(w) => w in s.phase && s.phase[w].Executing? && s.phase[w].task in s.tasks
    case Notify(t) => t in s.waiting && t in s.tasks && s.tasks[t].home in s.queues
    case Pop(w) => Looking(s, w) && s.queues[w] != [] && s.queues[w][0] in s.tasks
    case Stop(w) => Looking(s, w) && s.phase[w].Leaving?
    case EndTask(w) =>
      w in s.phase && s.phase[w].Switching? && (s.phase[w].from.Some? ==> s.phase[w].from.value in s.tasks)
    case StealTake(w, v) => Looking(s, w) && v in s.queues && v != w
    case StealPut(w) =>
      && w in s.phase && (s.phase[w].Idle? || s.phase[w].Leaving?)
      && (forall t :: t in s.hand[w] ==> t in s.tasks)
  }

  /** `Steal` on every task in the thief's hand. */
  function Rehomed(tasks: map<Id, Task>, moved: seq<Id>, w: Worker): map<Id, Task>
  {
    map t | t in tasks :: if t in moved && tasks[t].stealable then tasks[t].(home := w) else tasks[t]
  }

  /** A new task, in the queue of a worker. */
  function DoCreate(s: State, t: Id, kind: Kind, w: Worker): State
    requires Enabled(s, Create(t, kind, w))
  {
    s.(tasks := s.tasks[t := Task(kind, Ready, true, w, None)], queues := s.queues[w := s.queues[w] + [t]])
  }

  /** `ctask::Yield`: enable the running task, then look for the next one. */
  function DoYield(s: State, w: Worker): State
    requires Enabled(s, Yield(w))
  {
    var t := s.phase[w].task;
    var h := s.tasks[t].home;
    s.(tasks := s.tasks[t := s.tasks[t].(status := Ready)], queues := s.queues[h := s.queues[h] + [t]],
        phase := s.phase[w := Leaving(t)])
  }

  /** The running task puts itself on a wait list. */
  function DoWait(s: State, w: Worker): State
    requires Enabled(s, Wait(w))
  {
    s.(waiting := s.waiting + {s.phase[w].task}, phase := s.phase[w := Leaving(s.phase[w].task)])
  }

  /** The running task is done. */
  function DoFinish(s: State, w: Worker): State
    requires Enabled(s, Finish(w))
  {
    var t := s.phase[w].task;
    s.(tasks := s.tasks[t := s.tasks[t].(status := Finished)], phase := s.phase[w := Leaving(t)])
  }

  /** `EnableImmediately` on a waiting task, by anyone. */
  function DoNotify(s: State, t: Id): State
    requires Enabled(s, Notify(t))
  {
    var h := s.tasks[t].home;
    s.(tasks := s.tasks[t := s.tasks[t].(status := Ready)], queues := s.queues[h := [t] + s.queues[h]],
        waiting := s.waiting - {t})
  }

  /** The end of `GetNextTask`: the front of the worker's own queue; its own task goes on without a switch. */
  function DoPop(s: State, w: Worker): State
    requires Enabled(s, Pop(w))
  {
    var u := s.queues[w][0];
    var started := if s.tasks[u].startedBy.None? then Some(w) else s.tasks[u].startedBy;
    s.(tasks := s.tasks[u := s.tasks[u].(stealable := false, status := Running, startedBy := started)],
       queues := s.queues[w := s.queues[w][1..]],
       phase := s.phase[w :=
         if s.phase[w] == Leaving(u) then Executing(u)
         else Switching(if s.phase[w].Leaving? then Some(s.phase[w].task) else None, Some(u))])
  }

  /** `GetNextTask` returns nothing on shutdown: back to the main loop. */
  function DoStop(s: State, w: Worker): State
    requires Enabled(s, Stop(w))
  {
    s.(phase := s.phase[w := Switching(Some(s.phase[w].task), None)])
  }

  /** `CleanupPreviousTask`, on the stack of the next task. */
  function DoEndTask(s: State, w: Worker): State
    requires Enabled(s, EndTask(w))
  {
    var p := s.phase[w];
    var tasks :=
      if p.from.None? then s.tasks
      else if s.tasks[p.from.value].status == Finished then s.tasks - {p.from.value}
      else if s.tasks[p.from.value].kind.OwnStack? then
        s.tasks[p.from.value := s.tasks[p.from.value].(stealable := true)]
      else s.tasks;
    s.(tasks := tasks, phase := s.phase[w := if p.to.Some? then Executing(p.to.value) else Idle])
  }

  /** The first half of `StealFrom`, under the victim's lock. */
  function DoStealTake(s: State, w: Worker, v: Worker): State
    requires Enabled(s, StealTake(w, v))
  {
    var (kept, taken) := TakeLast(s.queues[v], StealableIn(s, v), StealCount(s.queues[v], StealableIn(s, v)));
    s.(queues := s.queues[v := kept], hand := s.hand[w := taken])
  }

  /** The second half of `StealFrom`, under the thief's lock. */
  function DoStealPut(s: State, w: Worker): State
    requires Enabled(s, StealPut(w))
  {
    s.(tasks := Rehomed(s.tasks, s.hand[w], w), queues := s.queues[w := Reverse(s.hand[w]) + s.queues[w]],
        hand := s.hand[w := []])
  }

  function Apply(s: State, step: Step): State
    requires Enabled(s, step)
  {
    match step
    case Create(t, kind, w) => DoCreate(s, t, kind, w)
    case Yield(w) => DoYield(s, w)
    case Wait(w) => DoWait(s, w)
    case Finish(w) => DoFinish(s, w)
    case Notify(t) => DoNotify(s, t)
    case Pop(w) => DoPop(s, w)
    case Stop(w) => DoStop(s, w)
    case EndTask(w) => DoEndTask(s, w)
    case StealTake(w, v) => DoStealTake(s, w, v)
    case StealPut(w) => DoStealPut(s, w)
  }

  // ---- Invariant ------------------------------------------------------------------------------

  predicate OnStack(s: State, w: Worker, t: Id)
    requires w in s.phase
  {
    match s.phase[w]
    case Idle => false
    case Executing(u) => t == u
    case Leaving(u) => t == u
    case Switching(from, to) => from == Some(t) || to == Some(t)
  }

  /** A task on the stack of worker `w`. */
  predicate Mine(s: State, w: Worker, t: Id)
  {
    t in s.tasks && s.tasks[t].home == w && !s.tasks[t].stealable && s.tasks[t].startedBy.Some?
  }

  /** A task that `w` runs or is about to run: on no list. */
  predicate Active(s: State, w: Worker, t: Id)
    requires w in s.queues
  {
    Mine(s, w, t) && s.tasks[t].status == Running && t !in s.queues[w] && t !in s.waiting
  }

  predicate StackOk(s: State, w: Worker)
    requires WellFormed(s) && w in s.phase
  {
    match s.phase[w]
    case Idle => true
    case Executing(t) => Active(s, w, t)
    case Leaving(t) => Mine(s, w, t)
    case Switching(from, to) =>
      && (from.Some? ==> Mine(s, w, from.value))
      && (to.Some? ==> Active(s, w, to.value))
      && (from.Some? || to.Some?) && from != to
  }

  predicate QueueOk(s: State, w: Worker)
    requires w in s.queues
  {
    && NoDup(s.queues[w])
    && (forall t :: t in s.queues[w] ==>
          t in s.tasks && s.tasks[t].home == w && s.tasks[t].status == Ready && t !in s.waiting)
  }

  predicate HandOk(s: State, w: Worker)
    requires WellFormed(s) && w in s.hand
  {
    && NoDup(s.hand[w])
    && (s.hand[w] != [] ==> s.phase[w].Idle? || s.phase[w].Leaving?)
    && (forall t :: t in s.hand[w] ==>
          && t in s.tasks && s.tasks[t].stealable && s.tasks[t].status == Ready && t !in s.waiting
          && s.tasks[t].home in s.queues && t !in s.queues[s.tasks[t].home])
  }

  predicate TaskOk(s: State, t: Id)
    requires t in s.tasks
  {
    && s.tasks[t].home in s.queues
    && (s.tasks[t].kind.SharedStack? && s.tasks[t].startedBy.Some? ==>
        !s.tasks[t].stealable && s.tasks[t].startedBy == Some(s.tasks[t].home))
    && (t in s.waiting ==> s.tasks[t].status == Running)
  }

  predicate Inv(s: State)
  {
    && WellFormed(s)
    && (forall t :: t in s.waiting ==> t in s.tasks)
    && (forall t :: t in s.tasks ==> TaskOk(s, t))
    && (forall w :: w in s.queues ==> QueueOk(s, w))
    && (forall w :: w in s.hand ==> HandOk(s, w))
    && (forall w :: w in s.phase ==> StackOk(s, w))
    && (forall w, v, t :: w in s.hand && v in s.hand && w != v && t in s.hand[w] ==> t !in s.hand[v])
  }

  /** The pool before any task exists. */
  predicate Initial(s: State)
  {
    && WellFormed(s) && s.tasks == map[] && s.waiting == {}
    && (forall w :: w in s.queues ==> s.queues[w] == [] && s.hand[w] == [] && s.phase[w] == Idle)
  }

  lemma InitialInv(s: State)
    requires Initial(s)
    ensures Inv(s)
  {
  }

  // ---- Every step keeps it --------------------------------------------------------------------

  lemma NoDupSnoc(l: seq<Id>, t: Id)
    requires NoDup(l) && t !in l
    ensures NoDup(l + [t]) && NoDup([t] + l)
  {
  }

  lemma NoDupTail(l: seq<Id>)
    requires NoDup(l) && l != []
    ensures NoDup(l[1..]) && l[0] !in l[1..]
    ensures forall t :: t in l <==> t == l[0] || t in l[1..]
  {
    assert l == [l[0]] + l[1..];
  }

  /** A step of worker `w` about its task `t`: everything else is as before. */
  ghost predicate OnlyAbout(s: State, r: State, w: Worker, t: Id)
  {
    && WellFormed(s) && WellFormed(r) && w in s.queues
    && r.queues.Keys == s.queues.Keys && r.hand == s.hand
    && (forall x :: x in s.queues && x != w ==> r.queues[x] == s.queues[x] && r.phase[x] == s.phase[x])
    && (forall u :: u != t && u in r.queues[w] ==> u in s.queues[w])
    && (forall u :: u != t && u in r.tasks ==> u in s.tasks && r.tasks[u] == s.tasks[u])
    && (forall u :: u != t && u in s.tasks ==> u in r.tasks)
    && (forall u :: u != t ==> (u in r.waiting <==> u in s.waiting))
    && (t in s.tasks ==> s.tasks[t].home == w)
  }

  lemma OthersKeep(s: State, r: State, w: Worker, t: Id, x: Worker)
    requires OnlyAbout(s, r, w, t) && x in s.queues && x != w
    requires QueueOk(s, x) && HandOk(s, x) && StackOk(s, x) && t !in s.hand[x]
    ensures QueueOk(r, x) && HandOk(r, x) && StackOk(r, x)
  {
    hide NoDup;
  }

  lemma HandKeeps(s: State, r: State, w: Worker, t: Id)
    requires OnlyAbout(s, r, w, t) && HandOk(s, w) && t !in s.hand[w]
    requires s.hand[w] != [] ==> r.phase[w].Idle? || r.phase[w].Leaving?
    ensures HandOk(r, w)
  {
    hide NoDup;
  }

  lemma TasksKeep(s: State, r: State, w: Worker, t: Id, u: Id)
    requires OnlyAbout(s, r, w, t) && u in s.tasks && u != t && TaskOk(s, u)
    ensures u in r.tasks && TaskOk(r, u)
  {
  }

  /** So it is enough to look at `w` and `t`. */
  lemma EnoughToCheck(s: State, r: State, w: Worker, t: Id)
    requires Inv(s) && OnlyAbout(s, r, w, t)
    requires forall y :: y in s.hand ==> t !in s.hand[y]
    requires t in r.tasks ==> TaskOk(r, t)
    requires t in r.waiting ==> t in r.tasks
    requires QueueOk(r, w) && StackOk(r, w)
    requires s.hand[w] != [] ==> r.phase[w].Idle? || r.phase[w].Leaving?
    ensures Inv(r)
  {
    hide QueueOk, HandOk, StackOk, TaskOk;
    forall x | x in r.queues ensures QueueOk(r, x) && HandOk(r, x) && StackOk(r, x) {
      assert QueueOk(s, x) && HandOk(s, x) && StackOk(s, x);
      if x == w {
        HandKeeps(s, r, w, t);
      } else {
        OthersKeep(s, r, w, t, x);
      }
    }
    forall u | u in r.tasks ensures TaskOk(r, u) {
      if u != t {
        assert TaskOk(s, u);
        TasksKeep(s, r, w, t, u);
      }
    }
  }

  /** A task that is not stealable, waits or is new is in no thief's hand. */
  lemma NotInHand(s: State, t: Id)
    requires Inv(s) && (t in s.tasks ==> !s.tasks[t].stealable || t in s.waiting || t in s.queues[s.tasks[t].home])
    ensures forall y :: y in s.hand ==> t !in s.hand[y]
  {
    forall y | y in s.hand ensures t !in s.hand[y] {
      assert HandOk(s, y);
    }
  }

  lemma InvAt(s: State, w: Worker)
    requires Inv(s) && w in s.queues
    ensures WellFormed(s) && QueueOk(s, w) && HandOk(s, w) && StackOk(s, w)
  {
    hide QueueOk, HandOk, StackOk, TaskOk;
  }

  lemma InvTask(s: State, t: Id)
    requires Inv(s) && t in s.tasks
    ensures TaskOk(s, t)
  {
    hide QueueOk, HandOk, StackOk, TaskOk;
  }

  lemma CreateKeeps(s: State, t: Id, kind: Kind, w: Worker)
    requires Inv(s) && Enabled(s, Create(t, kind, w))
    ensures Inv(DoCreate(s, t, kind, w))
  {
    hide Inv, NoDup;
    InvAt(s, w);
    NoDupSnoc(s.queues[w], t);
    NotInHand(s, t);
    EnoughToCheck(s, DoCreate(s, t, kind, w), w, t);
  }

  lemma YieldKeeps(s: State, w: Worker)
    requires Inv(s) && Enabled(s, Yield(w))
    ensures Inv(DoYield(s, w))
  {
    hide Inv, NoDup;
    var t := s.phase[w].task;
    InvAt(s, w);
    InvTask(s, t);
    NoDupSnoc(s.queues[w], t);
    NotInHand(s, t);
    EnoughToCheck(s, DoYield(s, w), w, t);
  }

  lemma WaitKeeps(s: State, w: Worker)
    requires Inv(s) && Enabled(s, Wait(w))
    ensures Inv(DoWait(s, w))
  {
    hide Inv, NoDup;
    var t := s.phase[w].task;
    InvAt(s, w);
    InvTask(s, t);
    NotInHand(s, t);
    EnoughToCheck(s, DoWait(s, w), w, t);
  }

  lemma FinishKeeps(s: State, w: Worker)
    requires Inv(s) && Enabled(s, Finish(w))
    ensures Inv(DoFinish(s, w))
  {
    hide Inv, NoDup;
    var t := s.phase[w].task;
    InvAt(s, w);
    InvTask(s, t);
    NotInHand(s, t);
    EnoughToCheck(s, DoFinish(s, w), w, t);
  }

  lemma NotifyKeeps(s: State, t: Id)
    requires Inv(s) && Enabled(s, Notify(t))
    ensures Inv(DoNotify(s, t))
  {
    hide Inv, NoDup;
    var w := s.tasks[t].home;
    InvTask(s, t);
    InvAt(s, w);
    NoDupSnoc(s.queues[w], t);
    NotInHand(s, t);
    EnoughToCheck(s, DoNotify(s, t), w, t);
  }

  lemma PopKeeps(s: State, w: Worker)
    requires Inv(s) && Enabled(s, Pop(w))
    ensures Inv(DoPop(s, w))
  {
    hide Inv, NoDup;
    var u := s.queues[w][0];
    InvAt(s, w);
    NoDupTailOf(s, w);
    InvTask(s, u);
    NotInHand(s, u);
    EnoughToCheck(s, DoPop(s, w), w, u);
  }

  lemma NoDupTailOf(s: State, w: Worker)
    requires Inv(s) && w in s.queues && s.queues[w] != []
    ensures NoDup(s.queues[w][1..]) && s.queues[w][0] !in s.queues[w][1..]
    ensures forall t :: t in s.queues[w] <==> t == s.queues[w][0] || t in s.queues[w][1..]
  {
    assert QueueOk(s, w);
    NoDupTail(s.queues[w]);
  }

  lemma StopKeeps(s: State, w: Worker)
    requires Inv(s) && Enabled(s, Stop(w))
    ensures Inv(DoStop(s, w))
  {
    hide Inv, NoDup;
    var t := s.phase[w].task;
    InvAt(s, w);
    InvTask(s, t);
    NotInHand(s, t);
    EnoughToCheck(s, DoStop(s, w), w, t);
  }

  lemma EndTaskKeeps(s: State, w: Worker)
    requires Inv(s) && Enabled(s, EndTask(w))
    ensures Inv(DoEndTask(s, w))
  {
    hide Inv, NoDup;
    InvAt(s, w);
    var p := s.phase[w];
    var t := if p.from.Some? then p.from.value else p.to.value;
    InvTask(s, t);
    NotInHand(s, t);
    EnoughToCheck(s, DoEndTask(s, w), w, t);
  }

  // ---- Stealing -------------------------------------------------------------------------------

  lemma {:induction false} NoDupAtMostOnce(l: seq<Id>, t: Id)
    requires NoDup(l)
    ensures multiset(l)[t] <= 1
  {
    if l != [] {
      assert l == [l[0]] + l[1..];
      assert l[0] !in l[1..];
      NoDupAtMostOnce(l[1..], t);
    }
  }

  lemma AtMostOnceNoDup(l: seq<Id>)
    requires forall t :: multiset(l)[t] <= 1
    ensures NoDup(l)
  {
    forall i, j | 0 <= i < j < |l| ensures l[i] != l[j] {
      assert l == l[..j] + l[j..];
      assert l[..j][i] == l[i] && l[j..][0] == l[j];
      assert multiset(l)[l[i]] == multiset(l[..j])[l[i]] + multiset(l[j..])[l[i]];
      assert l[i] in multiset(l[..j]) && l[j] in multiset(l[j..]);
    }
  }

  /** Splitting a list without duplicates gives two such lists with nothing in common. */
  lemma SplitNoDup(q: seq<Id>, kept: seq<Id>, taken: seq<Id>)
    requires NoDup(q) && multiset(kept) + multiset(taken) == multiset(q)
    ensures NoDup(kept) && NoDup(taken)
    ensures forall t :: t in q <==> t in kept || t in taken
    ensures forall t :: t in kept ==> t !in taken
  {
    forall t ensures multiset(q)[t] <= 1 { NoDupAtMostOnce(q, t); }
    hide NoDup;
    forall t ensures multiset(kept)[t] <= 1 && multiset(taken)[t] <= 1 && multiset(kept)[t] + multiset(taken)[t] <= 1 {
      assert multiset(q)[t] <= 1;
    }
    AtMostOnceNoDup(kept);
    AtMostOnceNoDup(taken);
    forall t ensures t in q <==> t in kept || t in taken {
      assert t in q <==> t in multiset(q);
    }
    forall t | t in kept ensures t !in taken {
      assert multiset(kept)[t] >= 1;
      assert multiset(kept)[t] + multiset(taken)[t] <= 1;
    }
  }

  lemma NoDupJoin(a: seq<Id>, b: seq<Id>)
    requires NoDup(a) && NoDup(b) && forall t :: t in a ==> t !in b
    ensures NoDup(Reverse(a) + b)
    ensures forall t :: t in Reverse(a) + b <==> t in a || t in b
  {
    ReverseMultiset(a);
    forall t ensures multiset(Reverse(a) + b)[t] <= 1 {
      NoDupAtMostOnce(a, t);
      NoDupAtMostOnce(b, t);
      assert multiset(Reverse(a) + b)[t] == multiset(a)[t] + multiset(b)[t];
      assert t in a <==> t in multiset(a);
      assert t in b <==> t in multiset(b);
    }
    AtMostOnceNoDup(Reverse(a) + b);
  }

  lemma TakeOthers(s: State, r: State, w: Worker, v: Worker, x: Worker)
    requires WellFormed(s) && WellFormed(r) && r.tasks == s.tasks && r.waiting == s.waiting && r.phase == s.phase
    requires v in s.queues && w in s.hand && x in s.queues
    requires r.queues.Keys == s.queues.Keys && forall y :: y in s.queues && y != v ==> r.queues[y] == s.queues[y]
    requires forall t :: t in r.queues[v] ==> t in s.queues[v]
    requires forall y :: y in s.hand && y != w ==> r.hand[y] == s.hand[y]
    requires QueueOk(s, x) && HandOk(s, x) && StackOk(s, x)
    requires NoDup(r.queues[v])
    ensures QueueOk(r, x) && StackOk(r, x)
    ensures x != w ==> HandOk(r, x)
  {
    hide NoDup;
  }

  lemma StealTakeKeeps(s: State, w: Worker, v: Worker)
    requires Inv(s) && Enabled(s, StealTake(w, v))
    ensures Inv(DoStealTake(s, w, v))
  {
    hide Inv, NoDup, TakeLast, StealCount;
    InvAt(s, v);
    InvAt(s, w);
    var q, stealable := s.queues[v], StealableIn(s, v);
    var r := DoStealTake(s, w, v);
    var kept, taken := r.queues[v], r.hand[w];
    TakeLastConserves(q, stealable, StealCount(q, stealable));
    SplitNoDup(q, kept, taken);
    assert HandOk(r, w);
    assert Inv(r) by {
      hide QueueOk, HandOk, StackOk, TaskOk, StealableIn;
      StealTakeRest(s, r, w, v);
    }
  }

  lemma StealTakeRest(s: State, r: State, w: Worker, v: Worker)
    requires Inv(s) && WellFormed(r) && r.tasks == s.tasks && r.waiting == s.waiting && r.phase == s.phase
    requires v in s.queues && w in s.hand
    requires r.queues.Keys == s.queues.Keys && forall y :: y in s.queues && y != v ==> r.queues[y] == s.queues[y]
    requires forall y :: y in s.hand && y != w ==> r.hand[y] == s.hand[y]
    requires forall t :: t in r.queues[v] ==> t in s.queues[v]
    requires forall t :: t in r.hand[w] ==> t in s.queues[v]
    requires NoDup(r.queues[v]) && HandOk(r, w)
    ensures Inv(r)
  {
    hide TaskOk, NoDup;
    forall x | x in r.queues ensures QueueOk(r, x) && HandOk(r, x) && StackOk(r, x) {
      hide Inv, QueueOk, HandOk, StackOk;
      InvAt(s, x);
      TakeOthers(s, r, w, v, x);
    }
    forall t | t in r.tasks ensures TaskOk(r, t) {
      TaskSame(s, r, t);
    }
    forall x, t | x in s.hand && x != w && t in r.hand[w] ensures t !in s.hand[x] {
      hide Inv;
      InvAt(s, v);
      InvAt(s, x);
    }
  }

  lemma TaskSame(s: State, r: State, t: Id)
    requires Inv(s) && t in s.tasks && t in r.tasks && r.tasks[t] == s.tasks[t] && r.queues.Keys == s.queues.Keys &&
        r.waiting == s.waiting
    ensures TaskOk(r, t)
  {
    hide QueueOk, HandOk, StackOk;
    assert TaskOk(s, t);
  }

  lemma StealPutKeeps(s: State, w: Worker)
    requires Inv(s) && Enabled(s, StealPut(w))
    ensures Inv(DoStealPut(s, w))
  {
    hide NoDup, QueueOk, HandOk, StackOk, TaskOk, Rehomed;
    var r := DoStealPut(s, w);
    RehomedKeys(s.tasks, s.hand[w], w);
    forall x | x in r.queues ensures QueueOk(r, x) && HandOk(r, x) && StackOk(r, x) {
      PutOthers(s, w, x);
    }
    forall t | t in r.tasks ensures TaskOk(r, t) {
      PutTask(s, w, t);
    }
  }

  lemma RehomedKeys(tasks: map<Id, Task>, moved: seq<Id>, w: Worker)
    ensures Rehomed(tasks, moved, w).Keys == tasks.Keys
  {
  }

  lemma PutQueue(s: State, w: Worker)
    requires Inv(s) && Enabled(s, StealPut(w))
    ensures NoDup(Reverse(s.hand[w]) + s.queues[w])
    ensures forall t :: t in Reverse(s.hand[w]) + s.queues[w] <==> t in s.hand[w] || t in s.queues[w]
  {
    hide Inv;
    InvAt(s, w);
    NoDupJoin(s.hand[w], s.queues[w]);
  }

  /** Of the tasks that are moved, and of the others. */
  lemma RehomedTask(s: State, w: Worker, t: Id)
    requires Inv(s) && Enabled(s, StealPut(w)) && t in s.tasks
    ensures t in Rehomed(s.tasks, s.hand[w], w)
    ensures Rehomed(s.tasks, s.hand[w], w)[t] == if t in s.hand[w] then s.tasks[t].(home := w) else s.tasks[t]
    ensures t in s.hand[w] ==> s.tasks[t].stealable && t !in s.queues[w]
  {
    hide Inv, NoDup;
    InvAt(s, w);
  }

  lemma PutQueues(s: State, w: Worker, x: Worker)
    requires Inv(s) && Enabled(s, StealPut(w)) && x in s.queues
    ensures QueueOk(DoStealPut(s, w), x)
  {
    hide Inv, NoDup, Rehomed;
    PutQueue(s, w);
    InvAt(s, x);
    InvAt(s, w);
    var r := DoStealPut(s, w);
    forall t | t in r.queues[x]
      ensures t in r.tasks && r.tasks[t].home == x && r.tasks[t].status == Ready && t !in r.waiting
    {
      RehomedTask(s, w, t);
    }
  }

  lemma PutStacks(s: State, w: Worker, x: Worker)
    requires Inv(s) && Enabled(s, StealPut(w)) && x in s.queues
    ensures StackOk(DoStealPut(s, w), x)
  {
    hide Inv, NoDup, Rehomed;
    PutQueue(s, w);
    InvAt(s, x);
    forall t | t in s.tasks && !s.tasks[t].stealable
      ensures t !in s.hand[w] && t in DoStealPut(s, w).tasks && DoStealPut(s, w).tasks[t] == s.tasks[t]
    {
      RehomedTask(s, w, t);
    }
  }

  lemma PutHands(s: State, w: Worker, x: Worker)
    requires Inv(s) && Enabled(s, StealPut(w)) && x in s.queues
    ensures HandOk(DoStealPut(s, w), x)
  {
    hide Inv, NoDup, Rehomed;
    PutQueue(s, w);
    InvAt(s, x);
    NoDupNone();
    if x != w {
      HandsApart(s, w, x);
      forall t | t in s.hand[x] ensures t in DoStealPut(s, w).tasks && DoStealPut(s, w).tasks[t] == s.tasks[t] {
        RehomedTask(s, w, t);
      }
    }
  }

  /** A task that some other list or stack holds is not one of those being moved. */
  lemma PutOthers(s: State, w: Worker, x: Worker)
    requires Inv(s) && Enabled(s, StealPut(w)) && x in s.queues
    ensures WellFormed(DoStealPut(s, w)) && x in DoStealPut(s, w).queues && x in DoStealPut(s, w).hand
    ensures QueueOk(DoStealPut(s, w), x) && HandOk(DoStealPut(s, w), x) && StackOk(DoStealPut(s, w), x)
  {
    hide Inv, QueueOk, HandOk, StackOk;
    PutQueues(s, w, x);
    PutHands(s, w, x);
    PutStacks(s, w, x);
  }

  lemma HandsApart(s: State, w: Worker, x: Worker)
    requires Inv(s) && w in s.hand && x in s.hand && x != w
    ensures forall t :: t in s.hand[x] ==> t !in s.hand[w]
  {
    hide QueueOk, HandOk, StackOk, TaskOk;
  }

  lemma NoDupNone()
    ensures NoDup([])
  {
  }

  lemma PutTask(s: State, w: Worker, t: Id)
    requires Inv(s) && Enabled(s, StealPut(w)) && t in s.tasks
    ensures t in DoStealPut(s, w).tasks && TaskOk(DoStealPut(s, w), t)
  {
    hide Inv, NoDup;
    InvTask(s, t);
    InvAt(s, w);
  }

  // ---- Runs -----------------------------------------------------------------------------------

  lemma StepKeeps(s: State, step: Step)
    requires Inv(s) && Enabled(s, step)
    ensures Inv(Apply(s, step))
  {
    hide Inv, DoCreate, DoYield, DoWait, DoFinish, DoNotify, DoPop, DoStop, DoEndTask, DoStealTake, DoStealPut;
    match step
    case Create(t, kind, w) => CreateKeeps(s, t, kind, w);
    case Yield(w) => YieldKeeps(s, w);
    case Wait(w) => WaitKeeps(s, w);
    case Finish(w) => FinishKeeps(s, w);
    case Notify(t) => NotifyKeeps(s, t);
    case Pop(w) => PopKeeps(s, w);
    case Stop(w) => StopKeeps(s, w);
    case EndTask(w) => EndTaskKeeps(s, w);
    case StealTake(w, v) => StealTakeKeeps(s, w, v);
    case StealPut(w) => StealPutKeeps(s, w);
  }

  /** Any interleaving: each state but the first comes from the one before by an enabled step. */
  predicate IsRun(states: seq<State>, steps: seq<Step>)
  {
    && |states| == |steps| + 1
    && (forall i :: 0 <= i < |steps| ==> Enabled(states[i], steps[i]) && states[i + 1] == Apply(states[i], steps[i]))
  }

  lemma {:induction false} RunKeeps(states: seq<State>, steps: seq<Step>, k: nat)
    requires IsRun(states, steps) && Inv(states[0]) && k < |states|
    ensures Inv(states[k])
  {
    hide Inv, Enabled, Apply;
    if k > 0 {
      RunKeeps(states, steps, k - 1);
      StepKeeps(states[k - 1], steps[k - 1]);
    }
  }

  /**
   Each task is linked at most once, is on at most one worker's stack, and when it is both queued and on a
   stack the queue is that worker's own and the task may not be stolen.
  */
  ghost predicate Safe(s: State)
    requires WellFormed(s)
  {
    && (forall w, t :: w in s.queues ==> multiset(s.queues[w])[t] <= 1)
    && (forall w, v, t :: w in s.queues && v in s.queues && t in s.queues[w] && t in s.queues[v] ==> w == v)
    && (forall w, v, t :: w in s.phase && v in s.phase && OnStack(s, w, t) && OnStack(s, v, t) ==> w == v)
    && (forall w, v, t :: w in s.phase && v in s.queues && OnStack(s, w, t) && t in s.queues[v] ==>
          v == w && t in s.tasks && !s.tasks[t].stealable)
  }

  lemma OnStackIsMine(s: State, w: Worker, t: Id)
    requires Inv(s) && w in s.phase && OnStack(s, w, t)
    ensures WellFormed(s) && Mine(s, w, t)
  {
    assert StackOk(s, w);
  }

  /** In every run from an empty pool, every state is safe. */
  lemma AlwaysSafe(states: seq<State>, steps: seq<Step>, k: nat)
    requires IsRun(states, steps) && Initial(states[0]) && k < |states|
    ensures WellFormed(states[k]) && Safe(states[k])
  {
    hide Enabled, Apply, NoDup, HandOk, StackOk, TaskOk;
    InitialInv(states[0]);
    RunKeeps(states, steps, k);
    var s := states[k];
    forall w, t | w in s.queues ensures multiset(s.queues[w])[t] <= 1 {
      assert QueueOk(s, w);
      NoDupAtMostOnce(s.queues[w], t);
    }
    forall w, t | w in s.phase && OnStack(s, w, t)
      ensures t in s.tasks && s.tasks[t].home == w && !s.tasks[t].stealable
    {
      OnStackIsMine(s, w, t);
    }
    forall w, t | w in s.queues && t in s.queues[w] ensures t in s.tasks && s.tasks[t].home == w {
      assert QueueOk(s, w);
    }
  }

  /** A steal never takes a task whose stack some worker is using. */
  lemma NeverStealsRunning(states: seq<State>, steps: seq<Step>, k: nat, t: Id)
    requires IsRun(states, steps) && Initial(states[0]) && k < |steps| && steps[k].StealTake?
    requires t in states[k + 1].hand[steps[k].worker]
    ensures WellFormed(states[k]) && forall w :: w in states[k].phase ==> !OnStack(states[k], w, t)
  {
    hide Inv, NoDup, TakeLast, StealCount;
    InitialInv(states[0]);
    RunKeeps(states, steps, k);
    var s, v := states[k], steps[k].victim;
    TakeLastConserves(s.queues[v], StealableIn(s, v), StealCount(s.queues[v], StealableIn(s, v)));
    forall w | w in s.phase ensures !OnStack(s, w, t) {
      if OnStack(s, w, t) {
        OnStackIsMine(s, w, t);
        assert false;
      }
    }
  }

  /** The source's assertion in `Enable` and `EnableImmediately`: a task made ready is linked nowhere. */
  lemma EnabledTaskIsUnlinked(states: seq<State>, steps: seq<Step>, k: nat, t: Id)
    requires IsRun(states, steps) && Initial(states[0]) && k < |steps|
    requires steps[k] == Notify(t) || (steps[k].Yield? && states[k].phase[steps[k].worker].task == t)
    ensures forall w :: w in states[k].queues ==> t !in states[k].queues[w]
    ensures WellFormed(states[k]) && forall w :: w in states[k].hand ==> t !in states[k].hand[w]
  {
    hide Inv, NoDup;
    InitialInv(states[0]);
    RunKeeps(states, steps, k);
    var s := states[k];
    InvTask(s, t);
    InvAt(s, s.tasks[t].home);
    if steps[k].Yield? {
      InvAt(s, steps[k].worker);
    }
    NotInHand(s, t);
    forall w | w in s.queues ensures t !in s.queues[w] {
      InvAt(s, w);
    }
  }

  lemma StartedStays(s: State, step: Step, t: Id)
    requires Enabled(s, step) && t in s.tasks && t in Apply(s, step).tasks && s.tasks[t].startedBy.Some?
    ensures Apply(s, step).tasks[t].kind == s.tasks[t].kind && Apply(s, step).tasks[t].startedBy == s.tasks[t].startedBy
  {
  }

  /** Once a shared-stack task has started, only the worker that started it ever has it on its stack or in its queue. */
  lemma {:induction false} SharedStackStays(states: seq<State>, steps: seq<Step>, i: nat, k: nat, t: Id)
    requires IsRun(states, steps) && Initial(states[0]) && i <= k < |states|
    requires forall j :: i <= j <= k ==> t in states[j].tasks
    requires states[i].tasks[t].kind.SharedStack? && states[i].tasks[t].startedBy.Some?
    ensures WellFormed(states[k])
    ensures states[k].tasks[t].kind.SharedStack? && states[k].tasks[t].startedBy == states[i].tasks[t].startedBy
    ensures forall w :: w in states[k].phase && OnStack(states[k], w, t) ==> Some(w) == states[i].tasks[t].startedBy
    ensures forall w :: w in states[k].queues && t in states[k].queues[w] ==> Some(w) == states[i].tasks[t].startedBy
    decreases k - i
  {
    hide Inv, Enabled, Apply, NoDup;
    InitialInv(states[0]);
    RunKeeps(states, steps, k);
    var s := states[k];
    if i < k {
      SharedStackStays(states, steps, i, k - 1, t);
      assert t in states[k - 1].tasks;
      StartedStays(states[k - 1], steps[k - 1], t);
    }
    InvTask(s, t);
    InvAt(s, s.tasks[t].home);
    forall w | w in s.phase && OnStack(s, w, t) ensures Some(w) == states[i].tasks[t].startedBy {
      OnStackIsMine(s, w, t);
    }
    forall w | w in s.queues && t in s.queues[w] ensures Some(w) == states[i].tasks[t].startedBy {
      InvAt(s, w);
    }
  }

  // ---- No task is lost ------------------------------------------------------------------------

  predicate RunsAt(s: State, w: Worker, t: Id)
    requires w in s.phase
  {
    s.phase[w] == Executing(t) || (s.phase[w].Switching? && s.phase[w].to == Some(t))
  }

  predicate LeavesAt(s: State, w: Worker, t: Id)
    requires w in s.phase
  {
    s.phase[w] == Leaving(t) || (s.phase[w].Switching? && s.phase[w].from == Some(t))
  }

  /**
   Something will still find the task: a list, the worker that runs it, or, once it is finished, its last cleanup.
  */
  predicate Located(s: State, t: Id)
    requires WellFormed(s) && t in s.tasks && s.tasks[t].home in s.queues
  {
    var h := s.tasks[t].home;
    || t in s.waiting || t in s.queues[h] || (exists w :: w in s.hand && t in s.hand[w])
    || RunsAt(s, h, t) || (s.tasks[t].status == Finished && LeavesAt(s, h, t))
  }

  predicate AllLocated(s: State)
  {
    WellFormed(s) && forall t :: t in s.tasks ==> s.tasks[t].home in s.queues && Located(s, t)
  }

  /** A step of worker `w` about its own task moves no other task out of reach. */
  lemma OthersLocated(s: State, r: State, w: Worker, t: Id, u: Id)
    requires OnlyAbout(s, r, w, t) && u != t && u in s.tasks && u in r.tasks
    requires s.tasks[u].home in s.queues && Located(s, u)
    requires u in s.queues[w] ==> u in r.queues[w]
    requires RunsAt(s, w, u) ==> RunsAt(r, w, u)
    requires s.tasks[u].status == Finished && LeavesAt(s, w, u) ==> LeavesAt(r, w, u)
    ensures r.tasks[u].home in r.queues && Located(r, u)
  {
    if x :| x in s.hand && u in s.hand[x] {
      assert x in r.hand && u in r.hand[x];
    }
  }

  lemma StepLocates(s: State, step: Step)
    requires Inv(s) && AllLocated(s) && Enabled(s, step)
    ensures AllLocated(Apply(s, step))
  {
    hide Inv, Located, DoCreate, DoYield, DoWait, DoFinish, DoNotify, DoPop, DoStop, DoEndTask, DoStealTake, DoStealPut;
    match step
    case Create(t, kind, w) => CreateLocates(s, t, kind, w);
    case Yield(w) => YieldLocates(s, w);
    case Wait(w) => WaitLocates(s, w);
    case Finish(w) => FinishLocates(s, w);
    case Notify(t) => NotifyLocates(s, t);
    case Pop(w) => PopLocates(s, w);
    case Stop(w) => StopLocates(s, w);
    case EndTask(w) => EndTaskLocates(s, w);
    case StealTake(w, v) => StealTakeLocates(s, w, v);
    case StealPut(w) => StealPutLocates(s, w);
  }

  lemma CreateLocates(s: State, t: Id, kind: Kind, w: Worker)
    requires Inv(s) && AllLocated(s) && Enabled(s, Create(t, kind, w))
    ensures AllLocated(DoCreate(s, t, kind, w))
  {
    hide Inv;
    var r := DoCreate(s, t, kind, w);
    forall u | u in r.tasks ensures r.tasks[u].home in r.queues && Located(r, u) {
      if u != t {
        hide Located;
        OthersLocated(s, r, w, t, u);
      }
    }
  }

  lemma YieldLocates(s: State, w: Worker)
    requires Inv(s) && AllLocated(s) && Enabled(s, Yield(w))
    ensures AllLocated(DoYield(s, w))
  {
    hide Inv, NoDup;
    InvAt(s, w);
    var r, t := DoYield(s, w), s.phase[w].task;
    forall u | u in r.tasks ensures r.tasks[u].home in r.queues && Located(r, u) {
      if u != t {
        hide Located;
        OthersLocated(s, r, w, t, u);
      }
    }
  }

  lemma WaitLocates(s: State, w: Worker)
    requires Inv(s) && AllLocated(s) && Enabled(s, Wait(w))
    ensures AllLocated(DoWait(s, w))
  {
    hide Inv, NoDup;
    InvAt(s, w);
    var r, t := DoWait(s, w), s.phase[w].task;
    forall u | u in r.tasks ensures r.tasks[u].home in r.queues && Located(r, u) {
      if u != t {
        hide Located;
        OthersLocated(s, r, w, t, u);
      }
    }
  }

  lemma FinishLocates(s: State, w: Worker)
    requires Inv(s) && AllLocated(s) && Enabled(s, Finish(w))
    ensures AllLocated(DoFinish(s, w))
  {
    hide Inv, NoDup;
    InvAt(s, w);
    var r, t := DoFinish(s, w), s.phase[w].task;
    forall u | u in r.tasks ensures r.tasks[u].home in r.queues && Located(r, u) {
      if u != t {
        hide Located;
        OthersLocated(s, r, w, t, u);
      }
    }
  }

  lemma NotifyLocates(s: State, t: Id)
    requires Inv(s) && AllLocated(s) && Enabled(s, Notify(t))
    ensures AllLocated(DoNotify(s, t))
  {
    hide Inv;
    var r, w := DoNotify(s, t), s.tasks[t].home;
    forall u | u in r.tasks ensures r.tasks[u].home in r.queues && Located(r, u) {
      if u != t {
        hide Located;
        OthersLocated(s, r, w, t, u);
      }
    }
  }

  lemma PopLocates(s: State, w: Worker)
    requires Inv(s) && AllLocated(s) && Enabled(s, Pop(w))
    ensures AllLocated(DoPop(s, w))
  {
    hide Inv, NoDup;
    InvAt(s, w);
    NoDupTailOf(s, w);
    var r, t := DoPop(s, w), s.queues[w][0];
    forall u | u in r.tasks ensures r.tasks[u].home in r.queues && Located(r, u) {
      if u != t {
        hide Located;
        OthersLocated(s, r, w, t, u);
      }
    }
  }

  lemma StopLocates(s: State, w: Worker)
    requires Inv(s) && AllLocated(s) && Enabled(s, Stop(w))
    ensures AllLocated(DoStop(s, w))
  {
    hide Inv;
    var r := DoStop(s, w);
    forall u | u in r.tasks ensures r.tasks[u].home in r.queues && Located(r, u) {
      assert Located(s, u);
    }
  }

  /** The task left behind is finished, and gone, or some list has it. */
  lemma EndTaskLocates(s: State, w: Worker)
    requires Inv(s) && AllLocated(s) && Enabled(s, EndTask(w))
    ensures AllLocated(DoEndTask(s, w))
  {
    hide Inv, NoDup;
    InvAt(s, w);
    var r := DoEndTask(s, w);
    forall u | u in r.tasks ensures r.tasks[u].home in r.queues && Located(r, u) {
      assert Located(s, u);
    }
  }

  lemma StealTakeLocates(s: State, w: Worker, v: Worker)
    requires Inv(s) && AllLocated(s) && Enabled(s, StealTake(w, v))
    ensures AllLocated(DoStealTake(s, w, v))
  {
    hide Inv, TakeLast, StealCount;
    var r := DoStealTake(s, w, v);
    var q := s.queues[v];
    TakeLastConserves(q, StealableIn(s, v), StealCount(q, StealableIn(s, v)));
    forall u | u in r.tasks ensures r.tasks[u].home in r.queues && Located(r, u) {
      assert Located(s, u);
      if u in q {
        assert u in multiset(q);
        assert u in r.queues[v] || u in r.hand[w];
      }
      if x :| x in s.hand && u in s.hand[x] {
        assert x in r.hand && u in r.hand[x];
      }
    }
  }

  lemma StealPutLocates(s: State, w: Worker)
    requires Inv(s) && AllLocated(s) && Enabled(s, StealPut(w))
    ensures AllLocated(DoStealPut(s, w))
  {
    hide Inv, NoDup, Rehomed;
    var r := DoStealPut(s, w);
    PutQueue(s, w);
    RehomedKeys(s.tasks, s.hand[w], w);
    forall u | u in r.tasks ensures r.tasks[u].home in r.queues && Located(r, u) {
      assert Located(s, u);
      RehomedTask(s, w, u);
      if x :| x in s.hand && u in s.hand[x] && u !in s.hand[w] {
        assert x in r.hand && u in r.hand[x];
      }
    }
  }

  /**
   No task is ever lost: in every run each live task waits, is queued at its home worker, is in a thief's hand, runs,
   or is finished and about to be deleted; so it is always in a queue, in a hand, on a stack or waiting.
  */
  lemma {:induction false} NoTaskLost(states: seq<State>, steps: seq<Step>, k: nat)
    requires IsRun(states, steps) && Initial(states[0]) && k < |states|
    ensures AllLocated(states[k])
    ensures forall t :: t in states[k].tasks ==>
      var s := states[k];
      || t in s.waiting
      || exists w :: w in s.queues && (t in s.queues[w] || t in s.hand[w] || OnStack(s, w, t))
  {
    hide Inv, Enabled, Apply;
    if k > 0 {
      NoTaskLost(states, steps, k - 1);
      InitialInv(states[0]);
      RunKeeps(states, steps, k - 1);
      StepLocates(states[k - 1], steps[k - 1]);
    }
    var s := states[k];
    forall t | t in s.tasks && t !in s.waiting
      ensures exists w :: w in s.queues && (t in s.queues[w] || t in s.hand[w] || OnStack(s, w, t))
    {
      assert Located(s, t);
      if x :| x in s.hand && t in s.hand[x] {
        assert x in s.queues && t in s.hand[x];
      } else {
        assert s.tasks[t].home in s.queues;
      }
    }
  }
}
