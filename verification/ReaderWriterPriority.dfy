/**
 The read-priority reader-writer lock over one mutex and two condition variables with Mesa semantics. Every step
 is one section under the mutex: from taking it to releasing it, by leaving or by going to sleep.
*/
module ReaderWriterPriority {

  import Common
  import Semaphores

  type Task = Semaphores.Task

  /** A condition variable: the sleepers in order, and the tasks notified but not yet through their re-check. */
  datatype Queue = Queue(waiting: seq<Task>, woken: set<Task>)

  /** `readCount` and `writeCount` are what the code tests; `readers` and `writers` record who is really inside. */
  datatype Lock = Lock(readCount: int, writeCount: int, readQueue: Queue, writeQueue: Queue,
                       readers: set<Task>, writers: set<Task>)

  const Fresh: Lock := Lock(0, 0, Queue([], {}), Queue([], {}), {}, {})

  /** `notify_one` */
  function Notify(q: Queue): Queue
  {
    if q.waiting == [] then q else Queue(q.waiting[1..], q.woken + {q.waiting[0]})
  }

  function Sleep(q: Queue, t: Task): Queue
  {
    Queue(q.waiting + [t], q.woken - {t})
  }

  /** The predicate loop of `ReadLock`, entered with the mutex held, up to the next release of the mutex. */
  function ReadCheck(l: Lock, t: Task): Lock
  {
    if l.writeCount > 0 then l.(readQueue := Sleep(l.readQueue, t))
    else l.(readQueue := Notify(l.readQueue.(woken := l.readQueue.woken - {t})), readers := l.readers + {t})
  }

  /** The predicate loop of `WriteLock`. */
  function WriteCheck(l: Lock, t: Task): Lock
  {
    if l.readCount > 0 || l.writeCount > 0 then l.(writeQueue := Sleep(l.writeQueue, t))
    else l.(writeCount := l.writeCount + 1, writeQueue := l.writeQueue.(woken := l.writeQueue.woken - {t}),
            writers := l.writers + {t})
  }

  function ReadUnlock(l: Lock, t: Task): Lock
  {
    var r := l.(readCount := l.readCount - 1, readers := l.readers - {t});
    if r.readCount == 0 then r.(writeQueue := Notify(r.writeQueue)) else r
  }

  function WriteUnlock(l: Lock, t: Task): Lock
  {
    var r := l.(writeCount := l.writeCount - 1, writers := l.writers - {t});
    if r.readCount > 0 then r.(readQueue := Notify(r.readQueue)) else r.(writeQueue := Notify(r.writeQueue))
  }

  datatype Step =
    | ReadEnter(task: Task) | ReadRecheck(task: Task) | ReadLeave(task: Task)
    | WriteEnter(task: Task) | WriteRecheck(task: Task) | WriteLeave(task: Task)

  predicate Known(l: Lock, t: Task)
  {
    || t in l.readers || t in l.writers
    || t in l.readQueue.waiting || t in l.readQueue.woken || t in l.writeQueue.waiting || t in l.writeQueue.woken
  }

  predicate Enabled(l: Lock, step: Step)
  {
    match step
    case ReadEnter(t) => !Known(l, t)
    case WriteEnter(t) => !Known(l, t)
    case ReadRecheck(t) => t in l.readQueue.woken
    case WriteRecheck(t) => t in l.writeQueue.woken
    case ReadLeave(t) => t in l.readers
    case WriteLeave(t) => t in l.writers
  }

  function Apply(l: Lock, step: Step): Lock
  {
    match step
    case ReadEnter(t) => ReadCheck(l.(readCount := l.readCount + 1), t)
    case ReadRecheck(t) => ReadCheck(l, t)
    case ReadLeave(t) => ReadUnlock(l, t)
    case WriteEnter(t) => WriteCheck(l, t)
    case WriteRecheck(t) => WriteCheck(l, t)
    case WriteLeave(t) => WriteUnlock(l, t)
  }

  // ---- The invariant --------------------------------------------------------------------------

  predicate QueueOk(q: Queue)
  {
    Common.NoDup(q.waiting) && forall t :: t in q.waiting ==> t !in q.woken
  }

  /** The tasks a condition variable has asleep or on their way to a re-check. */
  function Pending(q: Queue): nat
  {
    |q.waiting| + |q.woken|
  }

  predicate Exclusive(l: Lock)
  {
    |l.writers| <= 1 && (l.writers != {} ==> l.readers == {})
  }

  predicate CountsOk(l: Lock)
  {
    && l.writeCount == |l.writers|
    && l.readCount == |l.readers| + Pending(l.readQueue)
  }

  /** A sleeper whose condition already holds always has a woken task on its way to re-check. */
  predicate NoLostWakeup(l: Lock)
  {
    && (l.readQueue.waiting != [] && l.writeCount == 0 ==> l.readQueue.woken != {})
    && (l.writeQueue.waiting != [] && l.readCount == 0 && l.writeCount == 0 ==> l.writeQueue.woken != {})
  }

  /** A task inside is at neither condition variable. */
  predicate Apart(l: Lock)
  {
    && (forall t :: t in l.readers ==> t !in l.readQueue.waiting && t !in l.readQueue.woken)
    && (forall t :: t in l.writers ==> t !in l.writeQueue.waiting && t !in l.writeQueue.woken)
  }

  predicate LockInv(l: Lock)
  {
    QueueOk(l.readQueue) && QueueOk(l.writeQueue) && Exclusive(l) && CountsOk(l) && Apart(l) && NoLostWakeup(l)
  }

  lemma NotifyKeeps(q: Queue)
    requires QueueOk(q)
    ensures var r := Notify(q);
      && QueueOk(r) && Pending(r) == Pending(q)
      && (forall t :: t in r.waiting || t in r.woken <==> t in q.waiting || t in q.woken)
      && (q.waiting != [] ==> r.woken != {})
      && (r.waiting != [] ==> r.woken != {})
  {
    if q.waiting != [] {
      var t := q.waiting[0];
      assert q.waiting == [t] + q.waiting[1..];
      assert t !in q.waiting[1..];
      assert |q.woken + {t}| == |q.woken| + 1;
    }
  }

  lemma SleepKeeps(q: Queue, t: Task)
    requires QueueOk(q) && t !in q.waiting
    ensures var r := Sleep(q, t);
      && QueueOk(r)
      && Pending(r) == (if t in q.woken then Pending(q) else Pending(q) + 1)
      && (forall u :: u in r.waiting || u in r.woken <==> u == t || u in q.waiting || u in q.woken)
  {
    if t in q.woken {
      assert |q.woken| == |q.woken - {t}| + 1;
    } else {
      assert q.woken - {t} == q.woken;
    }
  }

  lemma PassKeeps(q: Queue, t: Task)
    requires QueueOk(q) && t !in q.waiting
    ensures var r := q.(woken := q.woken - {t});
      && QueueOk(r)
      && Pending(r) == (if t in q.woken then Pending(q) - 1 else Pending(q))
      && (forall u :: u in r.waiting || u in r.woken <==> u != t && (u in q.waiting || u in q.woken))
  {
    if t in q.woken {
      assert |q.woken| == |q.woken - {t}| + 1;
    } else {
      assert q.woken - {t} == q.woken;
    }
  }

  lemma ReadCheckKeeps(l: Lock, t: Task)
    requires QueueOk(l.readQueue) && QueueOk(l.writeQueue) && Exclusive(l) && Apart(l)
    requires l.writeCount == |l.writers|
    requires l.readCount == |l.readers| + Pending(l.readQueue) + (if t in l.readQueue.woken then 0 else 1)
    requires t !in l.readers && t !in l.readQueue.waiting
    ensures LockInv(ReadCheck(l, t))
  {
    hide QueueOk, Notify, Sleep, Pending;
    if l.writeCount > 0 {
      SleepKeeps(l.readQueue, t);
    } else {
      PassKeeps(l.readQueue, t);
      NotifyKeeps(l.readQueue.(woken := l.readQueue.woken - {t}));
      assert |l.readers + {t}| == |l.readers| + 1;
    }
    PendingNatural(ReadCheck(l, t).readQueue);
    PendingNatural(l.readQueue);
  }

  lemma PendingNatural(q: Queue)
    ensures Pending(q) >= |q.waiting| && Pending(q) >= |q.woken|
  {
  }

  lemma WriteCheckKeeps(l: Lock, t: Task)
    requires LockInv(l) && t !in l.writers && t !in l.writeQueue.waiting
    ensures LockInv(WriteCheck(l, t))
  {
    hide QueueOk, Notify, Sleep;
    if l.readCount > 0 || l.writeCount > 0 {
      SleepKeeps(l.writeQueue, t);
    } else {
      PassKeeps(l.writeQueue, t);
      assert l.writers == {};
      assert |l.readers| == 0;
    }
  }

  lemma ReadUnlockKeeps(l: Lock, t: Task)
    requires LockInv(l) && t in l.readers
    ensures LockInv(ReadUnlock(l, t))
  {
    hide QueueOk, Notify;
    assert |l.readers - {t}| == |l.readers| - 1;
    NotifyKeeps(l.writeQueue);
  }

  lemma WriteUnlockKeeps(l: Lock, t: Task)
    requires LockInv(l) && t in l.writers
    ensures LockInv(WriteUnlock(l, t))
  {
    hide QueueOk, Notify;
    assert |l.writers - {t}| == |l.writers| - 1;
    NotifyKeeps(l.readQueue);
    NotifyKeeps(l.writeQueue);
  }

  lemma StepKept(l: Lock, step: Step)
    requires LockInv(l) && Enabled(l, step)
    ensures LockInv(Apply(l, step))
  {
    hide ReadCheck, WriteCheck, ReadUnlock, WriteUnlock;
    match step
    case ReadEnter(t) => ReadCheckKeeps(l.(readCount := l.readCount + 1), t);
    case ReadRecheck(t) => ReadCheckKeeps(l, t);
    case ReadLeave(t) => ReadUnlockKeeps(l, t);
    case WriteEnter(t) => WriteCheckKeeps(l, t);
    case WriteRecheck(t) => WriteCheckKeeps(l, t);
    case WriteLeave(t) => WriteUnlockKeeps(l, t);
  }

  // ---- Whole runs -----------------------------------------------------------------------------

  predicate IsLockRun(locks: seq<Lock>, steps: seq<Step>)
  {
    && |locks| == |steps| + 1
    && locks[0] == Fresh
    && (forall k :: 0 <= k < |steps| ==> Enabled(locks[k], steps[k]) && locks[k + 1] == Apply(locks[k], steps[k]))
  }

  /** In every run a writer is alone inside and no wake-up is lost. */
  lemma {:induction false} LockTheorem(locks: seq<Lock>, steps: seq<Step>, k: nat)
    requires IsLockRun(locks, steps) && k < |locks|
    ensures LockInv(locks[k]) && Exclusive(locks[k]) && NoLostWakeup(locks[k])
  {
    if k > 0 {
      LockTheorem(locks, steps, k - 1);
      StepKept(locks[k - 1], steps[k - 1]);
    }
  }

  /** The step lets its task in, or out. */
  predicate Advances(l: Lock, step: Step)
  {
    && Enabled(l, step)
    && var r := Apply(l, step); (step.task in r.readers + r.writers <==> step.task !in l.readers + l.writers)
  }

  /** No deadlock: while a task sleeps, some task inside can leave or some woken task will get in. */
  lemma SleeperImpliesProgress(locks: seq<Lock>, steps: seq<Step>, k: nat, t: Task) returns (step: Step)
    requires IsLockRun(locks, steps) && k < |locks|
    requires t in locks[k].readQueue.waiting || t in locks[k].writeQueue.waiting
    ensures Advances(locks[k], step)
  {
    LockTheorem(locks, steps, k);
    step := Progress(locks[k], t);
  }

  lemma Progress(l: Lock, t: Task) returns (step: Step)
    requires LockInv(l) && (t in l.readQueue.waiting || t in l.writeQueue.waiting)
    ensures Advances(l, step)
  {
    if l.writeCount > 0 {
      var u :| u in l.writers;
      step := WriteLeave(u);
    } else if l.readers != {} {
      var u :| u in l.readers;
      assert l.writers == {};
      step := ReadLeave(u);
    } else if l.readQueue.woken != {} {
      var u :| u in l.readQueue.woken;
      assert l.writers == {};
      step := ReadRecheck(u);
    } else {
      assert |l.readers| == 0 && |l.readQueue.woken| == 0 && l.readQueue.waiting == [];
      assert l.writeQueue.waiting != [];
      var u :| u in l.writeQueue.woken;
      assert l.writers == {};
      step := WriteRecheck(u);
    }
  }

  // ---- What each step does, said of who is inside -----------------------------------------------

  /** The task that has slept longest is woken, if any sleeps. */
  predicate Wakes(q: Queue, r: Queue)
  {
    if q.waiting == [] then r == q
    else q.waiting == [q.waiting[0]] + r.waiting && r.woken == q.woken + {q.waiting[0]}
  }

  /** The task sleeps behind all others. */
  predicate FallsAsleep(q: Queue, t: Task, r: Queue)
  {
    r.waiting == q.waiting + [t] && r.woken == q.woken - {t}
  }

  /** No reader is inside, asleep or on its way. */
  predicate NoReaders(l: Lock)
  {
    l.readers == {} && l.readQueue.waiting == [] && l.readQueue.woken == {}
  }

  /** A reader gets in exactly when no writer is inside, and passes the wake-up on to the next reader. */
  predicate ReaderAsks(l: Lock, t: Task, r: Lock)
  {
    && r.writers == l.writers && r.writeQueue == l.writeQueue
    && if l.writers == {} then
         r.readers == l.readers + {t} && Wakes(l.readQueue.(woken := l.readQueue.woken - {t}), r.readQueue)
       else
         r.readers == l.readers && FallsAsleep(l.readQueue, t, r.readQueue)
  }

  /** A writer gets in exactly when nobody is inside and no reader wants to be: readers have priority. */
  predicate WriterAsks(l: Lock, t: Task, r: Lock)
  {
    && r.readers == l.readers && r.readQueue == l.readQueue
    && if l.writers == {} && NoReaders(l) then
         r.writers == {t} && r.writeQueue == l.writeQueue.(woken := l.writeQueue.woken - {t})
       else
         r.writers == l.writers && FallsAsleep(l.writeQueue, t, r.writeQueue)
  }

  ghost predicate Acts(l: Lock, step: Step, r: Lock)
  {
    match step
    case ReadEnter(t) => ReaderAsks(l, t, r)
    case ReadRecheck(t) => ReaderAsks(l, t, r)
    case WriteEnter(t) => WriterAsks(l, t, r)
    case WriteRecheck(t) => WriterAsks(l, t, r)
    case ReadLeave(t) =>
      && r.readers == l.readers - {t} && r.writers == l.writers && r.readQueue == l.readQueue
      && if NoReaders(r) then Wakes(l.writeQueue, r.writeQueue) else r.writeQueue == l.writeQueue
    case WriteLeave(t) =>
      && r.writers == {} && r.readers == l.readers
      && if NoReaders(l) then r.readQueue == l.readQueue && Wakes(l.writeQueue, r.writeQueue)
         else r.writeQueue == l.writeQueue && Wakes(l.readQueue, r.readQueue)
  }

  /** So the counts that the code tests decide exactly as if it knew who is inside and who waits. */
  lemma EveryStepActs(locks: seq<Lock>, steps: seq<Step>, k: nat)
    requires IsLockRun(locks, steps) && k < |steps|
    ensures Acts(locks[k], steps[k], locks[k + 1])
  {
    hide LockInv, Enabled, Apply, Acts;
    LockTheorem(locks, steps, k);
    StepActs(locks[k], steps[k]);
  }

  lemma StepActs(l: Lock, step: Step)
    requires LockInv(l) && Enabled(l, step)
    ensures Acts(l, step, Apply(l, step))
  {
    hide QueueOk, ReadCheck, WriteCheck, ReadUnlock, WriteUnlock, NoReaders, Wakes, ReaderAsks, WriterAsks;
    match step
    case ReadEnter(t) => ReadCheckActs(l, t, l.readCount + 1);
    case ReadRecheck(t) => ReadCheckActs(l, t, l.readCount);
    case WriteEnter(t) => WriteCheckActs(l, t);
    case WriteRecheck(t) => WriteCheckActs(l, t);
    case ReadLeave(t) => ReadUnlockActs(l, t);
    case WriteLeave(t) => WriteUnlockActs(l, t);
  }

  lemma NotifyWakes(q: Queue)
    ensures Wakes(q, Notify(q))
  {
  }

  lemma ReadCheckActs(l: Lock, t: Task, readCount: int)
    requires CountsOk(l)
    ensures ReaderAsks(l, t, ReadCheck(l.(readCount := readCount), t))
  {
    hide Notify, Wakes;
    CountsMean(l);
    NotifyWakes(l.readQueue.(woken := l.readQueue.woken - {t}));
  }

  lemma WriteCheckActs(l: Lock, t: Task)
    requires CountsOk(l)
    ensures WriterAsks(l, t, WriteCheck(l, t))
  {
    hide NoReaders;
    CountsMean(l);
  }

  lemma ReadUnlockActs(l: Lock, t: Task)
    requires CountsOk(l) && t in l.readers
    ensures Acts(l, ReadLeave(t), ReadUnlock(l, t))
  {
    hide Notify, Wakes, NoReaders;
    var r := l.(readCount := l.readCount - 1, readers := l.readers - {t});
    assert |l.readers - {t}| == |l.readers| - 1;
    CountsMean(r);
    NotifyWakes(l.writeQueue);
    assert NoReaders(ReadUnlock(l, t)) <==> NoReaders(r) by { SameReaders(ReadUnlock(l, t), r); }
  }

  lemma SameReaders(l: Lock, r: Lock)
    requires l.readers == r.readers && l.readQueue == r.readQueue
    ensures NoReaders(l) <==> NoReaders(r)
  {
  }

  lemma WriteUnlockActs(l: Lock, t: Task)
    requires CountsOk(l) && Exclusive(l) && t in l.writers
    ensures Acts(l, WriteLeave(t), WriteUnlock(l, t))
  {
    hide Notify, Wakes, NoReaders;
    assert |l.writers - {t}| == |l.writers| - 1;
    assert l.writers - {t} == {};
    CountsMean(l);
    NotifyWakes(l.readQueue);
    NotifyWakes(l.writeQueue);
  }

  lemma CountsMean(l: Lock)
    requires CountsOk(l)
    ensures l.writeCount == 0 <==> l.writers == {}
    ensures l.readCount == 0 <==> NoReaders(l)
    ensures l.readCount >= 0 && l.writeCount >= 0
  {
    assert |l.readers| == 0 <==> l.readers == {};
    assert |l.readQueue.woken| == 0 <==> l.readQueue.woken == {};
  }

  // ---- The object -----------------------------------------------------------------------------

  class ConditionQueue {
    var waitList: seq<Task>
    ghost var woken: set<Task>

    ghost function Model(): Queue
      reads this
    {
      Queue(waitList, woken)
    }

    constructor ()
      ensures Model() == Queue([], {})
    {
      waitList, woken := [], {};
    }

    method NotifyOne()
      modifies this
      ensures Model() == Notify(old(Model()))
    {
      if waitList != [] {
        woken := woken + {waitList[0]};
        waitList := waitList[1..];
      }
    }

    /** Enqueue the caller; the mutex is released and the task swapped out after this. */
    method Enqueue(t: Task)
      modifies this
      ensures Model() == Sleep(old(Model()), t)
    {
      waitList := waitList + [t];
      woken := woken - {t};
    }

    ghost method Pass(t: Task)
      modifies this
      ensures Model() == old(Model()).(woken := old(woken) - {t})
    {
      woken := woken - {t};
    }
  }

  /** Each method is one section under the mutex; a section of a lock operation returns whether the task got in. */
  class ReadPriorityLock {
    var readCount: int
    var writeCount: int
    const readQueue: ConditionQueue
    const writeQueue: ConditionQueue
    ghost var readers: set<Task>
    ghost var writers: set<Task>

    ghost predicate Valid()
      reads this, readQueue, writeQueue
    {
      readQueue != writeQueue && LockInv(Model())
    }

    ghost function Model(): Lock
      reads this, readQueue, writeQueue
    {
      Lock(readCount, writeCount, readQueue.Model(), writeQueue.Model(), readers, writers)
    }

    constructor ()
      ensures Valid() && Model() == Fresh && fresh(readQueue) && fresh(writeQueue)
    {
      readCount, writeCount, readers, writers := 0, 0, {}, {};
      readQueue := new ConditionQueue();
      writeQueue := new ConditionQueue();
    }

    method BeginRead(t: Task) returns (inside: bool)
      requires Valid() && !Known(Model(), t)
      modifies this, readQueue
      ensures Valid() && Model() == Apply(old(Model()), ReadEnter(t)) && (inside <==> t in readers)
    {
      StepKept(Model(), ReadEnter(t));
      readCount := readCount + 1;
      inside := ReadLoop(t);
    }

    /** One evaluation of the predicate of `ReadLock`. */
    method ReadLoop(t: Task) returns (inside: bool)
      requires readQueue != writeQueue && t !in readers
      modifies this, readQueue
      ensures Model() == ReadCheck(old(Model()), t) && (inside <==> t in readers)
    {
      if writeCount > 0 {
        readQueue.Enqueue(t);
        return false;
      }
      readQueue.Pass(t);
      readQueue.NotifyOne();
      readers := readers + {t};
      return true;
    }

    method ResumeRead(t: Task) returns (inside: bool)
      requires Valid() && t in readQueue.woken
      modifies this, readQueue
      ensures Valid() && Model() == Apply(old(Model()), ReadRecheck(t)) && (inside <==> t in readers)
    {
      StepKept(Model(), ReadRecheck(t));
      inside := ReadLoop(t);
    }

    method EndRead(t: Task)
      requires Valid() && t in readers
      modifies this, writeQueue
      ensures Valid() && Model() == Apply(old(Model()), ReadLeave(t))
    {
      StepKept(Model(), ReadLeave(t));
      readCount := readCount - 1;
      readers := readers - {t};
      if readCount == 0 {
        writeQueue.NotifyOne();
      }
    }

    /** One evaluation of the predicate of `WriteLock`, by a newcomer or by a woken task. */
    method TryWrite(t: Task) returns (inside: bool)
      requires Valid() && (!Known(Model(), t) || t in writeQueue.woken)
      modifies this, writeQueue
      ensures Valid() && Model() == WriteCheck(old(Model()), t) && (inside <==> t in writers)
    {
      WriteCheckKeeps(Model(), t);
      if readCount > 0 || writeCount > 0 {
        writeQueue.Enqueue(t);
        return false;
      }
      writeQueue.Pass(t);
      writeCount := writeCount + 1;
      writers := writers + {t};
      return true;
    }

    method EndWrite(t: Task)
      requires Valid() && t in writers
      modifies this, readQueue, writeQueue
      ensures Valid() && Model() == Apply(old(Model()), WriteLeave(t))
    {
      StepKept(Model(), WriteLeave(t));
      writeCount := writeCount - 1;
      writers := writers - {t};
      if readCount > 0 {
        readQueue.NotifyOne();
      } else {
        writeQueue.NotifyOne();
      }
    }
  }
}
