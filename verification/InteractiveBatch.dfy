/**
 How the main scheduler picks an interactive or batch task: late tasks leave the earliest-deadline queue for a
 thief or for the cancel stack, the cancel stack is trimmed, and the next task is taken. The queue lock is released
 while tasks are handed over, so new tasks may arrive and thief sizes may change in between; both are parameters.
*/
module InteractiveBatch {

  import opened Common

  /** `canSteal` is the class constant `CanSteal()`; times are relative to the scheduler's start. */
  datatype Task = Task(id: nat, deadline: int, burst: int, isStealable: bool, canSteal: bool)

  const UINT_MAX := 0xFFFF_FFFF
  const CANCEL_MAX := 3

  /** `priority_order` */
  predicate Precedes(a: Task, b: Task)
  {
    if a.deadline == b.deadline then a.burst < b.burst else a.deadline < b.deadline
  }

  /** The treap's `top()`: some task that none precedes. */
  predicate IsTop(m: multiset<Task>, t: Task)
  {
    t in m && forall u :: u in m ==> !Precedes(u, t)
  }

  lemma {:induction false} TopExists(m: multiset<Task>)
    requires m != multiset{}
    ensures exists t :: IsTop(m, t)
    decreases |m|
  {
    var t :| t in m;
    var rest := m - multiset{t};
    assert m == rest + multiset{t};
    if rest == multiset{} {
      assert IsTop(m, t);
    } else {
      TopExists(rest);
      var u :| IsTop(rest, u);
      assert IsTop(m, if Precedes(t, u) then t else u);
    }
  }

  /** Negative laxity. */
  predicate Late(t: Task, now: int)
  {
    t.deadline - t.burst < now
  }

  // ---- The least loaded thief -----------------------------------------------------------------

  /** The first thief of least size, if any is below the initial minimum. */
  predicate IsMinThief(sizes: seq<nat>, r: Option<nat>)
  {
    match r
    case None => forall i :: 0 <= i < |sizes| ==> sizes[i] >= UINT_MAX
    case Some(m) =>
      && m < |sizes| && sizes[m] < UINT_MAX
      && (forall i :: 0 <= i < |sizes| ==> sizes[m] <= sizes[i])
      && (forall i :: 0 <= i < m ==> sizes[m] < sizes[i])
  }

  method GetMinThief(sizes: seq<nat>) returns (minThief: Option<nat>)
    ensures IsMinThief(sizes, minThief)
    ensures minThief.None? <==> forall i :: 0 <= i < |sizes| ==> sizes[i] >= 0xFFFF_FFFF
  {
    minThief := None;
    var minSize := UINT_MAX;
    for i := 0 to |sizes|
      invariant IsMinThief(sizes[..i], minThief)
      invariant minSize == if minThief.None? then UINT_MAX else sizes[minThief.value]
      invariant forall j :: 0 <= j < i ==> sizes[j] > 0
    {
      if sizes[i] == 0 {
        return Some(i);
      }
      if minSize > sizes[i] {
        minThief, minSize := Some(i), sizes[i];
      }
    }
    assert sizes[..|sizes|] == sizes;
  }

  // ---- What one call does ---------------------------------------------------------------------

  datatype Queues = Queues(batch: seq<Task>, edf: multiset<Task>, cancel: seq<Task>)

  /** What other threads enable while the lock is released. */
  datatype Arrivals = Arrivals(edf: multiset<Task>, front: seq<Task>, back: seq<Task>)

  /**
   What a call finds around it: the number of thieves, the two virtual clocks, the time, the sizes of all thieves
   seen at the i-th hand-over, and what arrives while the lock is released.
  */
  datatype Env = Env(thieves: nat, vClockB: int, vClockI: int, now: int, readings: nat -> seq<nat>, arrivals: Arrivals)

  /** Every reading is of all the thieves. */
  ghost predicate EnvOk(e: Env)
  {
    forall i: nat :: |e.readings(i)| == e.thieves
  }

  /**
   `late` are the tasks taken off the earliest-deadline queue, in order, and `kept` what it held then. `moved` are
   those offered to a thief; `fates[i]` is the thief that got `moved[i]`, or `None` when it was deleted.
  */
  datatype Outcome = Outcome(result: Option<Task>, late: seq<Task>, kept: multiset<Task>, moved: seq<Task>,
                             fates: seq<Option<nat>>, cancelled: seq<Task>)

  predicate Movable(t: Task, thieves: nat)
  {
    thieves > 0 && t.isStealable && t.canSteal
  }

  /** The tasks of a list that can, or cannot, go to a thief. */
  function Pick(l: seq<Task>, thieves: nat, movable: bool): seq<Task>
  {
    if l == [] then [] else (if Movable(l[0], thieves) == movable then [l[0]] else []) + Pick(l[1..], thieves, movable)
  }

  lemma {:induction false} PickSnoc(l: seq<Task>, t: Task, thieves: nat, movable: bool)
    ensures Pick(l + [t], thieves, movable) ==
            Pick(l, thieves, movable) + (if Movable(t, thieves) == movable then [t] else [])
  {
    if l == [] {
      assert l + [t] == [t];
    } else {
      PickSnoc(l[1..], t, thieves, movable);
      assert (l + [t])[1..] == l[1..] + [t];
    }
  }

  lemma {:induction false} PickSplits(l: seq<Task>, thieves: nat)
    ensures multiset(Pick(l, thieves, true)) + multiset(Pick(l, thieves, false)) == multiset(l)
  {
    if l != [] {
      PickSplits(l[1..], thieves);
      assert l == [l[0]] + l[1..];
    }
  }

  lemma {:induction false} PickIs(l: seq<Task>, thieves: nat, movable: bool, t: Task)
    requires t in Pick(l, thieves, movable)
    ensures t in l && Movable(t, thieves) == movable
  {
    if t !in Pick(l[1..], thieves, movable) {
      assert t == l[0];
    } else {
      PickIs(l[1..], thieves, movable, t);
    }
  }

  /** Each task left the queue as a late top, and no top of what is left is late. */
  ghost predicate LateSplit(edf: multiset<Task>, kept: multiset<Task>, now: int, late: seq<Task>)
  {
    && multiset(late) + kept == edf
    && (forall i :: 0 <= i < |late| ==> Late(late[i], now) && IsTop(multiset(late[i..]) + kept, late[i]))
    && (forall t :: IsTop(kept, t) ==> !Late(t, now))
  }

  /** The cancel stack, newest first, once the late tasks that cannot move have been pushed. */
  function Stacked(q: Queues, thieves: nat, out: Outcome): seq<Task>
  {
    Reverse(Pick(out.late, thieves, false)) + q.cancel
  }

  function Trimmed(s: seq<Task>): seq<Task>
  {
    if |s| > CANCEL_MAX then s[..CANCEL_MAX] else s
  }

  function Dropped(s: seq<Task>): seq<Task>
  {
    if |s| > CANCEL_MAX then s[CANCEL_MAX..] else []
  }

  /** The next task is a top of the queue, or else the newest of the stack; `edf` and `cancel` are what is left. */
  predicate Takes(pool: multiset<Task>, stack: seq<Task>, result: Option<Task>, edf: multiset<Task>, cancel: seq<Task>)
  {
    if pool != multiset{} then
      result.Some? && IsTop(pool, result.value) && edf == pool - multiset{result.value} && cancel == stack
    else if stack != [] then
      result == Some(stack[0]) && edf == pool && cancel == stack[1..]
    else
      result == None && edf == pool && cancel == []
  }

  /** The interactive branch. */
  ghost predicate InteractiveCall(q: Queues, r: Queues, e: Env, out: Outcome)
  {
    var stack := Stacked(q, e.thieves, out);
    && EnvOk(e)
    && LateSplit(q.edf, out.kept, e.now, out.late)
    && out.moved == Pick(out.late, e.thieves, true)
    && |out.fates| == |out.moved|
    && (forall i :: 0 <= i < |out.fates| ==> IsMinThief(e.readings(i), out.fates[i]))
    && out.cancelled == Reverse(Dropped(stack))
    && r.batch == e.arrivals.front + q.batch + e.arrivals.back
    && Takes(out.kept + e.arrivals.edf, Trimmed(stack), out.result, r.edf, r.cancel)
  }

  /** Which branch runs: the class whose virtual clock is behind, when both have tasks. */
  predicate ChoosesBatch(q: Queues, e: Env)
  {
    q.batch != [] && ((q.edf == multiset{} && q.cancel == []) || e.vClockB <= e.vClockI)
  }

  /** The lock is released, so that arrivals get in: the interactive branch runs. */
  predicate Unlocks(q: Queues, e: Env)
  {
    !ChoosesBatch(q, e) && All(q) != multiset{}
  }

  /** One call of `GetAnInteractiveBatchTask`: from queues `q` to queues `r`. */
  ghost predicate Call(q: Queues, r: Queues, e: Env, out: Outcome)
  {
    if Unlocks(q, e) then InteractiveCall(q, r, e, out)
    else if q.batch != [] then
      r == q.(batch := q.batch[1..]) && out == Outcome(Some(q.batch[0]), [], q.edf, [], [], [])
    else
      r == q && out == Outcome(None, [], q.edf, [], [], [])
  }

  /** The tasks offered to a thief that one got, or that were deleted because `GetMinThief` found none. */
  function Fated(moved: seq<Task>, fates: seq<Option<nat>>, handed: bool): seq<Task>
  {
    if moved == [] || fates == [] then []
    else (if fates[0].Some? == handed then [moved[0]] else []) + Fated(moved[1..], fates[1..], handed)
  }

  function Handed(out: Outcome): seq<Task>
  {
    Fated(out.moved, out.fates, true)
  }

  function Deleted(out: Outcome): seq<Task>
  {
    Fated(out.moved, out.fates, false)
  }

  lemma {:induction false} FatedSplits(moved: seq<Task>, fates: seq<Option<nat>>)
    requires |moved| == |fates|
    ensures multiset(Fated(moved, fates, true)) + multiset(Fated(moved, fates, false)) == multiset(moved)
  {
    if moved != [] {
      FatedSplits(moved[1..], fates[1..]);
      var head, kind := [moved[0]], fates[0].Some?;
      assert Fated(moved, fates, kind) == head + Fated(moved[1..], fates[1..], kind);
      assert Fated(moved, fates, !kind) == Fated(moved[1..], fates[1..], !kind);
      hide Fated;
      assert moved == head + moved[1..];
    }
  }

  lemma {:induction false} NoneFated(moved: seq<Task>, fates: seq<Option<nat>>)
    requires |moved| == |fates|
    ensures Fated(moved, fates, false) == [] <==> forall i :: 0 <= i < |fates| ==> fates[i].Some?
  {
    if moved != [] {
      NoneFated(moved[1..], fates[1..]);
      assert fates == [fates[0]] + fates[1..];
    }
  }

  function Returned(result: Option<Task>): multiset<Task>
  {
    if result.Some? then multiset{result.value} else multiset{}
  }

  function All(q: Queues): multiset<Task>
  {
    multiset(q.batch) + q.edf + multiset(q.cancel)
  }

  /** What a call lets in. */
  function Arrived(q: Queues, e: Env): multiset<Task>
  {
    if Unlocks(q, e) then e.arrivals.edf + multiset(e.arrivals.front) + multiset(e.arrivals.back) else multiset{}
  }

  /**
   Every task is accounted for once, in all branches: what was queued or got in is afterwards queued, handed to a
   thief, deleted, cancelled or returned. `DeletedExactly` says when nothing is deleted.
  */
  lemma CallConserves(q: Queues, r: Queues, e: Env, out: Outcome)
    requires Call(q, r, e, out)
    ensures All(q) + Arrived(q, e)
         == All(r) + multiset(Handed(out)) + multiset(Deleted(out)) + multiset(out.cancelled) + Returned(out.result)
  {
    if Unlocks(q, e) {
      hide InteractiveCall, Fated;
      InteractiveConserves(q, r, e, out);
      assert |out.moved| == |out.fates| by { FatesMatch(q, r, e, out); }
      FatedSplits(out.moved, out.fates);
    } else if q.batch != [] {
      assert q.batch == [q.batch[0]] + q.batch[1..];
    }
  }

  lemma FatesMatch(q: Queues, r: Queues, e: Env, out: Outcome)
    requires InteractiveCall(q, r, e, out)
    ensures |out.moved| == |out.fates|
  {
  }

  lemma InteractiveConserves(q: Queues, r: Queues, e: Env, out: Outcome)
    requires InteractiveCall(q, r, e, out)
    ensures var a := e.arrivals;
      All(q) + (a.edf + multiset(a.front) + multiset(a.back))
      == All(r) + multiset(out.moved) + multiset(out.cancelled) + Returned(out.result)
  {
    hide LateSplit, Pick, Reverse, IsTop, IsMinThief, Takes, Trimmed, Dropped, Returned, EnvOk;
    var a := e.arrivals;
    var stack := Stacked(q, e.thieves, out);
    assert q.edf == multiset(out.late) + out.kept by { SplitSum(q.edf, out.kept, e.now, out.late); }
    PickSplits(out.late, e.thieves);
    StackSum(q, e.thieves, out);
    TrimSum(stack);
    ReverseMultiset(Dropped(stack));
    TakeSum(out.kept + a.edf, Trimmed(stack), out.result, r.edf, r.cancel);
    assert multiset(r.batch) == multiset(a.front) + multiset(q.batch) + multiset(a.back);
    Balance(All(q), multiset(q.batch), q.edf, multiset(q.cancel), a.edf, multiset(a.front), multiset(a.back),
            multiset(out.late), out.kept, multiset(out.moved), multiset(Pick(out.late, e.thieves, false)),
            multiset(Trimmed(stack)), multiset(out.cancelled),
            All(r), multiset(r.batch), r.edf, multiset(r.cancel), Returned(out.result));
  }

  lemma Balance(all: multiset<Task>, batch: multiset<Task>, edf: multiset<Task>, cancel: multiset<Task>,
                arrived: multiset<Task>, front: multiset<Task>, back: multiset<Task>,
                late: multiset<Task>, kept: multiset<Task>, moved: multiset<Task>, pushed: multiset<Task>,
                trimmed: multiset<Task>, cancelled: multiset<Task>,
                all': multiset<Task>, batch': multiset<Task>, edf': multiset<Task>, cancel': multiset<Task>,
                result: multiset<Task>)
    requires all == batch + edf + cancel && all' == batch' + edf' + cancel'
    requires batch' == front + batch + back
    requires edf == late + kept
    requires late == moved + pushed
    requires pushed + cancel == trimmed + cancelled
    requires kept + arrived + trimmed == edf' + cancel' + result
    ensures all + (arrived + front + back) == all' + moved + cancelled + result
  {
    forall t: Task
      ensures (all + (arrived + front + back))[t] == (all' + moved + cancelled + result)[t]
    {
      assert (pushed + cancel)[t] == (trimmed + cancelled)[t];
      assert (kept + arrived + trimmed)[t] == (edf' + cancel' + result)[t];
    }
  }

  lemma SplitSum(edf: multiset<Task>, kept: multiset<Task>, now: int, late: seq<Task>)
    requires LateSplit(edf, kept, now, late)
    ensures edf == multiset(late) + kept
  {
  }

  lemma StackSum(q: Queues, thieves: nat, out: Outcome)
    ensures multiset(Stacked(q, thieves, out)) == multiset(Pick(out.late, thieves, false)) + multiset(q.cancel)
  {
    ReverseMultiset(Pick(out.late, thieves, false));
  }

  lemma TrimSum(s: seq<Task>)
    ensures multiset(s) == multiset(Trimmed(s)) + multiset(Dropped(s))
  {
    if |s| > CANCEL_MAX {
      assert s == s[..CANCEL_MAX] + s[CANCEL_MAX..];
    }
  }

  /** Taking the result splits the pool and the stack. */
  lemma TakeSum(pool: multiset<Task>, stack: seq<Task>, result: Option<Task>, edf: multiset<Task>, cancel: seq<Task>)
    requires Takes(pool, stack, result, edf, cancel)
    ensures pool + multiset(stack) == edf + multiset(cancel) + Returned(result)
  {
    if pool != multiset{} {
      assert pool == edf + multiset{result.value};
    } else if stack != [] {
      assert stack == [stack[0]] + stack[1..];
    }
  }

  /**
   Only the oldest are cancelled: with the stack read in the order of pushing, the cancelled tasks are a prefix and
   what stays, or is returned from the stack, is the rest, at most three of them.
  */
  lemma OldestCancelled(q: Queues, r: Queues, e: Env, out: Outcome)
    requires InteractiveCall(q, r, e, out)
    ensures |r.cancel| <= 3
    ensures exists remaining ::
      && Reverse(q.cancel) + Pick(out.late, e.thieves, false) == out.cancelled + Reverse(remaining)
      && |remaining| <= 3
      && (out.cancelled != [] ==> |remaining| == 3)
      && (r.cancel == remaining || (out.result.Some? && [out.result.value] + r.cancel == remaining))
  {
    hide LateSplit, Pick, Reverse, IsTop, IsMinThief;
    var pushed := Pick(out.late, e.thieves, false);
    var stack := Stacked(q, e.thieves, out);
    var remaining := Trimmed(stack);
    ReverseAppend(Reverse(pushed), q.cancel);
    ReverseTwice(pushed);
    assert stack == remaining + Dropped(stack);
    ReverseAppend(remaining, Dropped(stack));
    assert Reverse(q.cancel) + pushed == out.cancelled + Reverse(remaining);
    assert |out.cancelled| == |Dropped(stack)|;
    assert out.cancelled != [] ==> |remaining| == CANCEL_MAX;
    assert r.cancel == remaining || (out.result.Some? && [out.result.value] + r.cancel == remaining);
  }

  /** A task that could still make its deadline stays, and something stays exactly when there is such a task. */
  lemma KeptExactly(edf: multiset<Task>, kept: multiset<Task>, now: int, late: seq<Task>)
    requires LateSplit(edf, kept, now, late)
    ensures kept != multiset{} <==> exists w :: w in edf && w.deadline - w.burst >= now
    ensures forall w :: w in edf && w.deadline - w.burst >= now ==> w in kept
    ensures forall w :: w in kept ==> w in edf
  {
    forall w | w in edf && !Late(w, now)
      ensures w in kept
    {
      assert w in multiset(late) ==> w in late;
    }
    if kept != multiset{} {
      TopExists(kept);
      var t :| IsTop(kept, t);
      assert t in edf && !Late(t, now);
    }
  }

  /** The call takes its result from the deadline queue. */
  ghost predicate FromDeadlineQueue(q: Queues, e: Env)
  {
    e.arrivals.edf != multiset{} || exists w :: w in q.edf && !Late(w, e.now)
  }

  /**
   Some arrival is late, no arrival precedes it, and of the tasks that were queued only late ones do. This is about
   what the call is given, not about what it does.
  */
  ghost predicate LateArrivalFirst(q: Queues, e: Env)
  {
    exists u :: u in e.arrivals.edf && Late(u, e.now)
      && (forall v :: v in e.arrivals.edf ==> !Precedes(v, u))
      && (forall w :: w in q.edf && Precedes(w, u) ==> Late(w, e.now))
  }

  /** A late arrival comes before everything kept exactly when only late tasks of the queue precede it. */
  lemma BeforeKept(edf: multiset<Task>, kept: multiset<Task>, now: int, late: seq<Task>, u: Task)
    requires LateSplit(edf, kept, now, late)
    ensures (forall w :: w in kept ==> !Precedes(w, u)) <==> (forall w :: w in edf && Precedes(w, u) ==> Late(w, now))
  {
    KeptExactly(edf, kept, now, late);
    if w :| w in kept && Precedes(w, u) {
      TopExists(kept);
      var t :| IsTop(kept, t);
      assert !Late(t, now) && !Precedes(w, t);
      assert t in edf && Precedes(t, u);
    }
  }

  /**
   A task returned from the earliest-deadline queue has the earliest deadline of all that were there, and it is late
   exactly when a late task arrives first while the lock is released.
  */
  lemma EarliestReturned(q: Queues, r: Queues, e: Env, out: Outcome)
    requires InteractiveCall(q, r, e, out) && FromDeadlineQueue(q, e)
    ensures out.result.Some?
    ensures var t := out.result.value;
      && (forall u :: u in r.edf ==> t.deadline < u.deadline || (t.deadline == u.deadline && t.burst <= u.burst))
      && (t.deadline - t.burst < e.now <==> LateArrivalFirst(q, e))
  {
    hide Stacked, Pick, Reverse, IsMinThief, Trimmed, Dropped;
    KeptExactly(q.edf, out.kept, e.now, out.late);
    var pool := out.kept + e.arrivals.edf;
    assert pool != multiset{} by {
      if w :| w in q.edf && !Late(w, e.now) { assert w in pool; }
    }
    var t := out.result.value;
    assert IsTop(pool, t);
    forall u | u in r.edf
      ensures t.deadline < u.deadline || (t.deadline == u.deadline && t.burst <= u.burst)
    {
      assert u in pool;
    }
    LateTop(q, e, out, t);
  }

  lemma LateTop(q: Queues, e: Env, out: Outcome, t: Task)
    requires LateSplit(q.edf, out.kept, e.now, out.late) && IsTop(out.kept + e.arrivals.edf, t)
    ensures Late(t, e.now) <==> LateArrivalFirst(q, e)
  {
    var pool := out.kept + e.arrivals.edf;
    if Late(t, e.now) {
      assert t !in e.arrivals.edf ==> IsTop(out.kept, t);
      assert forall v :: v in out.kept || v in e.arrivals.edf ==> v in pool;
      BeforeKept(q.edf, out.kept, e.now, out.late, t);
    }
    if LateArrivalFirst(q, e) {
      var u :| u in e.arrivals.edf && Late(u, e.now)
        && (forall v :: v in e.arrivals.edf ==> !Precedes(v, u))
        && (forall w :: w in q.edf && Precedes(w, u) ==> Late(w, e.now));
      BeforeKept(q.edf, out.kept, e.now, out.late, u);
      assert IsTop(pool, u);
    }
  }

  /**
   Such a call exists: one task waits in good time, and a late one with an earlier deadline arrives and is
   returned.
  */
  lemma LateArrivalIsReturned(now: int)
    ensures var s, t := Task(0, now + 9, 1, true, true), Task(1, now, 1, true, true);
      var q := Queues([], multiset{s}, []);
      var e := Env(1, 0, 0, now, (i: nat) => [0], Arrivals(multiset{t}, [], []));
      && Late(t, now) && Unlocks(q, e)
      && Call(q, Queues([], multiset{s}, []), e, Outcome(Some(t), [], multiset{s}, [], [], []))
  {
    var s, t := Task(0, now + 9, 1, true, true), Task(1, now, 1, true, true);
    var pool := multiset{s} + multiset{t};
    assert IsTop(pool, t);
    assert pool - multiset{t} == multiset{s};
    assert All(Queues([], multiset{s}, [])) == multiset{s};
    assert multiset([]) + multiset{s} == multiset{s};
  }

  /** A task offered to a thief came from the earliest-deadline queue, was late, and can be stolen. */
  lemma LateOnesLeave(q: Queues, r: Queues, e: Env, out: Outcome, t: Task)
    requires InteractiveCall(q, r, e, out) && t in out.moved
    ensures t.deadline - t.burst < e.now && e.thieves > 0 && t.isStealable && t.canSteal && t in q.edf
  {
    PickIs(out.late, e.thieves, true, t);
    assert t in multiset(out.late);
  }

  /** Some thief is below the limit at which `GetMinThief` gives up. */
  predicate HasRoom(sizes: seq<nat>)
  {
    exists j :: 0 <= j < |sizes| && sizes[j] < UINT_MAX
  }

  /**
   Nothing is deleted if and only if at every hand-over some thief is below `UINT_MAX`; and a task that is not
   deleted goes to one of the thieves, the first of the least loaded.
  */
  lemma DeletedExactly(q: Queues, r: Queues, e: Env, out: Outcome)
    requires InteractiveCall(q, r, e, out)
    ensures Deleted(out) == [] <==>
      forall i :: 0 <= i < |out.moved| ==> HasRoom(e.readings(i))
    ensures forall i :: 0 <= i < |out.moved| && out.fates[i].Some? ==>
      var m := out.fates[i].value;
      && m < e.thieves
      && (forall j :: 0 <= j < e.thieves ==> e.readings(i)[m] <= e.readings(i)[j])
      && (forall j :: 0 <= j < m ==> e.readings(i)[m] < e.readings(i)[j])
  {
    hide LateSplit, Pick, Reverse, IsTop, Stacked, Fated, Takes, Trimmed, Dropped;
    NoneFated(out.moved, out.fates);
    forall i | 0 <= i < |out.moved|
      ensures out.fates[i].Some? <==> HasRoom(e.readings(i))
    {
      assert IsMinThief(e.readings(i), out.fates[i]);
    }
  }

  /** Such a call exists: with its one thief at `UINT_MAX`, a late task that could be stolen is deleted. */
  lemma FullThiefDeletes(now: int)
    ensures var t := Task(0, now, 1, true, true);
      var q := Queues([], multiset{t}, []);
      var e := Env(1, 0, 0, now, (i: nat) => [UINT_MAX], Arrivals(multiset{}, [], []));
      var out := Outcome(None, [t], multiset{}, [t], [None], []);
      Unlocks(q, e) && Call(q, Queues([], multiset{}, []), e, out) && Deleted(out) == [t]
  {
    var t := Task(0, now, 1, true, true);
    assert [t][0..] == [t] && [t][1..] == [];
    assert multiset([t]) + multiset{} == multiset{t};
    assert IsTop(multiset([t][0..]) + multiset{}, t);
    assert All(Queues([], multiset{t}, [])) == multiset{t};
    EmptyPick(1);
    assert Pick([t], 1, true) == [t];
    assert Pick([t], 1, false) == [];
    assert Fated([t], [None], false) == [t];
  }

  // ---- Which branch, and where each task goes -------------------------------------------------

  /** With tasks of both kinds the one whose virtual clock is behind runs; with one kind only, that one. */
  lemma BranchTaken(q: Queues, r: Queues, e: Env, out: Outcome)
    requires Call(q, r, e, out)
    ensures var interactive := q.edf != multiset{} || q.cancel != [];
      && (q.batch == [] && !interactive ==> out.result == None && r == q)
      && (interactive && (q.batch == [] || e.vClockB > e.vClockI) ==> InteractiveCall(q, r, e, out))
      && (q.batch != [] && (!interactive || e.vClockB <= e.vClockI) ==>
            out.result == Some(q.batch[0]) && [q.batch[0]] + r.batch == q.batch && r == q.(batch := r.batch))
  {
    hide InteractiveCall;
    SomeQueued(q);
  }

  lemma {:induction false} PickHas(l: seq<Task>, thieves: nat, movable: bool, t: Task)
    requires t in l && Movable(t, thieves) == movable
    ensures t in Pick(l, thieves, movable)
  {
    if l[0] != t {
      PickHas(l[1..], thieves, movable, t);
    }
  }

  /** Picking keeps the order. */
  lemma {:induction false} PickPlaces(l: seq<Task>, thieves: nat, movable: bool) returns (at: seq<nat>)
    ensures var picked := Pick(l, thieves, movable);
      && |at| == |picked| && (forall i, j :: 0 <= i < j < |at| ==> at[i] < at[j])
      && (forall j :: 0 <= j < |at| ==> at[j] < |l| && picked[j] == l[at[j]])
    decreases |l|
  {
    if l == [] {
      at := [];
    } else {
      var last, rest := l[|l| - 1], l[..|l| - 1];
      assert l == rest + [last];
      PickSnoc(rest, last, thieves, movable);
      at := PickPlaces(rest, thieves, movable);
      if Movable(last, thieves) == movable {
        at := at + [|l| - 1];
      }
    }
  }

  /** Of the late tasks exactly those go to a thief that a thief may run; the others go to the cancel stack. */
  lemma LateOnesGo(q: Queues, r: Queues, e: Env, out: Outcome, t: Task)
    requires InteractiveCall(q, r, e, out) && t in out.late
    ensures t in out.moved <==> e.thieves > 0 && t.isStealable && t.canSteal
    ensures t in out.moved || t in out.cancelled || t in r.cancel || out.result == Some(t)
  {
    hide LateSplit, IsTop, IsMinThief, Pick, Reverse;
    if Movable(t, e.thieves) {
      PickHas(out.late, e.thieves, true, t);
    } else {
      if t in out.moved { PickIs(out.late, e.thieves, true, t); }
      PickHas(out.late, e.thieves, false, t);
      var stack := Stacked(q, e.thieves, out);
      ReverseMultiset(Pick(out.late, e.thieves, false));
      ReverseMultiset(Dropped(stack));
      assert t in stack;
      assert stack == Trimmed(stack) + Dropped(stack);
    }
  }

  /** When the deadline queue has nothing to offer, the task pushed last on the cancel stack is returned, if any. */
  lemma NewestReturned(q: Queues, r: Queues, e: Env, out: Outcome)
    requires InteractiveCall(q, r, e, out) && !FromDeadlineQueue(q, e)
    ensures var pushed := Reverse(q.cancel) + Pick(out.late, e.thieves, false);
      out.result == if pushed == [] then None else Some(pushed[|pushed| - 1])
  {
    hide Pick, Reverse, IsMinThief;
    KeptExactly(q.edf, out.kept, e.now, out.late);
    assert out.kept + e.arrivals.edf == multiset{};
    hide LateSplit, IsTop;
    var stuck := Pick(out.late, e.thieves, false);
    var stack := Stacked(q, e.thieves, out);
    ReverseAppend(Reverse(stuck), q.cancel);
    ReverseTwice(stuck);
    assert Reverse(stack) == Reverse(q.cancel) + stuck;
    if stack != [] {
      LastOfReverse(stack);
    }
  }

  lemma LastOfReverse(s: seq<Task>)
    requires s != []
    ensures Reverse(s)[|s| - 1] == s[0]
  {
  }

  // ---- The scheduler object -------------------------------------------------------------------

  class InteractiveBatchScheduler {
    var bQueue: seq<Task>
    var iEDFPriorityQueue: multiset<Task>
    var iCancelStack: seq<Task>
    const thiefs: nat

    ghost function Model(): Queues
      reads this
    {
      Queues(bQueue, iEDFPriorityQueue, iCancelStack)
    }

    /** The cancel stack never holds more than three tasks between calls. */
    ghost predicate Valid()
      reads this
    {
      |iCancelStack| <= CANCEL_MAX
    }

    constructor (nThiefs: nat)
      ensures Valid() && Model() == Queues([], multiset{}, []) && thiefs == nThiefs
    {
      bQueue, iEDFPriorityQueue, iCancelStack, thiefs := [], multiset{}, [], nThiefs;
    }

    /** The first loop: late tasks leave the queue. */
    method TakeLate(now: int) returns (toSteal: seq<Task>, late: seq<Task>)
      modifies this`iEDFPriorityQueue, this`iCancelStack
      ensures LateSplit(old(iEDFPriorityQueue), iEDFPriorityQueue, now, late)
      ensures toSteal == Pick(late, thiefs, true)
      ensures iCancelStack == Reverse(Pick(late, thiefs, false)) + old(iCancelStack)
    {
      hide IsTop, Late, Pick, Reverse, LateTops, LateSplit;
      toSteal, late := [], [];
      EmptyPick(thiefs);
      LateStart(iEDFPriorityQueue, now);
      assert [] + iCancelStack == iCancelStack;
      while iEDFPriorityQueue != multiset{}
        invariant LateTops(old(iEDFPriorityQueue), iEDFPriorityQueue, now, late)
        invariant toSteal == Pick(late, thiefs, true)
        invariant iCancelStack == Reverse(Pick(late, thiefs, false)) + old(iCancelStack)
        decreases |iEDFPriorityQueue|
      {
        TopExists(iEDFPriorityQueue);
        var top :| IsTop(iEDFPriorityQueue, top);
        TopIn(iEDFPriorityQueue, top);
        if !Late(top, now) {
          TopNotLate(iEDFPriorityQueue, top, now);
          LateEnd(old(iEDFPriorityQueue), iEDFPriorityQueue, now, late);
          return;
        }
        LateStep(old(iEDFPriorityQueue), iEDFPriorityQueue, now, late, top);
        PickSnoc(late, top, thiefs, true);
        PickSnoc(late, top, thiefs, false);
        ghost var stuck := Pick(late, thiefs, false);
        ReverseSnoc(stuck, top);
        assert stuck + [] == stuck && toSteal + [] == toSteal;
        assert [top] + (Reverse(stuck) + old(iCancelStack)) == ([top] + Reverse(stuck)) + old(iCancelStack);
        iEDFPriorityQueue := iEDFPriorityQueue - multiset{top};
        if thiefs > 0 && top.isStealable && top.canSteal {
          toSteal := toSteal + [top];
        } else {
          iCancelStack := [top] + iCancelStack;
        }
        late := late + [top];
      }
      NoTop(now);
      LateEnd(old(iEDFPriorityQueue), iEDFPriorityQueue, now, late);
    }

    /**
     The second loop, with the lock released: each task goes to the least loaded thief, or is deleted when there
     is none.
    */
    method HandOver(toSteal: seq<Task>, readings: nat -> seq<nat>) returns (fates: seq<Option<nat>>)
      requires forall i: nat :: |readings(i)| == thiefs
      ensures |fates| == |toSteal|
      ensures forall i :: 0 <= i < |fates| ==> IsMinThief(readings(i), fates[i])
      ensures forall i :: 0 <= i < |fates| && fates[i].Some? ==> fates[i].value < thiefs
    {
      fates := [];
      for k := 0 to |toSteal|
        invariant |fates| == k
        invariant forall i :: 0 <= i < k ==> IsMinThief(readings(i), fates[i])
        invariant forall i :: 0 <= i < k && fates[i].Some? ==> fates[i].value < thiefs
      {
        var pNextThief := GetMinThief(readings(k));
        fates := fates + [pNextThief];
      }
    }

    /** The third loop: cancel from the back until three are left. */
    method TrimCancelStack() returns (cancelled: seq<Task>)
      modifies this`iCancelStack
      ensures iCancelStack == Trimmed(old(iCancelStack)) && cancelled == Reverse(Dropped(old(iCancelStack)))
    {
      ghost var all := iCancelStack;
      cancelled := [];
      while |iCancelStack| > CANCEL_MAX
        invariant |iCancelStack| <= |all| && (|all| <= CANCEL_MAX ==> |iCancelStack| == |all|)
        invariant |all| > CANCEL_MAX ==> |iCancelStack| >= CANCEL_MAX
        invariant iCancelStack == all[..|iCancelStack|] && cancelled == Reverse(all[|iCancelStack|..])
        decreases |iCancelStack|
      {
        var n := |iCancelStack|;
        var last := iCancelStack[n - 1];
        iCancelStack := iCancelStack[..n - 1];
        assert all[n - 1..] == [last] + all[n..];
        ReverseAppend([last], all[n..]);
        assert Reverse([last]) == [last];
        cancelled := cancelled + [last];
      }
    }

    /** What other threads enable while the lock is released. */
    method Receive(a: Arrivals)
      modifies this`bQueue, this`iEDFPriorityQueue
      ensures bQueue == a.front + old(bQueue) + a.back
      ensures iEDFPriorityQueue == old(iEDFPriorityQueue) + a.edf
    {
      bQueue := a.front + bQueue + a.back;
      iEDFPriorityQueue := iEDFPriorityQueue + a.edf;
    }

    /** The end of the interactive branch: the top of the queue, else the newest of the cancel stack. */
    method TakeNext() returns (result: Option<Task>)
      modifies this`iEDFPriorityQueue, this`iCancelStack
      ensures Takes(old(iEDFPriorityQueue), old(iCancelStack), result, iEDFPriorityQueue, iCancelStack)
    {
      if iEDFPriorityQueue != multiset{} {
        TopExists(iEDFPriorityQueue);
        var top :| IsTop(iEDFPriorityQueue, top);
        iEDFPriorityQueue := iEDFPriorityQueue - multiset{top};
        return Some(top);
      } else if iCancelStack != [] {
        var first := iCancelStack[0];
        iCancelStack := iCancelStack[1..];
        return Some(first);
      }
      return None;
    }

    method Interactive(e: Env) returns (out: Outcome)
      requires EnvOk(e) && e.thieves == thiefs
      modifies this
      ensures Valid() && InteractiveCall(old(Model()), Model(), e, out)
    {
      hide LateSplit, Pick, Reverse, IsTop, IsMinThief, Takes, Trimmed, Dropped;
      ghost var before := Model();
      var toSteal, late := TakeLate(e.now);
      var kept := iEDFPriorityQueue;
      var fates := HandOver(toSteal, e.readings);
      Receive(e.arrivals);
      TrimmedSize(iCancelStack);
      var cancelled := TrimCancelStack();
      ghost var edf, stack := iEDFPriorityQueue, iCancelStack;
      var result := TakeNext();
      TakenSize(edf, stack, result, iEDFPriorityQueue, iCancelStack);
      out := Outcome(result, late, kept, toSteal, fates, cancelled);
      assert Stacked(before, thiefs, out) == Reverse(Pick(late, thiefs, false)) + before.cancel;
    }

    /** `GetAnInteractiveBatchTask` */
    method GetAnInteractiveBatchTask(e: Env) returns (out: Outcome)
      requires Valid() && EnvOk(e) && e.thieves == thiefs
      modifies this
      ensures Valid() && Call(old(Model()), Model(), e, out)
    {
      hide InteractiveCall, EnvOk;
      SomeQueued(Model());
      var idle := iEDFPriorityQueue == multiset{} && iCancelStack == [];
      if bQueue == [] && idle {
        return Outcome(None, [], iEDFPriorityQueue, [], [], []);
      }
      if bQueue != [] && (idle || !(e.vClockB > e.vClockI)) {
        var first := bQueue[0];
        bQueue := bQueue[1..];
        return Outcome(Some(first), [], iEDFPriorityQueue, [], [], []);
      }
      out := Interactive(e);
    }
  }

  // ---- Steps of the loops ---------------------------------------------------------------------

  /** The loop invariant of `TakeLate`: each task so far left the queue as a late top. */
  predicate LateTops(edf: multiset<Task>, kept: multiset<Task>, now: int, late: seq<Task>)
  {
    && multiset(late) + kept == edf
    && (forall i :: 0 <= i < |late| ==> Late(late[i], now) && IsTop(multiset(late[i..]) + kept, late[i]))
  }

  lemma LateStart(edf: multiset<Task>, now: int)
    ensures LateTops(edf, edf, now, [])
  {
  }

  lemma LateEnd(edf: multiset<Task>, kept: multiset<Task>, now: int, late: seq<Task>)
    requires LateTops(edf, kept, now, late) && forall t :: IsTop(kept, t) ==> !Late(t, now)
    ensures LateSplit(edf, kept, now, late)
  {
  }

  lemma LateStep(edf: multiset<Task>, kept: multiset<Task>, now: int, late: seq<Task>, top: Task)
    requires LateTops(edf, kept, now, late) && IsTop(kept, top) && Late(top, now)
    ensures LateTops(edf, kept - multiset{top}, now, late + [top])
  {
    hide IsTop, Late;
    var rest := kept - multiset{top};
    TopIn(kept, top);
    assert kept == rest + multiset{top};
    forall i | 0 <= i < |late + [top]|
      ensures Late((late + [top])[i], now) && IsTop(multiset((late + [top])[i..]) + rest, (late + [top])[i])
    {
      if i < |late| {
        assert (late + [top])[i..] == late[i..] + [top];
        assert multiset((late + [top])[i..]) + rest == multiset(late[i..]) + kept;
      } else {
        assert (late + [top])[i..] == [top];
        assert multiset([top]) + rest == kept;
      }
    }
  }

  lemma TopIn(m: multiset<Task>, t: Task)
    requires IsTop(m, t)
    ensures t in m
  {
  }

  /** All tops have the same deadline and burst. */
  lemma TopNotLate(m: multiset<Task>, t: Task, now: int)
    requires IsTop(m, t) && !Late(t, now)
    ensures forall u :: IsTop(m, u) ==> !Late(u, now)
  {
    forall u | IsTop(m, u)
      ensures !Late(u, now)
    {
      assert !Precedes(u, t) && !Precedes(t, u);
    }
  }

  lemma NoTop(now: int)
    ensures forall u :: IsTop(multiset{}, u) ==> !Late(u, now)
  {
  }

  lemma EmptyPick(thieves: nat)
    ensures Pick([], thieves, true) == [] && Pick([], thieves, false) == [] && Reverse<Task>([]) == []
  {
  }

  lemma TrimmedSize(s: seq<Task>)
    ensures |Trimmed(s)| <= CANCEL_MAX
  {
  }

  lemma TakenSize(pool: multiset<Task>, stack: seq<Task>, result: Option<Task>, edf: multiset<Task>, cancel: seq<Task>)
    requires Takes(pool, stack, result, edf, cancel)
    ensures |cancel| <= |stack|
  {
  }

  lemma SomeQueued(q: Queues)
    ensures All(q) != multiset{} <==> q.batch != [] || q.edf != multiset{} || q.cancel != []
  {
    assert |All(q)| == |q.batch| + |q.edf| + |q.cancel|;
  }
}
