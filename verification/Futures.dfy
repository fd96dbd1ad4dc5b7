/** One shared state of a future/promise pair, and chains of `then` continuations over such states. */
module SharedStates {

  /** What a future holds: a value or an exception. */
  datatype Outcome = Value(value: int) | Error(error: int)

  const BROKEN_PROMISE := 0

  /** The guarded fields: `satisfied_`, `executed_`, whether `cb_` is set, and the value or exception. */
  datatype Cell = Cell(satisfied: bool, executed: bool, hasCallback: bool, outcome: Outcome)

  const FRESH := Cell(false, false, false, Value(0))

  /** `set_ready`, after the caller has stored the outcome; the second result tells whether to run the callback. */
  function SetReady(c: Cell): (Cell, bool)
  {
    var run := c.hasCallback && !c.executed;
    (c.(satisfied := true, executed := c.executed || run), run)
  }

  /** `set_value`, `set_exception` and `abandon`: only the first takes effect. */
  function Settle(c: Cell, o: Outcome): (Cell, bool)
  {
    if c.satisfied then (c, false) else SetReady(c.(outcome := o))
  }

  /** `set_callback` */
  function SetCallback(c: Cell): (Cell, bool)
  {
    var run := c.satisfied && !c.executed;
    (c.(hasCallback := true, executed := c.executed || run), run)
  }

  class SharedState {
    var satisfied: bool
    var executed: bool
    var hasCallback: bool
    var outcome: Outcome

    ghost function Model(): Cell
      reads this
    {
      Cell(satisfied, executed, hasCallback, outcome)
    }

    constructor ()
      ensures Model() == FRESH
    {
      satisfied, executed, hasCallback, outcome := false, false, false, Value(0);
    }

    /** `set_ready`; `run` tells the caller to run the callback after releasing the lock. */
    method MarkReady() returns (run: bool)
      modifies this
      ensures (Model(), run) == SetReady(old(Model()))
    {
      satisfied := true;
      if !hasCallback {
        return false;
      }
      run := !executed;
      if !run {
        return;
      }
      executed := true;
    }

    /** `set_value` and `set_exception`; `ok` is false when the source throws `promise_already_satisfied`. */
    method Set(o: Outcome) returns (ok: bool, run: bool)
      modifies this
      ensures ok == !old(satisfied)
      ensures (Model(), run) == Settle(old(Model()), o)
    {
      if satisfied {
        return false, false;
      }
      outcome := o;
      ok := true;
      run := MarkReady();
    }

    /** `abandon`: a promise dropped without an outcome breaks, one already settled does not. */
    method Abandon() returns (run: bool)
      modifies this
      ensures (Model(), run) == Settle(old(Model()), Error(BROKEN_PROMISE))
    {
      if satisfied {
        return false;
      }
      outcome := Error(BROKEN_PROMISE);
      run := MarkReady();
    }

    /** `set_callback` */
    method AttachCallback() returns (run: bool)
      modifies this
      ensures (Model(), run) == SetCallback(old(Model()))
    {
      hasCallback := true;
      run := satisfied && !executed;
      if !run {
        return;
      }
      executed := true;
    }
  }
}

/** A chain `f.then(s0).then(s1)...` under every interleaving of attaching, settling and running callbacks. */
module FutureChain {
  import opened SharedStates

  /** A continuation that returns a plain value, or throws. It runs on exceptional arguments too. */
  type Continuation = Outcome -> Outcome

  /** What `then` publishes: an exception thrown by the continuation, else the argument's exception, else the result. */
  function Then(f: Continuation, arg: Outcome): Outcome
  {
    match f(arg)
    case Error(e) => Error(e)
    case Value(v) => if arg.Error? then arg else Value(v)
  }

  /** The outcome after the first `n` continuations, one after the other. */
  function Fold(steps: seq<Continuation>, source: Outcome, n: nat): Outcome
    requires n <= |steps|
  {
    if n == 0 then source else Then(steps[n - 1], Fold(steps, source, n - 1))
  }

  /** `cells[i]` is the argument of continuation `i`; `claimed` holds the callbacks someone has promised to run. */
  datatype Chain = Chain(cells: seq<Cell>, attached: nat, claimed: set<nat>, runs: seq<nat>)

  datatype Step = SettleSource(outcome: Outcome) | Attach | Run(index: nat)

  predicate Shape(c: Chain, n: nat)
  {
    |c.cells| == n + 1 && |c.runs| == n && c.attached <= n && forall i :: i in c.claimed ==> i < n
  }

  predicate Enabled(c: Chain, n: nat, step: Step)
  {
    Shape(c, n) &&
    match step
    case SettleSource(_) => true
    case Attach => c.attached < n
    case Run(i) => i in c.claimed
  }

  function Claim(claimed: set<nat>, i: nat, run: bool): set<nat>
  {
    if run then claimed + {i} else claimed
  }

  function Apply(c: Chain, steps: seq<Continuation>, step: Step): Chain
    requires Enabled(c, |steps|, step)
  {
    match step
    case SettleSource(o) =>
      var (cell, run) := Settle(c.cells[0], o);
      c.(cells := c.cells[0 := cell], claimed := Claim(c.claimed, 0, run))
    case Attach =>
      var (cell, run) := SetCallback(c.cells[c.attached]);
      c.(cells := c.cells[c.attached := cell], claimed := Claim(c.claimed, c.attached, run), attached := c.attached + 1)
    case Run(i) =>
      var (cell, run) := Settle(c.cells[i + 1], Then(steps[i], c.cells[i].outcome));
      c.(cells := c.cells[i + 1 := cell], claimed := Claim(c.claimed - {i}, i + 1, run),
          runs := c.runs[i := c.runs[i] + 1])
  }

  predicate Initial(c: Chain, n: nat)
  {
    c == Chain(seq(n + 1, _ => FRESH), 0, {}, seq(n, _ => 0))
  }

  predicate CellOk(c: Chain, n: nat, i: nat)
    requires Shape(c, n) && i <= n
  {
    && (c.cells[i].hasCallback <==> i < c.attached)
    && (c.cells[i].executed <==> c.cells[i].satisfied && c.cells[i].hasCallback)
    && (i < n ==> c.runs[i] <= 1)
    && (i < n ==> (i in c.claimed <==> c.cells[i].executed && c.runs[i] == 0))
    && (i < n ==> (c.cells[i + 1].satisfied <==> c.runs[i] == 1))
    && (i < n && c.runs[i] == 1 ==> c.cells[i].executed)
  }

  ghost predicate Inv(c: Chain, steps: seq<Continuation>)
  {
    && Shape(c, |steps|)
    && (forall i :: 0 <= i <= |steps| ==> CellOk(c, |steps|, i))
    && (forall i :: 0 <= i <= |steps| && c.cells[i].satisfied ==>
        c.cells[i].outcome == Fold(steps, c.cells[0].outcome, i))
  }

  /** If cell `i` is satisfied, so is every cell before it. */
  lemma {:induction false} SatisfiedPrefix(c: Chain, steps: seq<Continuation>, i: nat, j: nat)
    requires Inv(c, steps) && j <= i <= |steps| && c.cells[i].satisfied
    ensures c.cells[j].satisfied
    decreases i
  {
    if j < i {
      assert CellOk(c, |steps|, i - 1);
      SatisfiedPrefix(c, steps, i - 1, j);
    }
  }

  lemma StepKeeps(c: Chain, steps: seq<Continuation>, step: Step)
    requires Inv(c, steps) && Enabled(c, |steps|, step)
    ensures Inv(Apply(c, steps, step), steps)
    ensures c.cells[0].satisfied ==> Apply(c, steps, step).cells[0].outcome == c.cells[0].outcome
  {
    var n := |steps|;
    var r := Apply(c, steps, step);
    assert CellOk(c, n, 0);
    if step.Run? {
      assert CellOk(c, n, step.index) && CellOk(c, n, step.index + 1);
    }
    if step.SettleSource? && !c.cells[0].satisfied {
      forall i | 0 < i <= n ensures !c.cells[i].satisfied {
        if c.cells[i].satisfied {
          SatisfiedPrefix(c, steps, i, 0);
        }
      }
    }
    forall i | 0 <= i <= n ensures CellOk(r, n, i) {
      assert CellOk(c, n, i);
    }
  }

  predicate IsRun(states: seq<Chain>, steps: seq<Continuation>, labels: seq<Step>)
  {
    && |states| == |labels| + 1
    && (forall k :: 0 <= k < |labels| ==>
          Enabled(states[k], |steps|, labels[k]) && states[k + 1] == Apply(states[k], steps, labels[k]))
  }

  lemma {:induction false} RunKeeps(states: seq<Chain>, steps: seq<Continuation>, labels: seq<Step>, k: nat)
    requires IsRun(states, steps, labels) && Initial(states[0], |steps|) && k < |states|
    ensures Inv(states[k], steps)
  {
    if k > 0 {
      hide Apply, Inv, Enabled;
      RunKeeps(states, steps, labels, k - 1);
      StepKeeps(states[k - 1], steps, labels[k - 1]);
    }
  }

  /** Everything attached, the source settled, and no callback left to run. */
  predicate Quiescent(c: Chain, n: nat)
    requires Shape(c, n)
  {
    c.cells[0].satisfied && c.attached == n && c.claimed == {}
  }

  lemma {:induction false} AllSatisfied(c: Chain, steps: seq<Continuation>, i: nat)
    requires Inv(c, steps) && Quiescent(c, |steps|) && i <= |steps|
    ensures c.cells[i].satisfied
    ensures forall j :: 0 <= j < i ==> c.runs[j] == 1
  {
    if i > 0 {
      AllSatisfied(c, steps, i - 1);
      assert CellOk(c, |steps|, i - 1);
    }
  }

  /**
   In every interleaving each continuation runs at most once; when all is quiet each has run exactly once
   and the last future holds the fold of the steps over whatever settled the source first.
  */
  lemma ChainTheorem(states: seq<Chain>, steps: seq<Continuation>, labels: seq<Step>, k: nat)
    requires IsRun(states, steps, labels) && Initial(states[0], |steps|) && k < |states|
    ensures Shape(states[k], |steps|)
    ensures forall i :: 0 <= i < |steps| ==> states[k].runs[i] <= 1
    ensures Quiescent(states[k], |steps|) ==>
              && (forall i :: 0 <= i < |steps| ==> states[k].runs[i] == 1)
              && states[k].cells[|steps|].satisfied
              && states[k].cells[|steps|].outcome == Fold(steps, states[k].cells[0].outcome, |steps|)
    ensures !Quiescent(states[k], |steps|) && states[k].cells[0].satisfied ==>
              exists step: Step :: !step.SettleSource? && Enabled(states[k], |steps|, step)
  {
    hide Apply;
    RunKeeps(states, steps, labels, k);
    var c := states[k];
    forall i | 0 <= i < |steps| ensures c.runs[i] <= 1 {
      assert CellOk(c, |steps|, i);
    }
    if Quiescent(c, |steps|) {
      AllSatisfied(c, steps, |steps|);
    } else if c.cells[0].satisfied {
      if c.attached < |steps| {
        assert Enabled(c, |steps|, Attach);
      } else {
        var i :| i in c.claimed;
        assert Enabled(c, |steps|, Run(i));
      }
    }
  }

  /** The first outcome given to the source is the one the chain folds, whatever is tried later. */
  lemma {:induction false} FirstOutcomeWins(states: seq<Chain>, steps: seq<Continuation>, labels: seq<Step>,
                                            i: nat, k: nat)
    requires IsRun(states, steps, labels) && Initial(states[0], |steps|) && i < k < |states|
    requires labels[i].SettleSource? && Shape(states[i], |steps|) && !states[i].cells[0].satisfied
    ensures Shape(states[k], |steps|) && states[k].cells[0].satisfied && states[k].cells[0].outcome == labels[i].outcome
  {
    RunKeeps(states, steps, labels, k - 1);
    StepKeeps(states[k - 1], steps, labels[k - 1]);
    if i + 1 < k {
      FirstOutcomeWins(states, steps, labels, i, k - 1);
    }
  }
}

/** What the final outcome of a chain is, said of values and exceptions alone, and what a run has done so far. */
module FutureOutcomes {
  import opened SharedStates
  import opened FutureChain

  /** A run of the chain that has come to rest. */
  ghost predicate RunsTo(states: seq<Chain>, steps: seq<Continuation>, labels: seq<Step>, k: nat)
  {
    && IsRun(states, steps, labels) && k < |states| && Initial(states[0], |steps|)
    && Shape(states[k], |steps|) && Quiescent(states[k], |steps|)
  }

  lemma CellsFold(states: seq<Chain>, steps: seq<Continuation>, labels: seq<Step>, k: nat)
    requires RunsTo(states, steps, labels, k)
    ensures forall i :: 0 <= i <= |steps| ==>
              states[k].cells[i].satisfied && states[k].cells[i].outcome == Fold(steps, states[k].cells[0].outcome, i)
  {
    hide Apply, Fold;
    RunKeeps(states, steps, labels, k);
    forall i | 0 <= i <= |steps| ensures states[k].cells[i].satisfied {
      AllSatisfied(states[k], steps, i);
    }
  }

  function Composed(g: seq<int -> int>, x: int, i: nat): int
    requires i <= |g|
  {
    if i == 0 then x else g[i - 1](Composed(g, x, i - 1))
  }

  /** When the source holds a value and no continuation throws, every future holds the composition of the functions. */
  lemma ChainOfValues(states: seq<Chain>, steps: seq<Continuation>, labels: seq<Step>, k: nat,
                      g: seq<int -> int>, x: int)
    requires RunsTo(states, steps, labels, k) && states[k].cells[0].outcome == Value(x)
    requires |g| == |steps| && forall i, y :: 0 <= i < |steps| ==> steps[i](Value(y)) == Value(g[i](y))
    ensures forall i :: 0 <= i <= |steps| ==> states[k].cells[i].outcome == Value(Composed(g, x, i))
  {
    CellsFold(states, steps, labels, k);
    forall i | 0 <= i <= |steps| ensures Fold(steps, Value(x), i) == Value(Composed(g, x, i)) {
      FoldOfValues(steps, g, x, i);
    }
  }

  lemma {:induction false} FoldOfValues(steps: seq<Continuation>, g: seq<int -> int>, x: int, i: nat)
    requires |g| == |steps| && i <= |steps|
    requires forall j, y :: 0 <= j < |steps| ==> steps[j](Value(y)) == Value(g[j](y))
    ensures Fold(steps, Value(x), i) == Value(Composed(g, x, i))
  {
    if i > 0 {
      FoldOfValues(steps, g, x, i - 1);
    }
  }

  /** An exception of the source reaches every future when no continuation throws, whatever they return. */
  lemma ChainOfErrors(states: seq<Chain>, steps: seq<Continuation>, labels: seq<Step>, k: nat, e: int)
    requires RunsTo(states, steps, labels, k) && states[k].cells[0].outcome == Error(e)
    requires forall i, o :: 0 <= i < |steps| ==> steps[i](o).Value?
    ensures forall i :: 0 <= i <= |steps| ==> states[k].cells[i].outcome == Error(e)
  {
    CellsFold(states, steps, labels, k);
    forall i | 0 <= i <= |steps| ensures Fold(steps, Error(e), i) == Error(e) {
      FoldOfErrors(steps, Error(e), 0, e, i);
    }
  }

  /** An exception thrown by a continuation reaches every later future when no later continuation throws. */
  lemma ChainThatThrows(states: seq<Chain>, steps: seq<Continuation>, labels: seq<Step>, k: nat, i: nat, e: int)
    requires RunsTo(states, steps, labels, k) && i < |steps| && steps[i](states[k].cells[i].outcome) == Error(e)
    requires forall j, o :: i < j < |steps| ==> steps[j](o).Value?
    ensures forall j :: i < j <= |steps| ==> states[k].cells[j].outcome == Error(e)
  {
    CellsFold(states, steps, labels, k);
    var source := states[k].cells[0].outcome;
    forall j | i < j <= |steps| ensures Fold(steps, source, j) == Error(e) {
      FoldOfErrors(steps, source, i + 1, e, j);
    }
  }

  lemma {:induction false} FoldOfErrors(steps: seq<Continuation>, source: Outcome, from: nat, e: int, i: nat)
    requires from <= i <= |steps| && Fold(steps, source, from) == Error(e)
    requires forall j, o :: from <= j < |steps| ==> steps[j](o).Value?
    ensures Fold(steps, source, i) == Error(e)
  {
    if i > from {
      FoldOfErrors(steps, source, from, e, i - 1);
    }
  }

  /**
   The state is what the steps taken make it: as many continuations are attached, and each has run as often, as there
   are such steps, and the source is settled once a step has settled it. So each continuation runs at most once.
  */
  lemma {:induction false} ChainHistory(states: seq<Chain>, steps: seq<Continuation>, labels: seq<Step>, k: nat)
    requires IsRun(states, steps, labels) && Initial(states[0], |steps|) && k < |states|
    ensures Shape(states[k], |steps|)
    ensures states[k].attached == multiset(labels[..k])[Attach]
    ensures forall i :: 0 <= i < |steps| ==> states[k].runs[i] == multiset(labels[..k])[Run(i)] <= 1
    ensures states[k].cells[0].satisfied <==> exists j :: 0 <= j < k && labels[j].SettleSource?
  {
    hide Apply, Inv, Enabled;
    ChainTheorem(states, steps, labels, k);
    if k > 0 {
      ChainHistory(states, steps, labels, k - 1);
      RunKeeps(states, steps, labels, k - 1);
      HistoryStep(states[k - 1], steps, labels[k - 1]);
      assert labels[..k] == labels[..k - 1] + [labels[k - 1]];
    }
  }

  lemma HistoryStep(c: Chain, steps: seq<Continuation>, step: Step)
    requires Inv(c, steps) && Enabled(c, |steps|, step)
    ensures var r := Apply(c, steps, step);
      && Shape(r, |steps|)
      && r.attached == c.attached + (if step == Attach then 1 else 0)
      && (forall i :: 0 <= i < |steps| ==> r.runs[i] == c.runs[i] + (if step == Run(i) then 1 else 0))
      && (r.cells[0].satisfied <==> c.cells[0].satisfied || step.SettleSource?)
  {
    StepKeeps(c, steps, step);
  }
}

/** `when_any` over a range: callbacks race with the loop that attaches them and with its final check. */
module WhenAny {

  /**
   `attached` counts the `then` calls made, `processed` the increments that follow them; `ran` lists the
   callbacks in the order they took the mutex, `published` the indices handed to the promise.
  */
  datatype State = State(
    total: nat,
    completed: set<nat>,
    attached: nat,
    processed: nat,
    checked: bool,
    ready: bool,
    index: nat,
    moved: bool,
    ran: seq<nat>,
    published: seq<nat>)

  datatype Step = Complete(input: nat) | Attach | Count | Callback(input: nat) | FinalCheck

  predicate Initial(s: State)
  {
    s == State(s.total, {}, 0, 0, false, false, 0, false, [], [])
  }

  predicate Enabled(s: State, step: Step)
  {
    match step
    case Complete(i) => i < s.total && i !in s.completed
    case Attach => s.attached == s.processed < s.total
    case Count => s.attached == s.processed + 1
    case Callback(i) => i in s.completed && i < s.attached && i !in s.ran
    case FinalCheck => s.processed == s.total && !s.checked
  }

  function Apply(s: State, step: Step): State
    requires Enabled(s, step)
  {
    match step
    case Complete(i) => s.(completed := s.completed + {i})
    case Attach => s.(attached := s.attached + 1)
    case Count => s.(processed := s.processed + 1)
    case Callback(i) =>
      if s.ready then s.(ran := s.ran + [i])
      else if s.processed == s.total && !s.moved then
        s.(ran := s.ran + [i], index := i, ready := true, published := s.published + [i], moved := true)
      else s.(ran := s.ran + [i], index := i, ready := true)
    case FinalCheck =>
      if s.ready && !s.moved then s.(checked := true, published := s.published + [s.index], moved := true)
      else s.(checked := true)
  }

  predicate Inv(s: State)
  {
    && s.processed <= s.attached <= s.processed + 1 && s.attached <= s.total
    && (s.ready <==> s.ran != [])
    && (s.ready ==> s.index == s.ran[0])
    && s.published == (if s.moved then [s.index] else [])
    && (s.moved ==> s.ready && s.processed == s.total)
    && (s.checked ==> s.processed == s.total && (s.ready ==> s.moved))
    && (forall i :: i in s.ran ==> i in s.completed)
    && (forall i :: i in s.completed ==> i < s.total)
  }

  predicate IsRun(states: seq<State>, steps: seq<Step>)
  {
    && |states| == |steps| + 1
    && (forall k :: 0 <= k < |steps| ==> Enabled(states[k], steps[k]) && states[k + 1] == Apply(states[k], steps[k]))
  }

  lemma {:induction false} RunKeeps(states: seq<State>, steps: seq<Step>, k: nat)
    requires IsRun(states, steps) && Initial(states[0]) && k < |states|
    ensures Inv(states[k]) && states[k].total == states[0].total
  {
    if k > 0 {
      RunKeeps(states, steps, k - 1);
    }
  }

  /** The loop is over, its check made, and every completed input has called back. */
  predicate Quiescent(s: State)
  {
    s.checked && forall i :: i in s.completed ==> i in s.ran
  }

  /**
   At most one result is published, never before every `then` is attached, and it names the first callback to
   run; when all is quiet one is published exactly when some input completed.
  */
  lemma WhenAnyTheorem(states: seq<State>, steps: seq<Step>, k: nat)
    requires IsRun(states, steps) && Initial(states[0]) && k < |states|
    ensures var s := states[k];
      && |s.published| <= 1
      && (s.published != [] ==> s.ran != [] && s.published == [s.ran[0]] && s.attached == s.processed == s.total)
      && (Quiescent(s) ==> (s.published != [] <==> s.completed != {}))
  {
    RunKeeps(states, steps, k);
    var s := states[k];
    if s.ran != [] {
      assert s.ran[0] in s.ran;
    }
  }

  /** The inputs that called back, in order. */
  function CallbackOrder(steps: seq<Step>): seq<nat>
  {
    if steps == [] then []
    else
      var last := steps[|steps| - 1];
      CallbackOrder(steps[..|steps| - 1]) + (if last.Callback? then [last.input] else [])
  }

  /** The state is what the steps taken make it, so `WhenAnyTheorem` speaks of what really happened. */
  lemma {:induction false} WhenAnyHistory(states: seq<State>, steps: seq<Step>, k: nat)
    requires IsRun(states, steps) && Initial(states[0]) && k < |states|
    ensures var s, past := states[k], steps[..k];
      && s.attached == multiset(past)[Attach] && s.processed == multiset(past)[Count]
      && (s.checked <==> FinalCheck in past)
      && (forall i :: i in s.completed <==> Complete(i) in past)
      && s.ran == CallbackOrder(past)
  {
    hide Apply, Enabled;
    if k > 0 {
      WhenAnyHistory(states, steps, k - 1);
      assert steps[..k] == steps[..k - 1] + [steps[k - 1]];
      assert steps[..k][..k - 1] == steps[..k - 1];
      WhenAnyStep(states[k - 1], steps[k - 1]);
    }
  }

  lemma WhenAnyStep(s: State, step: Step)
    requires Enabled(s, step)
    ensures var r := Apply(s, step);
      && r.attached == s.attached + (if step == Attach then 1 else 0)
      && r.processed == s.processed + (if step == Count then 1 else 0)
      && (r.checked <==> s.checked || step == FinalCheck)
      && (forall i :: i in r.completed <==> i in s.completed || step == Complete(i))
      && r.ran == s.ran + (if step.Callback? then [step.input] else [])
  {
  }

  /** Nothing gets stuck: while a run is not quiet some step other than a new completion is possible. */
  lemma NeverStuck(states: seq<State>, steps: seq<Step>, k: nat)
    requires IsRun(states, steps) && Initial(states[0]) && k < |states| && !Quiescent(states[k])
    ensures exists step: Step :: !step.Complete? && Enabled(states[k], step)
  {
    RunKeeps(states, steps, k);
    var s := states[k];
    if s.attached == s.processed + 1 {
      assert Enabled(s, Count);
    } else if s.processed < s.total {
      assert Enabled(s, Attach);
    } else if !s.checked {
      assert Enabled(s, FinalCheck);
    } else {
      var i :| i in s.completed && i !in s.ran;
      assert Enabled(s, Callback(i));
    }
  }
}

/** `when_all` over a range. */
module WhenAll {

  /** `published` counts the calls of `set_value` on the promise. */
  datatype State = State(total: nat, completed: set<nat>, attached: nat, ran: set<nat>, ready: nat, published: nat)

  datatype Step = Complete(input: nat) | Attach | Callback(input: nat)

  predicate Initial(s: State)
  {
    s == State(s.total, {}, 0, {}, 0, 0)
  }

  predicate Enabled(s: State, step: Step)
  {
    match step
    case Complete(i) => i < s.total && i !in s.completed
    case Attach => s.attached < s.total
    case Callback(i) => i in s.completed && i < s.attached && i !in s.ran
  }

  function Apply(s: State, step: Step): State
    requires Enabled(s, step)
  {
    match step
    case Complete(i) => s.(completed := s.completed + {i})
    case Attach => s.(attached := s.attached + 1)
    case Callback(i) =>
      var ready := s.ready + 1;
      s.(ran := s.ran + {i}, ready := ready, published := if ready == s.total then s.published + 1 else s.published)
  }

  predicate Inv(s: State)
  {
    && s.attached <= s.total
    && s.ready == |s.ran|
    && (forall i :: i in s.ran ==> i in s.completed && i < s.attached)
    && (forall i :: i in s.completed ==> i < s.total)
    && s.published == (if s.ready == s.total && s.ran != {} then 1 else 0)
  }

  /** A set of `n` numbers below `n` holds all of them, and no set of numbers below `n` holds more. */
  lemma {:induction false} FullSet(a: set<nat>, n: nat)
    requires forall i :: i in a ==> i < n
    ensures |a| <= n
    ensures |a| == n <==> forall i :: 0 <= i < n ==> i in a
  {
    if n > 0 {
      var b := a - {n - 1};
      FullSet(b, n - 1);
      if n - 1 in a {
        assert |a| == |b| + 1;
      } else {
        assert a == b;
      }
    }
  }

  predicate IsRun(states: seq<State>, steps: seq<Step>)
  {
    && |states| == |steps| + 1
    && (forall k :: 0 <= k < |steps| ==> Enabled(states[k], steps[k]) && states[k + 1] == Apply(states[k], steps[k]))
  }

  lemma StepKeeps(s: State, step: Step)
    requires Inv(s) && Enabled(s, step)
    ensures Inv(Apply(s, step))
  {
    if step.Callback? {
      assert |s.ran + {step.input}| == |s.ran| + 1;
      FullSet(s.ran + {step.input}, s.total);
    }
  }

  lemma {:induction false} RunKeeps(states: seq<State>, steps: seq<Step>, k: nat)
    requires IsRun(states, steps) && Initial(states[0]) && k < |states|
    ensures Inv(states[k]) && states[k].total == states[0].total
  {
    if k > 0 {
      RunKeeps(states, steps, k - 1);
      StepKeeps(states[k - 1], steps[k - 1]);
    }
  }

  /**
   On a non-empty range the result is published once, by the callback of the last input, and when all is quiet
   exactly when every input completed.
  */
  lemma WhenAllTheorem(states: seq<State>, steps: seq<Step>, k: nat)
    requires IsRun(states, steps) && Initial(states[0]) && k < |states| && states[0].total > 0
    ensures var s := states[k];
      && s.published <= 1
      && (s.published == 1 <==> forall i :: 0 <= i < s.total ==> i in s.ran)
      && (s.published == 1 ==> s.attached == s.total)
      && (s.attached == s.total && (forall i :: i in s.completed ==> i in s.ran) ==>
            (s.published == 1 <==> forall i :: 0 <= i < s.total ==> i in s.completed))
  {
    RunKeeps(states, steps, k);
    var s := states[k];
    FullSet(s.ran, s.total);
    if s.published == 1 {
      assert s.total - 1 in s.ran;
    }
  }

  /** The state is what the steps taken make it, so `WhenAllTheorem` speaks of what really happened. */
  lemma {:induction false} WhenAllHistory(states: seq<State>, steps: seq<Step>, k: nat)
    requires IsRun(states, steps) && Initial(states[0]) && k < |states|
    ensures var s, past := states[k], steps[..k];
      && s.attached == multiset(past)[Attach]
      && (forall i :: i in s.completed <==> Complete(i) in past)
      && (forall i :: i in s.ran <==> Callback(i) in past)
  {
    hide Apply, Enabled;
    if k > 0 {
      WhenAllHistory(states, steps, k - 1);
      assert steps[..k] == steps[..k - 1] + [steps[k - 1]];
      WhenAllStep(states[k - 1], steps[k - 1]);
    }
  }

  lemma WhenAllStep(s: State, step: Step)
    requires Enabled(s, step)
    ensures var r := Apply(s, step);
      && r.attached == s.attached + (if step == Attach then 1 else 0)
      && (forall i :: i in r.completed <==> i in s.completed || step == Complete(i))
      && (forall i :: i in r.ran <==> i in s.ran || step == Callback(i))
  {
  }

  /** The step that publishes is the callback of the one input that had not called back yet. */
  lemma PublishedByLast(states: seq<State>, steps: seq<Step>, k: nat, i: nat)
    requires IsRun(states, steps) && Initial(states[0]) && k < |steps|
    requires states[k + 1].published > states[k].published && i < states[k].total
    ensures steps[k].Callback? && (i == steps[k].input <==> i !in states[k].ran)
  {
    RunKeeps(states, steps, k);
    RunKeeps(states, steps, k + 1);
    FullSet(states[k + 1].ran, states[k].total);
    assert i in states[k + 1].ran;
  }

  /** On an empty range nothing is ever published. */
  lemma EmptyNeverPublishes(states: seq<State>, steps: seq<Step>, k: nat)
    requires IsRun(states, steps) && Initial(states[0]) && k < |states| && states[0].total == 0
    ensures states[k].published == 0
  {
    RunKeeps(states, steps, k);
    FullSet(states[k].ran, 0);
  }
}

/** `future::timeout`: a timer and the source's callback race to settle the returned future. */
module FutureTimeout {
  import opened SharedStates

  datatype Mark = NotSet | Expired | ResultSet

  datatype Timer = Unarmed | Pending | Fired

  /**
   `source` is the future waited for, `mark` its `timeout_state_`, `result` the returned future. `claimed` tells that
   somebody is about to run the callback, `ran` that it ran; `sets` counts the calls that settle `result`.
  */
  datatype Race = Race(source: Cell, mark: Mark, timer: Timer, attached: bool, claimed: bool, ran: bool,
      result: Cell, sets: nat)

  const Start: Race := Race(FRESH, NotSet, Unarmed, false, false, false, FRESH, 0)

  datatype Step = AddTimer | Attach | SettleSource(outcome: Outcome) | Fire | RunCallback

  /** `timeout` first adds the timer and then sets the callback. */
  predicate Enabled(r: Race, step: Step)
  {
    match step
    case AddTimer => r.timer == Unarmed
    case Attach => r.timer != Unarmed && !r.attached
    case SettleSource(_) => true
    case Fire => r.timer == Pending
    case RunCallback => r.claimed
  }

  function Publish(r: Race, o: Outcome): Race
  {
    r.(result := Settle(r.result, o).0, sets := r.sets + 1)
  }

  function Apply(r: Race, error: int, step: Step): Race
  {
    match step
    case AddTimer => r.(timer := Pending)
    case Attach =>
      var (cell, run) := SetCallback(r.source);
      r.(source := cell, attached := true, claimed := r.claimed || run)
    case SettleSource(o) =>
      var (cell, run) := Settle(r.source, o);
      r.(source := cell, claimed := r.claimed || run)
    case Fire =>
      if r.mark == ResultSet then r.(timer := Fired)
      else Publish(r.(timer := Fired, mark := Expired), Error(error))
    case RunCallback =>
      if r.mark == Expired then r.(claimed := false, ran := true)
      else Publish(r.(claimed := false, ran := true, mark := ResultSet), r.source.outcome)
  }

  predicate IsRun(races: seq<Race>, error: int, steps: seq<Step>)
  {
    && |races| == |steps| + 1
    && races[0] == Start
    && (forall k :: 0 <= k < |steps| ==>
          Enabled(races[k], steps[k]) && races[k + 1] == Apply(races[k], error, steps[k]))
  }

  predicate Inv(r: Race, error: int)
  {
    && (r.source.hasCallback <==> r.attached)
    && (r.source.executed <==> r.attached && r.source.satisfied)
    && (r.source.executed <==> r.claimed || r.ran)
    && !(r.claimed && r.ran)
    && r.sets == (if r.mark == NotSet then 0 else 1)
    && (r.result.satisfied <==> r.mark != NotSet)
    && (r.mark == NotSet <==> r.timer != Fired && !r.ran)
    && (r.mark == Expired ==> r.timer == Fired && r.result.outcome == Error(error))
    && (r.mark == ResultSet ==> r.ran && r.result.outcome == r.source.outcome)
  }

  /**
   In every interleaving the returned future is settled at most once, so no set finds it already satisfied; it is
   settled as soon as the timer has fired or the callback has run, with the exception or with the source's outcome;
   and when nothing is left to do and the source is settled, the callback has run.
  */
  lemma {:induction false} TimeoutTheorem(races: seq<Race>, error: int, steps: seq<Step>, k: nat)
    requires IsRun(races, error, steps) && k < |races|
    ensures var r := races[k];
      && Inv(r, error)
      && r.sets <= 1
      && (r.result.satisfied <==> r.timer == Fired || r.ran)
      && (r.result.satisfied ==> r.result.outcome == Error(error) || r.result.outcome == r.source.outcome)
      && (r.source.satisfied && r.attached && !r.claimed ==> r.ran && r.result.satisfied)
  {
    if k > 0 {
      TimeoutTheorem(races, error, steps, k - 1);
      assert races[k] == Apply(races[k - 1], error, steps[k - 1]);
    }
  }

  /** The first of the two to act decides, and the loser changes nothing. */
  lemma FirstDecides(races: seq<Race>, error: int, steps: seq<Step>, k: nat)
    requires IsRun(races, error, steps) && k < |steps|
    ensures races[k].result.satisfied ==> races[k + 1].result == races[k].result
    ensures !races[k].result.satisfied && races[k + 1].result.satisfied ==>
      || (steps[k] == Fire && races[k + 1].result.outcome == Error(error))
      || (steps[k] == RunCallback && races[k].source.satisfied &&
          races[k + 1].result.outcome == races[k].source.outcome)
  {
    TimeoutTheorem(races, error, steps, k);
    assert races[k + 1] == Apply(races[k], error, steps[k]);
  }

  /** The first of the steps that settles the source gives it this outcome. */
  predicate SettledBy(steps: seq<Step>, o: Outcome)
  {
    exists j :: 0 <= j < |steps| && steps[j] == SettleSource(o) && forall i :: 0 <= i < j ==> !steps[i].SettleSource?
  }

  lemma SettledByMore(steps: seq<Step>, step: Step, o: Outcome)
    requires SettledBy(steps, o)
    ensures SettledBy(steps + [step], o)
  {
    var j :| 0 <= j < |steps| && steps[j] == SettleSource(o) && forall i :: 0 <= i < j ==> !steps[i].SettleSource?;
    assert (steps + [step])[j] == SettleSource(o);
  }

  lemma SettledByLast(steps: seq<Step>, o: Outcome)
    requires forall i :: 0 <= i < |steps| ==> !steps[i].SettleSource?
    ensures SettledBy(steps + [SettleSource(o)], o)
  {
    assert (steps + [SettleSource(o)])[|steps|] == SettleSource(o);
  }

  /**
   The state is what the steps taken make it: the timer is pending once it was added and fired once it has fired, the
   callback is attached and has run when such a step was taken, and the source holds what settled it first.
  */
  lemma {:induction false} TimeoutHistory(races: seq<Race>, error: int, steps: seq<Step>, k: nat)
    requires IsRun(races, error, steps) && k < |races|
    ensures var r, past := races[k], steps[..k];
      && (r.timer == Unarmed <==> AddTimer !in past) && (r.timer == Fired <==> Fire in past)
      && (r.attached <==> Attach in past) && (r.ran <==> RunCallback in past)
      && (if r.source.satisfied then SettledBy(past, r.source.outcome)
          else forall i :: 0 <= i < k ==> !past[i].SettleSource?)
  {
    hide Apply, Enabled, SettledBy;
    if k > 0 {
      TimeoutHistory(races, error, steps, k - 1);
      var r, step, past := races[k - 1], steps[k - 1], steps[..k - 1];
      assert steps[..k] == past + [step];
      TimeoutStep(r, error, step);
      if r.source.satisfied {
        SettledByMore(past, step, r.source.outcome);
      } else if step.SettleSource? {
        SettledByLast(past, step.outcome);
      }
    }
  }

  lemma TimeoutStep(r: Race, error: int, step: Step)
    requires Enabled(r, step)
    ensures var n := Apply(r, error, step);
      && (n.timer == Unarmed <==> r.timer == Unarmed && step != AddTimer)
      && (n.timer == Fired <==> r.timer == Fired || step == Fire)
      && (n.attached <==> r.attached || step == Attach) && (n.ran <==> r.ran || step == RunCallback)
      && (n.source.satisfied <==> r.source.satisfied || step.SettleSource?)
      && (r.source.satisfied ==> n.source.outcome == r.source.outcome)
      && (!r.source.satisfied && step.SettleSource? ==> n.source.outcome == step.outcome)
  {
  }
}
