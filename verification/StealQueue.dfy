/** What one steal takes from a ready queue, and what it leaves. */
module StealQueue {

  import opened Common

  /** The members of `s` that are in `keep`, in order. */
  function Filter<T>(s: seq<T>, keep: set<T>): seq<T>
  {
    if s == [] then [] else (if s[0] in keep then [s[0]] else []) + Filter(s[1..], keep)
  }

  /** The members of `s` that are not in `drop`, in order. */
  function FilterOut<T>(s: seq<T>, drop: set<T>): seq<T>
  {
    if s == [] then [] else (if s[0] in drop then [] else [s[0]]) + FilterOut(s[1..], drop)
  }

  /** Scanning from the back, take up to `n` members of `stealable`: what stays, and what is taken in the order met. */
  function TakeLast<T>(q: seq<T>, stealable: set<T>, n: nat): (r: (seq<T>, seq<T>))
    decreases |q|
  {
    if q == [] || n == 0 then (q, [])
    else
      var t, rest := q[|q| - 1], q[..|q| - 1];
      if t in stealable then
        var (kept, taken) := TakeLast(rest, stealable, n - 1);
        (kept, [t] + taken)
      else
        var (kept, taken) := TakeLast(rest, stealable, n);
        (kept + [t], taken)
  }

  /**
   How many tasks a steal takes: none when at most one is stealable, else the lesser of all of them and half the
   queue.
  */
  function StealCount<T>(q: seq<T>, stealable: set<T>): nat
  {
    var n := |Filter(q, stealable)|;
    if n > 1 then if n < |q| / 2 then n else |q| / 2 else 0
  }

  lemma {:induction false} FilterSnoc<T>(s: seq<T>, t: T, keep: set<T>)
    ensures Filter(s + [t], keep) == Filter(s, keep) + (if t in keep then [t] else [])
  {
    if s == [] {
      assert s + [t] == [t];
    } else {
      FilterSnoc(s[1..], t, keep);
      assert (s + [t])[1..] == s[1..] + [t];
    }
  }

  lemma {:induction false} FilterOutSnoc<T>(s: seq<T>, t: T, drop: set<T>)
    ensures FilterOut(s + [t], drop) == FilterOut(s, drop) + (if t in drop then [] else [t])
  {
    if s == [] {
      assert s + [t] == [t];
    } else {
      FilterOutSnoc(s[1..], t, drop);
      assert (s + [t])[1..] == s[1..] + [t];
    }
  }

  lemma ReverseCons<T>(t: T, s: seq<T>)
    ensures Reverse([t] + s) == Reverse(s) + [t]
  {
    assert ([t] + s)[1..] == s;
  }

  /**
   There is a point in the queue such that everything before it stays, and of what is behind it exactly
   the stealable tasks are taken: the last ones, with the order kept on both sides.
  */
  lemma {:induction false} TakeLastSplits<T>(q: seq<T>, stealable: set<T>, n: nat) returns (i: nat)
    ensures i <= |q|
    ensures TakeLast(q, stealable, n).0 == q[..i] + FilterOut(q[i..], stealable)
    ensures Reverse(TakeLast(q, stealable, n).1) == Filter(q[i..], stealable)
    ensures n <= |Filter(q, stealable)| ==> |TakeLast(q, stealable, n).1| == n
    ensures n >= |Filter(q, stealable)| ==> |TakeLast(q, stealable, n).1| == |Filter(q, stealable)|
    decreases |q|
  {
    if q == [] || n == 0 {
      i := |q|;
      assert q[..i] == q && q[i..] == [];
    } else {
      var t, rest := q[|q| - 1], q[..|q| - 1];
      assert q == rest + [t];
      FilterSnoc(rest, t, stealable);
      i := TakeLastSplits(rest, stealable, if t in stealable then n - 1 else n);
      assert q[..i] == rest[..i] && q[i..] == rest[i..] + [t];
      FilterSnoc(rest[i..], t, stealable);
      FilterOutSnoc(rest[i..], t, stealable);
      if t in stealable {
        ReverseCons(t, TakeLast(rest, stealable, n - 1).1);
      } else {
        assert q[..i] + (FilterOut(rest[i..], stealable) + [t]) == (rest[..i] + FilterOut(rest[i..], stealable)) + [t];
      }
    }
  }

  /** A steal neither loses nor invents a task, and takes only stealable ones. */
  lemma {:induction false} TakeLastConserves<T>(q: seq<T>, stealable: set<T>, n: nat)
    ensures multiset(TakeLast(q, stealable, n).0) + multiset(TakeLast(q, stealable, n).1) == multiset(q)
    ensures forall t :: t in TakeLast(q, stealable, n).1 ==> t in stealable
    decreases |q|
  {
    if q != [] && n != 0 {
      var t, rest := q[|q| - 1], q[..|q| - 1];
      assert q == rest + [t];
      TakeLastConserves(rest, stealable, if t in stealable then n - 1 else n);
    }
  }

  // ---- What the words mean, by positions ------------------------------------------------------

  predicate Increasing(l: seq<nat>)
  {
    forall i, j :: 0 <= i < j < |l| ==> l[i] < l[j]
  }

  /** `picked` are the entries of `s` at the positions `at`: exactly those whose membership in `m` is `wanted`. */
  predicate PickedAt<T>(s: seq<T>, m: set<T>, wanted: bool, picked: seq<T>, at: seq<nat>)
  {
    && |at| == |picked| && Increasing(at)
    && (forall j :: 0 <= j < |at| ==> at[j] < |s| && picked[j] == s[at[j]])
    && (forall i :: 0 <= i < |s| ==> (i in at <==> (s[i] in m <==> wanted)))
  }

  /** Filtering keeps the members of `keep`, each as often as it stands there, in the order they stand in. */
  lemma {:induction false} FilterPicks<T>(s: seq<T>, keep: set<T>) returns (at: seq<nat>)
    ensures PickedAt(s, keep, true, Filter(s, keep), at)
    decreases |s|
  {
    if s == [] {
      at := [];
    } else {
      var last, rest := s[|s| - 1], s[..|s| - 1];
      assert s == rest + [last];
      FilterSnoc(rest, last, keep);
      at := FilterPicks(rest, keep);
      if last in keep {
        at := at + [|s| - 1];
      }
    }
  }

  /** Filtering out keeps the others. */
  lemma {:induction false} FilterOutPicks<T>(s: seq<T>, drop: set<T>) returns (at: seq<nat>)
    ensures PickedAt(s, drop, false, FilterOut(s, drop), at)
    decreases |s|
  {
    if s == [] {
      at := [];
    } else {
      var last, rest := s[|s| - 1], s[..|s| - 1];
      assert s == rest + [last];
      FilterOutSnoc(rest, last, drop);
      at := FilterOutPicks(rest, drop);
      if last !in drop {
        at := at + [|s| - 1];
      }
    }
  }

  /** The positions of the queue that hold a stealable task. */
  function Positions<T>(q: seq<T>, stealable: set<T>): set<int>
  {
    set i | 0 <= i < |q| && q[i] in stealable
  }

  lemma FilterCounts<T>(q: seq<T>, stealable: set<T>)
    ensures |Filter(q, stealable)| == |Positions(q, stealable)|
  {
    hide Filter;
    var at := FilterPicks(q, stealable);
    SizeOf(at, Positions(q, stealable));
  }

  lemma {:induction false} SizeOf(at: seq<nat>, s: set<int>)
    requires Increasing(at) && forall i: int :: i in s <==> i >= 0 && i in at
    ensures |s| == |at|
    decreases |at|
  {
    if at == [] {
      assert s == {};
    } else {
      var last, rest := at[|at| - 1], at[..|at| - 1];
      assert at == rest + [last];
      assert last !in rest;
      SizeOf(rest, s - {last});
    }
  }

  /**
   With `c` positions holding a stealable task, a steal takes nothing when `c` is at most one and otherwise the
   lesser of `c` and half the queue; so it leaves the victim at least half.
  */
  lemma StealTakesExactly<T>(q: seq<T>, stealable: set<T>)
    ensures var (kept, taken) := TakeLast(q, stealable, StealCount(q, stealable));
      var c := |set i | 0 <= i < |q| && q[i] in stealable|;
      && |taken| == StealCount(q, stealable)
      && |taken| == (if c <= 1 then 0 else if c < |q| / 2 then c else |q| / 2)
      && |kept| == |q| - |taken| && 2 * |kept| >= |q|
  {
    hide TakeLast, Filter;
    var n := StealCount(q, stealable);
    var i := TakeLastSplits(q, stealable, n);
    FilterCounts(q, stealable);
    TakeLastSizes(q, stealable, n);
  }

  lemma TakeLastSizes<T>(q: seq<T>, s: set<T>, n: nat)
    ensures |TakeLast(q, s, n).0| + |TakeLast(q, s, n).1| == |q|
  {
    hide TakeLast;
    TakeLastConserves(q, s, n);
    var (kept, taken) := TakeLast(q, s, n);
    assert |multiset(kept) + multiset(taken)| == |kept| + |taken|;
    assert |multiset(q)| == |q|;
  }
}
