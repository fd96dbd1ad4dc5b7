/** What several components share: optional values, lists without repetition, and reversal. */
module Common {

  datatype Option<T> = None | Some(value: T)

  /** No entry occurs twice. Tasks and timers are numbers throughout. */
  predicate NoDup(l: seq<nat>)
  {
    forall i, j :: 0 <= i < j < |l| ==> l[i] != l[j]
  }

  /** Every entry but `t`, in order. */
  function Without(l: seq<nat>, t: nat): seq<nat>
  {
    if l == [] then [] else (if l[0] == t then [] else [l[0]]) + Without(l[1..], t)
  }

  lemma {:induction false} WithoutIs(l: seq<nat>, t: nat)
    requires NoDup(l)
    ensures NoDup(Without(l, t)) && forall u :: u in Without(l, t) <==> u in l && u != t
  {
    if l != [] {
      assert l == [l[0]] + l[1..];
      WithoutIs(l[1..], t);
      assert l[0] !in l[1..];
    }
  }

  lemma {:induction false} WithoutNone(l: seq<nat>, t: nat)
    requires t !in l
    ensures Without(l, t) == l
  {
    if l != [] {
      WithoutNone(l[1..], t);
    }
  }

  /** `a` stands before `b`. */
  predicate Before(l: seq<nat>, a: nat, b: nat)
  {
    exists i, j :: 0 <= i < j < |l| && l[i] == a && l[j] == b
  }

  /** Leaving an entry out keeps the order of the others. */
  lemma {:induction false} WithoutOrder(l: seq<nat>, t: nat, a: nat, b: nat)
    requires Before(l, a, b) && a != t && b != t
    ensures Before(Without(l, t), a, b)
  {
    var i, j :| 0 <= i < j < |l| && l[i] == a && l[j] == b;
    var rest := Without(l[1..], t);
    if i == 0 {
      WithoutHas(l[1..], t, b);
      var m :| 0 <= m < |rest| && rest[m] == b;
      assert Without(l, t) == [a] + rest;
      assert Without(l, t)[0] == a && Without(l, t)[m + 1] == b;
    } else {
      assert l[1..][i - 1] == a && l[1..][j - 1] == b;
      WithoutOrder(l[1..], t, a, b);
      var m, n :| 0 <= m < n < |rest| && rest[m] == a && rest[n] == b;
      var d := |Without(l, t)| - |rest|;
      assert Without(l, t)[m + d] == a && Without(l, t)[n + d] == b;
    }
  }

  lemma {:induction false} WithoutHas(l: seq<nat>, t: nat, u: nat)
    requires u in l && u != t
    ensures u in Without(l, t)
  {
    if l[0] != u {
      WithoutHas(l[1..], t, u);
    }
  }

  function Reverse<T>(s: seq<T>): (r: seq<T>)
    ensures |r| == |s|
  {
    if s == [] then [] else Reverse(s[1..]) + [s[0]]
  }

  lemma {:induction false} ReverseAppend<T>(a: seq<T>, b: seq<T>)
    ensures Reverse(a + b) == Reverse(b) + Reverse(a)
  {
    if a == [] {
      assert a + b == b;
    } else {
      ReverseAppend(a[1..], b);
      assert (a + b)[1..] == a[1..] + b;
    }
  }

  lemma ReverseSnoc<T>(s: seq<T>, t: T)
    ensures Reverse(s + [t]) == [t] + Reverse(s)
  {
    ReverseAppend(s, [t]);
    assert Reverse([t]) == [t];
  }

  lemma {:induction false} ReverseTwice<T>(s: seq<T>)
    ensures Reverse(Reverse(s)) == s
  {
    if s != [] {
      ReverseTwice(s[1..]);
      ReverseSnoc(Reverse(s[1..]), s[0]);
    }
  }

  lemma {:induction false} ReverseMultiset<T>(s: seq<T>)
    ensures multiset(Reverse(s)) == multiset(s)
    ensures forall t :: t in Reverse(s) <==> t in s
  {
    if s != [] {
      ReverseMultiset(s[1..]);
      assert s == [s[0]] + s[1..];
    }
  }
}
