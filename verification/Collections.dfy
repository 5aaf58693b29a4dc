/** Sizes of finite sets, sequences without repetition, and sums over sequences. */
module Collections {

  predicate Distinct(s: seq<int>) {
    forall i, j | 0 <= i < j < |s| :: s[i] != s[j]
  }

  /** The sequence without the first occurrence of m. */
  function Remove(s: seq<nat>, m: nat): seq<nat> {
    if s == [] then [] else if s[0] == m then s[1..] else [s[0]] + Remove(s[1..], m)
  }

  lemma SubsetSize<T>(a: set<T>, b: set<T>)
    requires a <= b
    ensures |a| <= |b|
  {
    assert b == a + (b - a);
  }

  lemma {:induction false} BelowCount(s: set<nat>, n: nat)
    requires forall x | x in s :: x < n
    ensures |s| <= n
  {
    if n == 0 {
      assert s == {};
    } else {
      BelowCount(s - {n - 1}, n - 1);
      if n - 1 in s { assert s == s - {n - 1} + {n - 1}; } else { assert s == s - {n - 1}; }
    }
  }

  lemma {:induction false} AboveCount(s: set<nat>, n: nat)
    requires forall l: nat | l < n :: l in s
    ensures n <= |s|
  {
    if n > 0 {
      AboveCount(s - {n - 1}, n - 1);
    }
  }

  /** No element of a occurs twice in s, so s is no longer than a is large. */
  lemma {:induction false} NoLongerThan<T>(s: seq<T>, a: set<T>)
    requires (forall i | 0 <= i < |s| :: s[i] in a) && forall i, j | 0 <= i < j < |s| :: s[i] != s[j]
    ensures |s| <= |a|
  {
    if s != [] { NoLongerThan(s[..|s| - 1], a - {s[|s| - 1]}); }
  }

  /** The elements of a, or n of them, in some order. */
  lemma {:induction false} Enumerate<T>(a: set<T>, n: nat) returns (s: seq<T>)
    requires n <= |a|
    ensures |s| == n && (forall i | 0 <= i < n :: s[i] in a) && forall i, j | 0 <= i < j < n :: s[i] != s[j]
  {
    s := [];
    if n > 0 {
      var x :| x in a;
      s := Enumerate(a - {x}, n - 1);
      s := s + [x];
    }
  }

  /** The sum of f over the elements. */
  function Sum<T>(s: seq<T>, f: T -> nat): nat {
    if s == [] then 0 else Sum(s[..|s| - 1], f) + f(s[|s| - 1])
  }

  lemma {:induction false} SumUpdate<T>(s: seq<T>, i: nat, x: T, f: T -> nat)
    requires i < |s|
    ensures Sum(s[i := x], f) + f(s[i]) == Sum(s, f) + f(x)
  {
    var n := |s| - 1;
    if i < n {
      SumUpdate(s[..n], i, x, f);
      assert s[i := x][..n] == s[..n][i := x];
    } else {
      assert s[i := x][..n] == s[..n];
    }
  }

  lemma SumAppend<T>(s: seq<T>, x: T, f: T -> nat)
    ensures Sum(s + [x], f) == Sum(s, f) + f(x)
  {
    assert (s + [x])[..|s|] == s;
  }

  lemma {:induction false} SumSame<T>(s: seq<T>, f: T -> nat, g: T -> nat)
    requires forall i | 0 <= i < |s| :: f(s[i]) == g(s[i])
    ensures Sum(s, f) == Sum(s, g)
  {
    if s != [] { SumSame(s[..|s| - 1], f, g); }
  }

  lemma {:induction false} SumZero<T>(s: seq<T>, f: T -> nat)
    ensures Sum(s, f) == 0 <==> forall i | 0 <= i < |s| :: f(s[i]) == 0
  {
    if s != [] { SumZero(s[..|s| - 1], f); }
  }
}
