/** Sums of a per-thread weight over the program counters of all threads. */
module Sums {

  function Total<T>(s: seq<T>, f: T -> nat): nat {
    if s == [] then 0 else f(s[0]) + Total(s[1..], f)
  }

  lemma {:induction false} TotalUpdate<T>(s: seq<T>, i: nat, v: T, f: T -> nat)
    requires i < |s|
    ensures Total(s[i := v], f) + f(s[i]) == Total(s, f) + f(v)
  {
    if i == 0 {
      assert s[i := v][1..] == s[1..];
    } else {
      assert s[i := v][1..] == s[1..][i - 1 := v];
      TotalUpdate(s[1..], i - 1, v, f);
    }
  }

  lemma {:induction false} TotalAtLeast<T>(s: seq<T>, i: nat, f: T -> nat)
    requires i < |s|
    ensures f(s[i]) <= Total(s, f)
  {
    if i > 0 {
      TotalAtLeast(s[1..], i - 1, f);
    }
  }

  lemma {:induction false} TotalPair<T>(s: seq<T>, i: nat, j: nat, f: T -> nat)
    requires i < j < |s|
    ensures f(s[i]) + f(s[j]) <= Total(s, f)
  {
    if i == 0 {
      TotalAtLeast(s[1..], j - 1, f);
    } else {
      TotalPair(s[1..], i - 1, j - 1, f);
    }
  }

  /** A total that is not zero has a witness. */
  lemma {:induction false} TotalWitness<T>(s: seq<T>, f: T -> nat) returns (i: nat)
    requires Total(s, f) > 0
    ensures i < |s| && f(s[i]) > 0
  {
    if f(s[0]) > 0 {
      i := 0;
    } else {
      i := TotalWitness(s[1..], f);
      i := i + 1;
    }
  }

  lemma {:induction false} TotalZero<T>(s: seq<T>, f: T -> nat)
    ensures Total(s, f) == 0 <==> forall i :: 0 <= i < |s| ==> f(s[i]) == 0
  {
    if Total(s, f) > 0 {
      var w := TotalWitness(s, f);
    } else {
      forall i | 0 <= i < |s| ensures f(s[i]) == 0 { TotalAtLeast(s, i, f); }
    }
  }

  lemma {:induction false} TotalBound<T>(s: seq<T>, f: T -> nat)
    requires forall x :: x in s ==> f(x) <= 1
    ensures Total(s, f) <= |s|
  {
    if s != [] {
      assert s[0] in s;
      TotalBound(s[1..], f);
    }
  }
}
