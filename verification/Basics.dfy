/** Stock datatypes and sums over sequences, shared by all the protocol modules. */
module Basics {

  datatype Option<+T> = None | Some(value: T)

  /** 1 for true, 0 for false: lets a flag take part in a reference ledger. */
  function Bit(b: bool): nat {
    if b then 1 else 0
  }

  /** The sum of `f` over all the elements of `s`. */
  function Sum<T>(s: seq<T>, f: T -> nat): nat {
    if s == [] then 0 else Sum(s[..|s| - 1], f) + f(s[|s| - 1])
  }

  lemma {:induction false} SumAppend<T>(s: seq<T>, f: T -> nat, v: T)
    ensures Sum(s + [v], f) == Sum(s, f) + f(v)
  {
    assert (s + [v])[..|s|] == s;
  }

  /** The sum over the first k elements grows by the next one. */
  lemma SumPrefix<T>(s: seq<T>, f: T -> nat, k: nat)
    requires k < |s|
    ensures Sum(s[..k + 1], f) == Sum(s[..k], f) + f(s[k])
  {
    assert s[..k + 1] == s[..k] + [s[k]];
    SumAppend(s[..k], f, s[k]);
  }

  lemma {:induction false} SumUpdate<T>(s: seq<T>, f: T -> nat, i: nat, v: T)
    requires i < |s|
    ensures Sum(s[i := v], f) + f(s[i]) == Sum(s, f) + f(v)
  {
    var n := |s| - 1;
    if i == n {
      assert s[i := v][..n] == s[..n];
    } else {
      assert s[i := v][..n] == s[..n][i := v];
      SumUpdate(s[..n], f, i, v);
    }
  }

  /** No element weighs more than the whole, and two elements not more than the whole together. */
  lemma {:induction false} SumAt<T>(s: seq<T>, f: T -> nat, i: nat)
    requires i < |s|
    ensures f(s[i]) <= Sum(s, f)
  {
    if i < |s| - 1 {
      SumAt(s[..|s| - 1], f, i);
    }
  }

  lemma {:induction false} SumTwo<T>(s: seq<T>, f: T -> nat, i: nat, j: nat)
    requires i < j < |s|
    ensures f(s[i]) + f(s[j]) <= Sum(s, f)
  {
    if j == |s| - 1 {
      SumAt(s[..j], f, i);
    } else {
      SumTwo(s[..|s| - 1], f, i, j);
    }
  }

  /** A sum that is zero has only zero terms. */
  lemma SumZero<T>(s: seq<T>, f: T -> nat)
    requires Sum(s, f) == 0
    ensures forall i :: 0 <= i < |s| ==> f(s[i]) == 0
  {
    forall i | 0 <= i < |s| ensures f(s[i]) == 0 {
      SumAt(s, f, i);
    }
  }

  /** A sum whose terms are all zero is zero. */
  lemma {:induction false} SumOfZeros<T>(s: seq<T>, f: T -> nat)
    requires forall i :: 0 <= i < |s| ==> f(s[i]) == 0
    ensures Sum(s, f) == 0
  {
    if s != [] {
      SumOfZeros(s[..|s| - 1], f);
    }
  }
}
