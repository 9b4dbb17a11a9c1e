/** Sums of a weight over a sequence: how many seats wait, how many permits are held. */
module Totals {
  ghost function Total<T>(s: seq<T>, weight: T -> nat): nat {
    if s == [] then 0 else weight(s[0]) + Total(s[1..], weight)
  }

  /** Changing one element changes the total by the difference of the two weights. */
  lemma {:induction false} TotalUpdate<T>(s: seq<T>, i: nat, x: T, weight: T -> nat)
    requires i < |s|
    ensures Total(s[i := x], weight) + weight(s[i]) == Total(s, weight) + weight(x)
  {
    if i == 0 {
      assert s[i := x][1..] == s[1..];
    } else {
      assert s[i := x][1..] == s[1..][i - 1 := x];
      TotalUpdate(s[1..], i - 1, x, weight);
    }
  }

  /** One element's weight is part of the total. */
  lemma {:induction false} TotalAtLeast<T>(s: seq<T>, i: nat, weight: T -> nat)
    requires i < |s|
    ensures weight(s[i]) <= Total(s, weight)
  {
    if i > 0 {
      TotalAtLeast(s[1..], i - 1, weight);
    }
  }

  /** A positive total has an element of positive weight. */
  lemma {:induction false} TotalWitness<T>(s: seq<T>, weight: T -> nat) returns (i: nat)
    requires Total(s, weight) > 0
    ensures i < |s| && weight(s[i]) > 0
  {
    if weight(s[0]) > 0 {
      i := 0;
    } else {
      var j := TotalWitness(s[1..], weight);
      i := j + 1;
    }
  }

  /** A smaller weight has a smaller total, and an equal total only if it is equal everywhere. */
  lemma {:induction false} TotalMonotone<T>(s: seq<T>, low: T -> nat, high: T -> nat)
    requires forall x :: x in s ==> low(x) <= high(x)
    ensures Total(s, low) <= Total(s, high)
    ensures Total(s, low) == Total(s, high) ==> forall i :: 0 <= i < |s| ==> low(s[i]) == high(s[i])
  {
    if s != [] {
      TotalMonotone(s[1..], low, high);
      assert forall i :: 1 <= i < |s| ==> s[i] == s[1..][i - 1];
    }
  }

  lemma {:induction false} TotalZero<T>(s: seq<T>, weight: T -> nat)
    requires forall x :: x in s ==> weight(x) == 0
    ensures Total(s, weight) == 0
  {
    if s != [] {
      TotalZero(s[1..], weight);
    }
  }

  lemma {:induction false} TotalConstant<T>(s: seq<T>, weight: T -> nat, c: nat)
    requires forall x :: x in s ==> weight(x) == c
    ensures Total(s, weight) == |s| * c
  {
    if s != [] {
      TotalConstant(s[1..], weight, c);
    }
  }

  lemma {:induction false} TotalAppend<T>(s: seq<T>, x: T, weight: T -> nat)
    ensures Total(s + [x], weight) == Total(s, weight) + weight(x)
  {
    if s == [] {
      assert s + [x] == [x];
    } else {
      assert (s + [x])[1..] == s[1..] + [x];
      TotalAppend(s[1..], x, weight);
    }
  }

  lemma {:induction false} TotalJoin<T>(a: seq<T>, b: seq<T>, weight: T -> nat)
    ensures Total(a + b, weight) == Total(a, weight) + Total(b, weight)
  {
    if a == [] {
      assert a + b == b;
    } else {
      assert (a + b)[1..] == a[1..] + b;
      TotalJoin(a[1..], b, weight);
    }
  }
}
