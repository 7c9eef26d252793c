/** Counting over sequences: sums of a weight, occurrences of an element. */
module Counting {
  function Bit(b: bool): nat {
    if b then 1 else 0
  }

  function Sum<T>(xs: seq<T>, f: T -> nat): nat {
    if xs == [] then 0 else f(xs[0]) + Sum(xs[1..], f)
  }

  function Occurs<T(==)>(xs: seq<T>, x: T): nat {
    if xs == [] then 0 else Bit(xs[0] == x) + Occurs(xs[1..], x)
  }

  lemma {:induction false} SumUpdate<T>(xs: seq<T>, i: nat, x: T, f: T -> nat)
    requires i < |xs|
    ensures Sum(xs[i := x], f) + f(xs[i]) == Sum(xs, f) + f(x)
  {
    var ys := xs[i := x];
    if i == 0 {
      assert ys[1..] == xs[1..];
    } else {
      assert ys[1..] == xs[1..][i - 1 := x];
      SumUpdate(xs[1..], i - 1, x, f);
    }
  }

  lemma {:induction false} SumAppend<T>(xs: seq<T>, x: T, f: T -> nat)
    ensures Sum(xs + [x], f) == Sum(xs, f) + f(x)
  {
    if xs == [] {
      assert xs + [x] == [x];
    } else {
      assert (xs + [x])[1..] == xs[1..] + [x];
      SumAppend(xs[1..], x, f);
    }
  }

  lemma {:induction false} SumAtLeast<T>(xs: seq<T>, i: nat, f: T -> nat)
    requires i < |xs|
    ensures f(xs[i]) <= Sum(xs, f)
  {
    if i > 0 {
      SumAtLeast(xs[1..], i - 1, f);
    }
  }

  lemma {:induction false} SumTwo<T>(xs: seq<T>, i: nat, j: nat, f: T -> nat)
    requires i < j < |xs|
    ensures f(xs[i]) + f(xs[j]) <= Sum(xs, f)
  {
    if i == 0 {
      SumAtLeast(xs[1..], j - 1, f);
    } else {
      SumTwo(xs[1..], i - 1, j - 1, f);
    }
  }

  /** A positive sum has a positive summand. */
  lemma {:induction false} SumWitness<T>(xs: seq<T>, f: T -> nat) returns (i: nat)
    requires Sum(xs, f) > 0
    ensures i < |xs| && f(xs[i]) > 0
  {
    if f(xs[0]) > 0 {
      i := 0;
    } else {
      var j := SumWitness(xs[1..], f);
      i := j + 1;
    }
  }

  lemma {:induction false} SumMonotone<T(!new)>(xs: seq<T>, f: T -> nat, g: T -> nat)
    requires forall x :: f(x) <= g(x)
    ensures Sum(xs, f) <= Sum(xs, g)
  {
    if xs != [] {
      SumMonotone(xs[1..], f, g);
    }
  }

  lemma {:induction false} OccursAppend<T>(xs: seq<T>, y: T, x: T)
    ensures Occurs(xs + [y], x) == Occurs(xs, x) + Bit(y == x)
  {
    if xs == [] {
      assert xs + [y] == [y];
    } else {
      assert (xs + [y])[1..] == xs[1..] + [y];
      OccursAppend(xs[1..], y, x);
    }
  }

  lemma {:induction false} OccursIsMultiplicity<T>(xs: seq<T>, x: T)
    ensures Occurs(xs, x) == multiset(xs)[x]
  {
    if xs != [] {
      OccursIsMultiplicity(xs[1..], x);
      assert xs == [xs[0]] + xs[1..];
    }
  }

  lemma {:induction false} OccursAt<T>(xs: seq<T>, i: nat, x: T)
    requires i < |xs| && xs[i] == x
    ensures Occurs(xs, x) >= 1
  {
    if i > 0 {
      OccursAt(xs[1..], i - 1, x);
    }
  }

  lemma {:induction false} OccursTwice<T>(xs: seq<T>, i: nat, j: nat, x: T)
    requires i < j < |xs| && xs[i] == x && xs[j] == x
    ensures Occurs(xs, x) >= 2
  {
    if i == 0 {
      OccursAt(xs[1..], j - 1, x);
    } else {
      OccursTwice(xs[1..], i - 1, j - 1, x);
    }
  }

  lemma {:induction false} OccursWhere<T>(xs: seq<T>, x: T) returns (i: nat)
    requires Occurs(xs, x) >= 1
    ensures i < |xs| && xs[i] == x
  {
    if xs[0] == x {
      i := 0;
    } else {
      var j := OccursWhere(xs[1..], x);
      i := j + 1;
    }
  }

  lemma Scale(k: nat, l: nat, m: nat)
    requires k <= l
    ensures k * m <= l * m
  {
  }
}
