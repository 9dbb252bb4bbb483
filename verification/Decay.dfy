// Signed powers of a nonzero base and finite sums: the arithmetic under the
// decayed recurrences.

module Decay {
  // g^e for any integer exponent.
  function Pow(g: real, e: int): (r: real)
    requires g != 0.0
    ensures r != 0.0
    decreases if e < 0 then -e else e
  {
    if e == 0 then 1.0
    else if e > 0 then NonZeroProduct(g, Pow(g, e - 1)); g * Pow(g, e - 1)
    else Pow(g, e + 1) / g
  }

  lemma NonZeroProduct(a: real, b: real)
    requires a != 0.0 && b != 0.0
    ensures a * b != 0.0
  {
  }

  lemma PowStep(g: real, e: int)
    requires g != 0.0
    ensures Pow(g, e + 1) == g * Pow(g, e)
  {
    if e < 0 {
      assert Pow(g, e) == Pow(g, e + 1) / g;
      DivideBack(Pow(g, e + 1), g);
    }
  }

  lemma DivideBack(x: real, g: real)
    requires g != 0.0
    ensures g * (x / g) == x
  {
  }

  // Exponents add.
  lemma {:induction false} PowAdd(g: real, a: int, b: int)
    requires g != 0.0
    ensures Pow(g, a + b) == Pow(g, a) * Pow(g, b)
    decreases if b < 0 then -b else b
  {
    hide Pow;
    if b > 0 {
      PowAdd(g, a, b - 1);
      PowStep(g, a + b - 1);
      PowStep(g, b - 1);
      Shuffle(g, Pow(g, a), Pow(g, b - 1));
    } else if b < 0 {
      PowAdd(g, a, b + 1);
      PowStep(g, a + b);
      PowStep(g, b);
      Shuffle(g, Pow(g, a), Pow(g, b));
      Cancel(g, Pow(g, a + b), Pow(g, a) * Pow(g, b));
    } else {
      PowZero(g);
    }
  }

  lemma PowZero(g: real)
    requires g != 0.0
    ensures Pow(g, 0) == 1.0
  {
  }

  lemma Shuffle(g: real, x: real, y: real)
    ensures g * (x * y) == x * (g * y)
  {
  }

  lemma Cancel(g: real, x: real, y: real)
    requires g != 0.0 && g * x == g * y
    ensures x == y
  {
  }

  // On a base strictly between zero and one the powers are all different.
  lemma {:induction false} PowInjective(g: real, a: int, b: int)
    requires 0.0 < g < 1.0
    ensures Pow(g, a) == Pow(g, b) <==> a == b
  {
    if a < b {
      PowFalls(g, a, b);
    } else if b < a {
      PowFalls(g, b, a);
    }
  }

  lemma {:induction false} PowPositive(g: real, e: int)
    requires 0.0 < g
    ensures Pow(g, e) > 0.0
    decreases if e < 0 then -e else e
  {
    if e > 0 {
      PowPositive(g, e - 1);
    } else if e < 0 {
      PowPositive(g, e + 1);
    }
  }

  lemma {:induction false} PowFalls(g: real, a: int, b: int)
    requires 0.0 < g < 1.0 && a < b
    ensures Pow(g, b) < Pow(g, a)
    decreases b - a
  {
    hide Pow;
    OneFall(g, b - 1);
    if b - 1 <= a {
    } else {
      PowFalls(g, a, b - 1);
    }
  }

  lemma OneFall(g: real, e: int)
    requires 0.0 < g < 1.0
    ensures Pow(g, e + 1) < Pow(g, e)
  {
    hide Pow;
    PowPositive(g, e);
    PowStep(g, e);
    Shrinks(g, Pow(g, e));
  }

  lemma Shrinks(g: real, x: real)
    requires 0.0 < g < 1.0 && x > 0.0
    ensures g * x < x
  {
  }

  // ---------------------------------------------------------------------------
  //  Sums
  // ---------------------------------------------------------------------------

  function Sum(f: int -> real, lo: int, hi: int): real
    decreases hi - lo
  {
    if hi <= lo then 0.0 else Sum(f, lo, hi - 1) + f(hi - 1)
  }

  lemma {:induction false} SumEq(f: int -> real, g: int -> real, lo: int, hi: int)
    requires forall i :: lo <= i < hi ==> f(i) == g(i)
    ensures Sum(f, lo, hi) == Sum(g, lo, hi)
    decreases hi - lo
  {
    if hi <= lo {
    } else {
      SumEq(f, g, lo, hi - 1);
    }
  }

  function Scaled(c: real, f: int -> real): int -> real {
    i => c * f(i)
  }

  lemma {:induction false} SumScale(c: real, f: int -> real, lo: int, hi: int)
    ensures Sum(Scaled(c, f), lo, hi) == c * Sum(f, lo, hi)
    decreases hi - lo
  {
    if hi <= lo {
    } else {
      SumScale(c, f, lo, hi - 1);
      Distribute(c, Sum(f, lo, hi - 1), f(hi - 1));
    }
  }

  lemma Distribute(c: real, x: real, y: real)
    ensures c * (x + y) == c * x + c * y
  {
  }

  function Plus(f: int -> real, g: int -> real): int -> real {
    i => f(i) + g(i)
  }

  lemma {:induction false} SumPlus(f: int -> real, g: int -> real, lo: int, hi: int)
    ensures Sum(Plus(f, g), lo, hi) == Sum(f, lo, hi) + Sum(g, lo, hi)
    decreases hi - lo
  {
    if hi <= lo {
    } else {
      SumPlus(f, g, lo, hi - 1);
    }
  }

  lemma {:induction false} SumSplit(f: int -> real, lo: int, mid: int, hi: int)
    requires lo <= mid <= hi
    ensures Sum(f, lo, hi) == Sum(f, lo, mid) + Sum(f, mid, hi)
    decreases hi - mid
  {
    if hi <= mid {
    } else {
      SumSplit(f, lo, mid, hi - 1);
    }
  }

  // f counted from another origin.
  lemma {:induction false} SumShift(f: int -> real, g: int -> real, s: int, lo: int, hi: int)
    requires forall i :: lo <= i < hi ==> g(i) == f(i + s)
    ensures Sum(g, lo, hi) == Sum(f, lo + s, hi + s)
    decreases hi - lo
  {
    if hi <= lo {
    } else {
      SumShift(f, g, s, lo, hi - 1);
    }
  }

  lemma {:induction false} SumZero(f: int -> real, lo: int, hi: int)
    requires forall i :: lo <= i < hi ==> f(i) == 0.0
    ensures Sum(f, lo, hi) == 0.0
    decreases hi - lo
  {
    if hi <= lo {
    } else {
      SumZero(f, lo, hi - 1);
    }
  }

  // A double sum over a rectangle, by rows and by columns.
  type Grid = (int, int) -> real

  function RowSum(f: Grid, lo: int, hi: int): int -> real {
    i => Sum(Row(f, i), lo, hi)
  }

  function Row(f: Grid, i: int): int -> real {
    j => f(i, j)
  }

  function Column(f: Grid, j: int): int -> real {
    i => f(i, j)
  }

  function ColumnSum(f: Grid, lo: int, hi: int): int -> real {
    j => Sum(Column(f, j), lo, hi)
  }

  // The order of summation does not matter.
  lemma {:induction false} SumSwap(f: Grid, lo: int, hi: int, lo2: int, hi2: int)
    ensures Sum(RowSum(f, lo2, hi2), lo, hi) == Sum(ColumnSum(f, lo, hi), lo2, hi2)
    decreases hi - lo
  {
    if hi <= lo {
      SumZero(ColumnSum(f, lo, hi), lo2, hi2);
    } else {
      SumSwap(f, lo, hi - 1, lo2, hi2);
      SumPlus(ColumnSum(f, lo, hi - 1), Row(f, hi - 1), lo2, hi2);
      SumEq(ColumnSum(f, lo, hi), Plus(ColumnSum(f, lo, hi - 1), Row(f, hi - 1)), lo2, hi2);
    }
  }
}
