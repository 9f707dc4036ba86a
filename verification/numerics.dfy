/** Exact real arithmetic standing in for the numpy reductions the pipeline
    uses, plus the integer conversions Python performs. Square roots are not
    native to Dafny's reals, so the root is a parameter of which only
    non-negativity is known. */
module Numerics {

  /** The stabilising `1e-6` the pipeline adds to norms and deviations. */
  const Epsilon: real := 0.000001

  function Sum(s: seq<real>): real
  {
    if |s| == 0 then 0.0 else s[0] + Sum(s[1..])
  }

  function Mean(s: seq<real>): real
    requires |s| > 0
  {
    Sum(s) / |s| as real
  }

  /** The only fact the model relies on about the square root. */
  ghost predicate RootNonNegative(sqrt: real -> real)
  {
    forall x :: 0.0 <= x ==> 0.0 <= sqrt(x)
  }

  /** Squared deviations from the mean. */
  function Deviations(s: seq<real>): (d: seq<real>)
    requires |s| > 0
    ensures |d| == |s|
    ensures forall i :: 0 <= i < |d| ==> 0.0 <= d[i]
  {
    var m := Mean(s);
    seq(|s|, i requires 0 <= i < |s| => Square(s[i] - m))
  }

  function Square(x: real): (y: real)
    ensures 0.0 <= y
  {
    if x < 0.0 then (-x) * (-x) else x * x
  }

  lemma {:induction false} SumNonNegative(s: seq<real>)
    requires forall i :: 0 <= i < |s| ==> 0.0 <= s[i]
    ensures 0.0 <= Sum(s)
  {
    if |s| > 0 {
      SumNonNegative(s[1..]);
    }
  }

  /** Population variance (numpy's default, ddof = 0); never negative. */
  function Variance(s: seq<real>): (v: real)
    requires |s| > 0
    ensures 0.0 <= v
  {
    var d := Deviations(s);
    SumNonNegative(d);
    Mean(d)
  }

  /** Population standard deviation, `np.std`. */
  function Std(sqrt: real -> real, s: seq<real>): (r: real)
    requires RootNonNegative(sqrt)
    requires |s| > 0
    ensures 0.0 <= r
  {
    sqrt(Variance(s))
  }

  /** Python's `int()` on a float: rounds toward zero. */
  function Trunc(x: real): (n: int)
    ensures 0.0 <= x ==> n as real <= x < n as real + 1.0
    ensures x < 0.0 ==> n as real - 1.0 < x <= n as real
  {
    if x >= 0.0 then x.Floor else -((-x).Floor)
  }

  /** The least integer not below `x`. */
  function Ceil(x: real): (n: int)
    ensures x <= n as real < x + 1.0
  {
    -((-x).Floor)
  }

  /** `np.clip(x, lo, hi)` for `lo <= hi`. */
  function Clip(x: real, lo: real, hi: real): (y: real)
    requires lo <= hi
    ensures lo <= y <= hi
    ensures lo <= x <= hi ==> y == x
    ensures x < lo ==> y == lo
    ensures hi < x ==> y == hi
  {
    if x < lo then lo else if hi < x then hi else x
  }

  /** The samples in the opposite order. */
  function Reverse(v: seq<real>): (r: seq<real>)
    ensures |r| == |v|
  {
    seq(|v|, i requires 0 <= i < |v| => v[|v| - 1 - i])
  }

  lemma {:induction false} SumConcat(a: seq<real>, b: seq<real>)
    ensures Sum(a + b) == Sum(a) + Sum(b)
  {
    if |a| > 0 {
      assert (a + b)[1..] == a[1..] + b;
      SumConcat(a[1..], b);
    } else {
      assert a + b == b;
    }
  }

  /** Summation does not depend on the order of the samples. */
  lemma {:induction false} SumReverse(s: seq<real>)
    ensures Sum(Reverse(s)) == Sum(s)
  {
    if |s| > 0 {
      assert Reverse(s) == Reverse(s[1..]) + [s[0]];
      SumConcat(Reverse(s[1..]), [s[0]]);
      SumReverse(s[1..]);
    }
  }

  /** The mean and the deviation of a window do not depend on its order. */
  lemma StdReverse(sqrt: real -> real, s: seq<real>)
    requires RootNonNegative(sqrt)
    requires |s| > 0
    ensures Mean(Reverse(s)) == Mean(s)
    ensures Std(sqrt, Reverse(s)) == Std(sqrt, s)
  {
    SumReverse(s);
    assert Deviations(Reverse(s)) == Reverse(Deviations(s));
    SumReverse(Deviations(s));
  }

  /** `(s - a) / b`, element-wise. */
  function ShiftScale(s: seq<real>, a: real, b: real): (t: seq<real>)
    requires b != 0.0
    ensures |t| == |s|
  {
    seq(|s|, i requires 0 <= i < |s| => (s[i] - a) / b)
  }

  /** Shifting and scaling commutes with summation. */
  lemma {:induction false} SumShiftScale(s: seq<real>, a: real, b: real)
    requires b != 0.0
    ensures Sum(ShiftScale(s, a, b)) == (Sum(s) - |s| as real * a) / b
  {
    if |s| > 0 {
      var t := ShiftScale(s, a, b);
      assert t[1..] == ShiftScale(s[1..], a, b);
      SumShiftScale(s[1..], a, b);
      ShiftScaleStep(s[0], Sum(s[1..]), (|s| - 1) as real, a, b);
    }
  }

  lemma ShiftScaleStep(x: real, rest: real, m: real, a: real, b: real)
    requires b != 0.0
    ensures (x - a) / b + (rest - m * a) / b == ((x + rest) - (m + 1.0) * a) / b
  {
  }

  /** `n` copies of `c`. */
  function Fill(n: nat, c: real): (s: seq<real>)
    ensures |s| == n
    ensures forall i :: 0 <= i < n ==> s[i] == c
  {
    seq(n, _ => c)
  }

  lemma {:induction false} SumFill(n: nat, c: real)
    ensures Sum(Fill(n, c)) == n as real * c
  {
    if n > 0 {
      assert Fill(n, c)[1..] == Fill(n - 1, c);
      SumFill(n - 1, c);
    }
  }

  lemma {:induction false} SumConstant(s: seq<real>, c: real)
    requires forall i :: 0 <= i < |s| ==> s[i] == c
    ensures Sum(s) == |s| as real * c
  {
    assert s == Fill(|s|, c);
    SumFill(|s|, c);
  }
}
