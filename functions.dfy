/** The sigmoid, its derivative, the loss function and its gradient of
    functions.h. The scalar logistic function `1 / (1 + e^-x)` that the
    sigmoid applies to every entry is left abstract: an exponential over the
    reals has no exact model here. */
module Functions {
  import opened LinAlg

  /** `s * (1 - s)`: the sigmoid's derivative written in terms of its value. */
  function Slope(s: real): (slope: real) {
    s * (1.0 - s)
  }

  /** `sigmoid(v)`: the logistic function applied to every entry. */
  function Sigmoid(logistic: real -> real, v: Vector): (r: Vector)
    ensures |r| == |v| && forall i :: 0 <= i < |v| ==> r[i] == logistic(v[i])
  {
    MapEntries(logistic, v);
    Map(logistic, v)
  }

  /** `sigmoid(v) * (1 - sigmoid(v))`, element-wise: entry `i` is
      `s * (1 - s)` for the sigmoid's entry `s = logistic(v[i])`. */
  function SigmoidDerivative(logistic: real -> real, v: Vector): (r: Vector)
    ensures |r| == |v|
    ensures forall i :: 0 <= i < |v| ==> r[i] == Slope(logistic(v[i]))
  {
    Slopes(Sigmoid(logistic, v))
  }

  /** The sigmoid derivative is itself an element-wise function, the one a
      layer built with `sigmoid_derivative` applies to its pre-activation. */
  lemma SigmoidDerivativeElementwise(logistic: real -> real, v: Vector)
    ensures SigmoidDerivative(logistic, v) == Map((x: real) => Slope(logistic(x)), v)
  {
    var f := (x: real) => Slope(logistic(x));
    MapEntries(f, v);
    assert forall i :: 0 <= i < |v| ==> SigmoidDerivative(logistic, v)[i] == Map(f, v)[i];
  }

  /** `Slope` applied to every entry. */
  function Slopes(s: Vector): (r: Vector)
    ensures |r| == |s| && forall i :: 0 <= i < |s| ==> r[i] == Slope(s[i])
  {
    if |s| == 0 then [] else [Slope(s[0])] + Slopes(s[1..])
  }

  /** Where the logistic function lies in [0, 1], the sigmoid derivative
      lies in [0, 1/4]. */
  lemma SigmoidDerivativeBounds(logistic: real -> real, v: Vector)
    requires forall i :: 0 <= i < |v| ==> 0.0 <= logistic(v[i]) <= 1.0
    ensures forall i :: 0 <= i < |v| ==> 0.0 <= SigmoidDerivative(logistic, v)[i] <= 0.25
  {
    forall i | 0 <= i < |v| ensures 0.0 <= SigmoidDerivative(logistic, v)[i] <= 0.25 {
      SlopeBounds(logistic(v[i]));
    }
  }

  lemma SlopeBounds(s: real)
    requires 0.0 <= s <= 1.0
    ensures 0.0 <= Slope(s) <= 0.25
  {
    var t := s - 0.5;
    assert Slope(s) == 0.25 - t * t by {
      assert s == 0.5 + t && 1.0 - s == 0.5 - t;
      assert (0.5 + t) * (0.5 - t) == 0.25 - t * t;
    }
    if t >= 0.0 {
      ProductNonNegative(t, t);
    } else {
      ProductNonNegative(-t, -t);
    }
    ProductNonNegative(s, 1.0 - s);
  }

  lemma ProductNonNegative(a: real, b: real)
    requires a >= 0.0 && b >= 0.0
    ensures a * b >= 0.0
  {
  }

  /** Half the squared distance between the output and the target. */
  function ErrorFunction(output: Vector, target: Vector): (loss: real)
    requires |output| == |target|
  {
    0.5 * SquaredNorm(Sub(output, target))
  }

  /** The gradient of `ErrorFunction` with respect to the output. */
  function ErrorFunctionDerivative(output: Vector, target: Vector): (g: Vector)
    requires |output| == |target|
    ensures |g| == |output|
    ensures forall i :: 0 <= i < |g| ==> g[i] == output[i] - target[i]
  {
    SubEntries(output, target);
    Sub(output, target)
  }

  /** The loss is never negative, and it is zero on a perfect output. */
  lemma ErrorFunctionNonNegative(output: Vector, target: Vector)
    requires |output| == |target|
    ensures ErrorFunction(output, target) >= 0.0
    ensures output == target ==> ErrorFunction(output, target) == 0.0
  {
    var g := ErrorFunctionDerivative(output, target);
    SquaredNormNonNegative(g);
    if output == target {
      SquaredNormOfZero(g);
    }
  }

  /** The gradient is the zero vector exactly when the output is the target. */
  lemma ErrorFunctionDerivativeZero(output: Vector, target: Vector)
    requires |output| == |target|
    ensures IsZero(ErrorFunctionDerivative(output, target)) <==> output == target
  {
    var g := ErrorFunctionDerivative(output, target);
    if IsZero(g) {
      forall i | 0 <= i < |output| ensures output[i] == target[i] {
        assert g[i] == 0.0;
      }
    }
  }

  /** `ErrorFunctionDerivative` is the exact gradient of `ErrorFunction`: the
      loss is quadratic, so moving output `i` by `h` changes it by exactly
      `h` times entry `i` of the derivative plus `h²/2`. */
  lemma ErrorFunctionDerivativeIsGradient(output: Vector, target: Vector, i: nat, h: real)
    requires |output| == |target| && i < |output|
    ensures ErrorFunction(output[i := output[i] + h], target)
         == ErrorFunction(output, target) + h * ErrorFunctionDerivative(output, target)[i] + 0.5 * h * h
  {
    var d := Sub(output, target);
    var e := Sub(output[i := output[i] + h], target);
    SubEntries(output, target);
    SubEntries(output[i := output[i] + h], target);
    forall k | 0 <= k < |e| ensures e[k] == d[i := d[i] + h][k] {
      if k == i {
        assert e[k] == (output[i] + h) - target[i];
      }
    }
    assert e == d[i := d[i] + h];
    SquaredNormBump(d, i, h);
  }
}
