/**
 * The arithmetic a neuron performs (MLP/src/Neuronio.java): the weighted sum of
 * its inputs, the bipolar sigmoid, its derivative and the product used as a hash.
 * Java's `double` is modelled as `real`; `Math.exp` is not computed but passed in
 * as a function known only to be positive.
 */
module Ativacao {

  /** `Math.exp`: all the model assumes about it is that it is positive. */
  type ExpFn = f: real -> real | forall x {:trigger f(x)} :: 0.0 < f(x) witness One

  /** The constant 1, a positive function. */
  function One(x: real): real { 1.0 }

  /** `Double.MAX_VALUE`, the largest finite double: (2^53 - 1) * 2^971. */
  const MaxDouble: real := 179769313486231570814527423731704356798070567525844996598917476803157260780028538760589558632766878171540458953514382464234321326889464182768467546703537516986049910576551282076245490090389328944075868508455133942304583236903222948165808559332123348274797826204144723168738177180919299881250404026184124858368.0

  /** Every value lies above the lowest finite double. */
  predicate AboveLowest(s: seq<real>)
  {
    forall k :: 0 <= k < |s| ==> -MaxDouble < s[k]
  }

  /** `ativacao`: the bipolar sigmoid 2 / (1 + e^(-x)) - 1. */
  function BipolarSigmoid(exp: ExpFn, x: real): (a: real)
    ensures -1.0 < a < 1.0
    ensures exp(-x) == 1.0 ==> a == 0.0
    ensures 0.0 < a <==> exp(-x) < 1.0
  {
    var e := exp(-x);
    assert 1.0 < 1.0 + e;
    2.0 / (1.0 + e) - 1.0
  }

  /** `derivada`: the derivative of the bipolar sigmoid, written in terms of its output `a`. */
  function Derivative(a: real): (d: real)
    ensures d <= 0.5
    ensures a == 0.0 ==> d == 0.5
    ensures 0.0 < d <==> -1.0 < a < 1.0
  {
    assert (1.0 + a) * (1.0 - a) == 1.0 - a * a;
    (1.0 + a) * (1.0 - a) / 2.0
  }

  /** The weighted sum of `xs` against the first |xs| entries of `ws`, accumulated left to right. */
  function Dot(xs: seq<real>, ws: seq<real>): real
    requires |xs| <= |ws|
  {
    if |xs| == 0 then 0.0 else Dot(xs[..|xs| - 1], ws) + xs[|xs| - 1] * ws[|xs| - 1]
  }

  /** The product of all entries of `ws`, multiplied in from the left. */
  function Product(ws: seq<real>): real
  {
    if |ws| == 0 then 1.0 else Product(ws[..|ws| - 1]) * ws[|ws| - 1]
  }

  /** A sum against weights that are all zero is zero. */
  lemma {:induction false} DotZeroWeights(xs: seq<real>, ws: seq<real>)
    requires |xs| <= |ws|
    requires forall i :: 0 <= i < |ws| ==> ws[i] == 0.0
    ensures Dot(xs, ws) == 0.0
  {
    if |xs| > 0 {
      DotZeroWeights(xs[..|xs| - 1], ws);
    }
  }

  /** A sum over inputs that are all zero is zero, whatever the weights. */
  lemma {:induction false} DotZeroInputs(xs: seq<real>, ws: seq<real>)
    requires |xs| <= |ws|
    requires forall i :: 0 <= i < |xs| ==> xs[i] == 0.0
    ensures Dot(xs, ws) == 0.0
  {
    if |xs| > 0 {
      DotZeroInputs(xs[..|xs| - 1], ws);
    }
  }

  /** One zero factor makes the whole product zero. */
  lemma {:induction false} ProductZero(ws: seq<real>, i: int)
    requires 0 <= i < |ws| && ws[i] == 0.0
    ensures Product(ws) == 0.0
  {
    if i < |ws| - 1 {
      ProductZero(ws[..|ws| - 1], i);
    }
  }

  function Same(x: real): real
  {
    x
  }

  /**
   * `Math.pow(d, 2)`.  The second factor is routed through `Same` so that the solver
   * treats the product like any other product of two terms.
   */
  function Square(d: real): real
  {
    d * Same(d)
  }

  lemma SquareFacts(d: real)
    ensures 0.0 <= Square(d)
    ensures Square(d) == 0.0 <==> d == 0.0
  {
    if d < 0.0 {
      assert Square(d) == (-d) * (-Same(d));
    }
  }
}
