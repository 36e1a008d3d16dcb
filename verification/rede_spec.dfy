/**
 * The perceptron as values (MLP/src/Rede.java): its parameters, what it computes
 * for an input, the error-correction step that trains it, and the counts the
 * trainer takes of its predictions.  The classes in rede.dfy and treinamento.dfy
 * are proved to behave as these functions say.
 */
module RedeSpec {
  import opened Wrappers
  import opened Ativacao
  import opened Neuronios

  /** A labelled sample: the feature values and the class index. */
  datatype Tupla = Tupla(features: seq<real>, classe: int)

  /** The parameters of the two layers: hidden units, then output units. */
  datatype NetParams = NetParams(hidden: seq<UnitParams>, output: seq<UnitParams>)

  /**
   * The dimensions of a network: whether every unit of each layer has as many weights
   * as the first unit of that layer, and each layer's unit count and that width.
   */
  datatype Shape = Shape(uniform: bool, hiddenUnits: nat, hiddenWidth: nat, outputUnits: nat, outputWidth: nat)

  /** The number of weights of the first unit of a layer, 0 for an empty layer. */
  function Width(units: seq<UnitParams>): nat
  {
    if |units| == 0 then 0 else |units[0].weights|
  }

  function ShapeOf(p: NetParams): Shape
  {
    Shape(Uniform(p.hidden) && Uniform(p.output), |p.hidden|, Width(p.hidden), |p.output|, Width(p.output))
  }

  /**
   * A network of this shape can take an input of `n` values: every weight it reads
   * exists.  Only networks with uniform layers, the only ones built, are considered.
   */
  predicate ShapeAccepts(s: Shape, n: nat)
  {
    s.uniform && (s.hiddenUnits == 0 || n <= s.hiddenWidth) && (s.outputUnits == 0 || s.hiddenUnits <= s.outputWidth)
  }

  predicate Accepts(p: NetParams, n: nat)
  {
    ShapeAccepts(ShapeOf(p), n)
  }

  /** A network of this shape can take every sample of `set_`. */
  predicate ShapeAcceptsAll(s: Shape, set_: seq<Tupla>)
  {
    forall i :: 0 <= i < |set_| ==> ShapeAccepts(s, |set_[i].features|)
  }

  predicate AcceptsAll(p: NetParams, set_: seq<Tupla>)
  {
    ShapeAcceptsAll(ShapeOf(p), set_)
  }

  /** A prefix one sample longer is taken exactly when the shorter one and that sample are; a sample not taken spoils the whole set. */
  lemma AcceptsAllStep(p: NetParams, set_: seq<Tupla>, i: nat)
    requires i < |set_|
    ensures AcceptsAll(p, set_[..i + 1]) <==> AcceptsAll(p, set_[..i]) && Accepts(p, |set_[i].features|)
    ensures !Accepts(p, |set_[i].features|) ==> !AcceptsAll(p, set_)
  {
    assert set_[..i + 1][i] == set_[i];
    assert forall k :: 0 <= k < i ==> set_[..i + 1][k] == set_[..i][k];
  }

  /** Whether a network takes an input of `n` values depends on its shape alone. */
  lemma SameShapeAccept(p: NetParams, q: NetParams, n: nat)
    requires ShapeOf(p) == ShapeOf(q)
    ensures Accepts(p, n) == Accepts(q, n)
  {
  }

  /** Which samples a network takes depends on its shape alone. */
  lemma SameShapeAccepts(p: NetParams, q: NetParams, set_: seq<Tupla>)
    requires ShapeOf(p) == ShapeOf(q)
    ensures AcceptsAll(p, set_) == AcceptsAll(q, set_)
  {
  }

  /** The output layer's values for input `xs`. */
  function Outputs(exp: ExpFn, p: NetParams, xs: seq<real>): seq<real>
    requires Accepts(p, |xs|)
  {
    LayerOutputs(exp, p.output, LayerOutputs(exp, p.hidden, xs))
  }

  /** `i` is the first index holding the largest value of `s`. */
  predicate IsFirstMax(s: seq<real>, i: int)
  {
    0 <= i < |s| &&
    (forall j :: 0 <= j < |s| ==> s[j] <= s[i]) &&
    (forall j :: 0 <= j < i ==> s[j] < s[i])
  }

  /** The index of the first maximum, or -1 for an empty sequence. */
  function ArgMax(s: seq<real>): (r: int)
    ensures r == -1 <==> |s| == 0
    ensures |s| > 0 ==> IsFirstMax(s, r)
  {
    if |s| == 0 then -1
    else
      var r := ArgMax(s[..|s| - 1]);
      if r == -1 || s[|s| - 1] > s[r] then |s| - 1 else r
  }

  /** Only one index is the first maximum. */
  lemma FirstMaxUnique(s: seq<real>, i: int, j: int)
    requires IsFirstMax(s, i) && IsFirstMax(s, j)
    ensures i == j
  {
    assert s[i] <= s[j] && s[j] <= s[i];
  }

  /** The class the network assigns to `xs`: the output unit with the largest value. */
  function Predict(exp: ExpFn, p: NetParams, xs: seq<real>): int
    requires Accepts(p, |xs|)
  {
    ArgMax(Outputs(exp, p, xs))
  }

  /** A network whose output units all have zero bias and weights assigns every input to class 0. */
  lemma {:induction false} ZeroOutputLayerPredictsFirst(exp: ExpFn, p: NetParams, xs: seq<real>)
    requires Accepts(p, |xs|) && |p.output| > 0
    requires forall k :: 0 <= k < |p.output| ==> p.output[k].bias == 0.0
    requires forall k, i :: 0 <= k < |p.output| && 0 <= i < |p.output[k].weights| ==> p.output[k].weights[i] == 0.0
    ensures Predict(exp, p, xs) == 0
  {
    var z := LayerOutputs(exp, p.hidden, xs);
    var y := Outputs(exp, p, xs);
    forall k | 0 <= k < |y|
      ensures y[k] == BipolarSigmoid(exp, 0.0)
    {
      DotZeroWeights(z, p.output[k].weights);
    }
    assert IsFirstMax(y, 0);
    FirstMaxUnique(y, 0, ArgMax(y));
  }

  // ---------------------------------------------------------------------------
  // One training session (error back-propagation with a fixed learning rate).

  /** The target output for a sample of class `classe`: 1 at the class's unit, -1 at every other. */
  function Targets(o: nat, classe: int): (t: seq<real>)
    ensures |t| == o
  {
    seq(o, k => if k == classe then 1.0 else -1.0)
  }

  /** The output units' error terms: (target - output) times the derivative at the output. */
  function OutputDeltas(y: seq<real>, t: seq<real>): (d: seq<real>)
    requires |t| == |y|
    ensures |d| == |y|
  {
    seq(|y|, k => if 0 <= k < |y| then (t[k] - y[k]) * Derivative(y[k]) else 0.0)
  }

  /** A unit's error term has the sign of (target - output) when the output lies strictly inside (-1, 1). */
  lemma OutputDeltaSign(y: seq<real>, t: seq<real>, k: int)
    requires |t| == |y| && 0 <= k < |y| && -1.0 < y[k] < 1.0
    ensures t[k] > y[k] ==> OutputDeltas(y, t)[k] > 0.0
    ensures t[k] < y[k] ==> OutputDeltas(y, t)[k] < 0.0
    ensures t[k] == y[k] ==> OutputDeltas(y, t)[k] == 0.0
  {
    var g := Derivative(y[k]);
    assert 0.0 < g;
    if t[k] > y[k] {
      assert (t[k] - y[k]) * g > 0.0;
    } else if t[k] < y[k] {
      assert (y[k] - t[k]) * g > 0.0;
    }
  }

  /**
   * The error propagated back to hidden unit `j`: the output error terms weighted
   * by the output units' weights from `j` (their values before this session's update).
   */
  function BackError(dk: seq<real>, out: seq<UnitParams>, j: nat): real
    requires |dk| <= |out|
    requires forall k :: 0 <= k < |dk| ==> j < |out[k].weights|
  {
    if |dk| == 0 then 0.0
    else BackError(dk[..|dk| - 1], out, j) + dk[|dk| - 1] * out[|dk| - 1].weights[j]
  }

  /** The hidden units' error terms: the back-propagated error times the derivative at the unit's output. */
  function HiddenDeltas(dk: seq<real>, out: seq<UnitParams>, z: seq<real>): (d: seq<real>)
    requires |dk| <= |out|
    requires forall k :: 0 <= k < |dk| ==> |z| <= |out[k].weights|
    ensures |d| == |z|
  {
    seq(|z|, j => if 0 <= j < |z| then BackError(dk, out, j) * Derivative(z[j]) else 0.0)
  }

  /** The weight changes for a unit with error term `delta` fed `xs`: rate * delta * x for each input x. */
  function Corrections(rate: real, delta: real, xs: seq<real>): (c: seq<real>)
    ensures |c| == |xs|
  {
    seq(|xs|, i => if 0 <= i < |xs| then rate * delta * xs[i] else 0.0)
  }

  /** A unit after its correction: bias moved by rate * delta, each weight read by the session moved by its change. */
  function Corrected(u: UnitParams, rate: real, delta: real, xs: seq<real>): (v: UnitParams)
    requires |xs| <= |u.weights|
    ensures |v.weights| == |u.weights|
  {
    UnitParams(u.bias + rate * delta, AddPrefix(u.weights, Corrections(rate, delta, xs)))
  }

  /** Every unit of a layer corrected by its own error term, all against the same inputs `xs`. */
  function CorrectedLayer(units: seq<UnitParams>, rate: real, deltas: seq<real>, xs: seq<real>): (r: seq<UnitParams>)
    requires |deltas| == |units| && LayerFits(units, |xs|)
    ensures |r| == |units| && forall j :: 0 <= j < |r| ==> |r[j].weights| == |units[j].weights|
    ensures Uniform(r) == Uniform(units) && Width(r) == Width(units)
  {
    seq(|units|, j => if 0 <= j < |units| then Corrected(units[j], rate, deltas[j], xs) else UnitParams(0.0, []))
  }

  /** With learning rate zero a correction changes nothing. */
  lemma CorrectedWithZeroRate(units: seq<UnitParams>, deltas: seq<real>, xs: seq<real>)
    requires |deltas| == |units| && LayerFits(units, |xs|)
    ensures CorrectedLayer(units, 0.0, deltas, xs) == units
  {
    var r := CorrectedLayer(units, 0.0, deltas, xs);
    forall j | 0 <= j < |units|
      ensures r[j] == units[j]
    {
      assert r[j].weights == units[j].weights;
    }
  }

  /** The output units' error terms for sample `t`. */
  function SessionOutputDeltas(exp: ExpFn, p: NetParams, t: Tupla): (dk: seq<real>)
    requires Accepts(p, |t.features|)
    ensures |dk| == |p.output|
  {
    OutputDeltas(Outputs(exp, p, t.features), Targets(|p.output|, t.classe))
  }

  /** The hidden units' error terms for sample `t`. */
  function SessionHiddenDeltas(exp: ExpFn, p: NetParams, t: Tupla): (dj: seq<real>)
    requires Accepts(p, |t.features|)
    ensures |dj| == |p.hidden|
  {
    HiddenDeltas(SessionOutputDeltas(exp, p, t), p.output, LayerOutputs(exp, p.hidden, t.features))
  }

  /**
   * The parameters after one training session on sample `t` with learning rate `rate`:
   * the hidden units corrected against the sample's features, the output units against
   * the hidden layer's outputs, both by error terms computed before either changes.
   */
  function SessionParams(exp: ExpFn, p: NetParams, t: Tupla, rate: real): (q: NetParams)
    requires Accepts(p, |t.features|)
    ensures ShapeOf(q) == ShapeOf(p)
  {
    NetParams(CorrectedLayer(p.hidden, rate, SessionHiddenDeltas(exp, p, t), t.features),
              CorrectedLayer(p.output, rate, SessionOutputDeltas(exp, p, t), LayerOutputs(exp, p.hidden, t.features)))
  }

  /** With learning rate zero a session changes nothing. */
  lemma SessionWithZeroRate(exp: ExpFn, p: NetParams, t: Tupla)
    requires Accepts(p, |t.features|)
    ensures SessionParams(exp, p, t, 0.0) == p
  {
    CorrectedWithZeroRate(p.hidden, SessionHiddenDeltas(exp, p, t), t.features);
    CorrectedWithZeroRate(p.output, SessionOutputDeltas(exp, p, t), LayerOutputs(exp, p.hidden, t.features));
  }

  /** The error term of the output unit of the sample's class is positive, every other one negative. */
  lemma SessionOutputDeltaSign(exp: ExpFn, p: NetParams, t: Tupla, k: int)
    requires Accepts(p, |t.features|) && 0 <= k < |p.output|
    ensures k == t.classe ==> 0.0 < SessionOutputDeltas(exp, p, t)[k]
    ensures k != t.classe ==> SessionOutputDeltas(exp, p, t)[k] < 0.0
  {
    var y := Outputs(exp, p, t.features);
    var tg := Targets(|p.output|, t.classe);
    OutputDeltaSign(y, tg, k);
  }

  /** One epoch: a session per sample of `set_`, in order. */
  function Epoch(exp: ExpFn, p: NetParams, set_: seq<Tupla>, rate: real): (q: NetParams)
    requires AcceptsAll(p, set_)
    ensures ShapeOf(q) == ShapeOf(p)
  {
    if |set_| == 0 then p
    else
      var q := Epoch(exp, p, set_[..|set_| - 1], rate);
      SessionParams(exp, q, set_[|set_| - 1], rate)
  }
  /** Extending the samples of an epoch by one runs one more session, on the parameters so far. */
  lemma EpochStep(exp: ExpFn, p: NetParams, set_: seq<Tupla>, rate: real, n: nat)
    requires n < |set_| && AcceptsAll(p, set_[..n + 1])
    ensures AcceptsAll(p, set_[..n])
    ensures Accepts(Epoch(exp, p, set_[..n], rate), |set_[n].features|)
    ensures Epoch(exp, p, set_[..n + 1], rate) == SessionParams(exp, Epoch(exp, p, set_[..n], rate), set_[n], rate)
  {
    assert set_[..n + 1][..n] == set_[..n];
    assert Accepts(p, |set_[n].features|);
  }


  /** `n` epochs in a row; none leaves `p` as it is. */
  function Epochs(exp: ExpFn, p: NetParams, set_: seq<Tupla>, rate: real, n: nat): (q: NetParams)
    requires n == 0 || AcceptsAll(p, set_)
    ensures ShapeOf(q) == ShapeOf(p)
  {
    if n == 0 then p else Epoch(exp, Epochs(exp, p, set_, rate, n - 1), set_, rate)
  }

  /**
   * One more epoch from `q`, where `q` is `p0` after `k` epochs (`p0` itself when
   * `k` is 0), is `p0` after `k + 1` epochs.
   */
  lemma EpochsNext(exp: ExpFn, p0: NetParams, q: NetParams, set_: seq<Tupla>, rate: real, k: nat)
    requires (k == 0 || AcceptsAll(p0, set_)) && q == Epochs(exp, p0, set_, rate, k)
    requires AcceptsAll(q, set_)
    ensures AcceptsAll(p0, set_)
    ensures Epochs(exp, p0, set_, rate, k + 1) == Epoch(exp, q, set_, rate)
  {
    EpochsStep(exp, p0, set_, rate, k);
  }

  /** One more epoch after `n` of them. */
  lemma EpochsStep(exp: ExpFn, p: NetParams, set_: seq<Tupla>, rate: real, n: nat)
    requires AcceptsAll(p, set_)
    ensures AcceptsAll(Epochs(exp, p, set_, rate, n), set_)
    ensures Epochs(exp, p, set_, rate, n + 1) == Epoch(exp, Epochs(exp, p, set_, rate, n), set_, rate)
  {
  }

  /** The parameters a run of checkpoints ends with: `p` before the first one. */
  function Ultimo(p: NetParams, ps: seq<NetParams>): NetParams
  {
    if |ps| == 0 then p else ps[|ps| - 1]
  }

  /** The parameters at each of `count` checkpoints of early stopping, `n` epochs apart, from `p`. */
  function Checkpoints(exp: ExpFn, p: NetParams, set_: seq<Tupla>, rate: real, n: nat, count: nat): (ps: seq<NetParams>)
    requires count == 0 || AcceptsAll(p, set_)
    ensures |ps| == count
    ensures forall k :: 0 <= k < count ==> ShapeOf(ps[k]) == ShapeOf(p)
  {
    if count == 0 then []
    else
      var ps := Checkpoints(exp, p, set_, rate, n, count - 1);
      ps + [Epochs(exp, Ultimo(p, ps), set_, rate, n)]
  }

  /** The checkpoint before checkpoint `k`: `p` for the first one. */
  function Anterior(p: NetParams, ps: seq<NetParams>, k: nat): NetParams
    requires k < |ps|
  {
    if k == 0 then p else ps[k - 1]
  }

  /** The first checkpoint is `n` epochs after `p`, and every later one `n` epochs after the one before it. */
  lemma {:induction false} CheckpointsApart(exp: ExpFn, p: NetParams, set_: seq<Tupla>, rate: real, n: nat, count: nat, k: nat)
    requires AcceptsAll(p, set_) && k < count
    ensures AcceptsAll(Anterior(p, Checkpoints(exp, p, set_, rate, n, count), k), set_)
    ensures Checkpoints(exp, p, set_, rate, n, count)[k] ==
      Epochs(exp, Anterior(p, Checkpoints(exp, p, set_, rate, n, count), k), set_, rate, n)
    decreases count
  {
    var ps := Checkpoints(exp, p, set_, rate, n, count - 1);
    assert Checkpoints(exp, p, set_, rate, n, count) == ps + [Epochs(exp, Ultimo(p, ps), set_, rate, n)];
    if k < count - 1 {
      CheckpointsApart(exp, p, set_, rate, n, count - 1, k);
    }
  }

  /** One more checkpoint runs `n` more epochs from the last one. */
  lemma CheckpointsStep(exp: ExpFn, p: NetParams, set_: seq<Tupla>, rate: real, n: nat, count: nat)
    requires AcceptsAll(p, set_)
    ensures AcceptsAll(Ultimo(p, Checkpoints(exp, p, set_, rate, n, count)), set_)
    ensures Checkpoints(exp, p, set_, rate, n, count + 1) ==
      Checkpoints(exp, p, set_, rate, n, count) + [Epochs(exp, Ultimo(p, Checkpoints(exp, p, set_, rate, n, count)), set_, rate, n)]
  {
  }

  /** The error rate on `set_` at each checkpoint. */
  function Rates(exp: ExpFn, ps: seq<NetParams>, set_: seq<Tupla>): (rs: seq<Option<real>>)
    requires forall k :: 0 <= k < |ps| ==> AcceptsAll(ps[k], set_)
    ensures |rs| == |ps|
  {
    if |ps| == 0 then []
    else Rates(exp, ps[..|ps| - 1], set_) + [ErrorRate(exp, ps[|ps| - 1], set_)]
  }

  /** Entry k is the error rate of checkpoint k. */
  lemma {:induction false} RateAt(exp: ExpFn, ps: seq<NetParams>, set_: seq<Tupla>, k: nat)
    requires forall k :: 0 <= k < |ps| ==> AcceptsAll(ps[k], set_)
    requires k < |ps|
    ensures Rates(exp, ps, set_)[k] == ErrorRate(exp, ps[k], set_)
  {
    if k < |ps| - 1 {
      RateAt(exp, ps[..|ps| - 1], set_, k);
    }
  }

  /** One more checkpoint adds its rate. */
  lemma RatesStep(exp: ExpFn, ps: seq<NetParams>, q: NetParams, set_: seq<Tupla>)
    requires forall k :: 0 <= k < |ps| ==> AcceptsAll(ps[k], set_)
    requires AcceptsAll(q, set_)
    ensures Rates(exp, ps + [q], set_) == Rates(exp, ps, set_) + [ErrorRate(exp, q, set_)]
  {
    assert (ps + [q])[..|ps|] == ps;
  }

  // ---------------------------------------------------------------------------
  // Counting predictions.

  /** For each sample, its label and the class the network assigns to it. */
  function Outcomes(exp: ExpFn, p: NetParams, set_: seq<Tupla>): (r: seq<(int, int)>)
    requires AcceptsAll(p, set_)
    ensures |r| == |set_|
  {
    if |set_| == 0 then []
    else
      var s := set_[|set_| - 1];
      Outcomes(exp, p, set_[..|set_| - 1]) + [(s.classe, Predict(exp, p, s.features))]
  }

  /** Pair i is sample i's label and predicted class. */
  lemma {:induction false} OutcomeAt(exp: ExpFn, p: NetParams, set_: seq<Tupla>, i: int)
    requires AcceptsAll(p, set_) && 0 <= i < |set_|
    ensures Outcomes(exp, p, set_)[i] == (set_[i].classe, Predict(exp, p, set_[i].features))
  {
    if i < |set_| - 1 {
      var init := set_[..|set_| - 1];
      OutcomeAt(exp, p, init, i);
      assert init[i] == set_[i];
    }
  }

  /** Appending a sample appends its pair. */
  lemma OutcomesStep(exp: ExpFn, p: NetParams, set_: seq<Tupla>, n: nat)
    requires n < |set_| && AcceptsAll(p, set_[..n + 1])
    ensures AcceptsAll(p, set_[..n])
    ensures Outcomes(exp, p, set_[..n + 1]) ==
      Outcomes(exp, p, set_[..n]) + [(set_[n].classe, Predict(exp, p, set_[n].features))]
  {
    assert set_[..n + 1][..n] == set_[..n];
  }

  /** How many pairs disagree. */
  function Mismatches(pairs: seq<(int, int)>): (n: nat)
    ensures n <= |pairs|
  {
    if |pairs| == 0 then 0
    else Mismatches(pairs[..|pairs| - 1]) + (if pairs[|pairs| - 1].0 != pairs[|pairs| - 1].1 then 1 else 0)
  }

  lemma MismatchesStep(pairs: seq<(int, int)>, last: (int, int))
    ensures Mismatches(pairs + [last]) == Mismatches(pairs) + (if last.0 != last.1 then 1 else 0)
  {
    assert (pairs + [last])[..|pairs|] == pairs;
  }

  /** No mismatch exactly when every pair agrees. */
  lemma {:induction false} NoMismatches(pairs: seq<(int, int)>)
    ensures Mismatches(pairs) == 0 <==> forall i :: 0 <= i < |pairs| ==> pairs[i].0 == pairs[i].1
  {
    if |pairs| > 0 {
      var init := pairs[..|pairs| - 1];
      NoMismatches(init);
      assert forall i :: 0 <= i < |init| ==> init[i] == pairs[i];
    }
  }

  /** The number of samples of `set_` the network misclassifies. */
  function ErrorCount(exp: ExpFn, p: NetParams, set_: seq<Tupla>): (n: nat)
    requires AcceptsAll(p, set_)
    ensures n <= |set_|
  {
    Mismatches(Outcomes(exp, p, set_))
  }
  /** The count over one more sample grows by one exactly when `resultado`, its predicted class, is not its label. */
  lemma ErrorCountStep(exp: ExpFn, p: NetParams, set_: seq<Tupla>, n: nat, resultado: int)
    requires n < |set_| && AcceptsAll(p, set_[..n + 1]) && resultado == Predict(exp, p, set_[n].features)
    ensures AcceptsAll(p, set_[..n])
    ensures ErrorCount(exp, p, set_[..n + 1]) ==
      ErrorCount(exp, p, set_[..n]) + (if resultado != set_[n].classe then 1 else 0)
  {
    OutcomesStep(exp, p, set_, n);
    MismatchesStep(Outcomes(exp, p, set_[..n]), (set_[n].classe, resultado));
  }


  /**
   * `erros`: the share of samples of `set_` the network misclassifies; no value for
   * an empty set, where the source divides 0 by 0.
   */
  function ErrorRate(exp: ExpFn, p: NetParams, set_: seq<Tupla>): (r: Option<real>)
    requires AcceptsAll(p, set_)
    ensures r.None? <==> |set_| == 0
    ensures r.Some? ==> 0.0 <= r.value <= 1.0
  {
    if |set_| == 0 then None
    else
      Share(ErrorCount(exp, p, set_), |set_|);
      Some(ErrorCount(exp, p, set_) as real / |set_| as real)
  }

  /** A share `c / n` of a positive whole lies in [0, 1] and is zero only for `c` zero. */
  lemma Share(c: nat, n: nat)
    requires c <= n && 0 < n
    ensures 0.0 <= c as real / n as real <= 1.0
    ensures c as real / n as real == 0.0 <==> c == 0
  {
    var q := c as real / n as real;
    assert q * n as real == c as real;
  }

  /** The rate is zero exactly when the network classifies every sample of a non-empty set correctly. */
  lemma ErrorRateZero(exp: ExpFn, p: NetParams, set_: seq<Tupla>)
    requires AcceptsAll(p, set_) && |set_| > 0
    ensures ErrorRate(exp, p, set_) == Some(0.0) <==>
      forall i :: 0 <= i < |set_| ==> Predict(exp, p, set_[i].features) == set_[i].classe
  {
    var pairs := Outcomes(exp, p, set_);
    NoMismatches(pairs);
    Share(Mismatches(pairs), |set_|);
    forall i | 0 <= i < |set_|
      ensures pairs[i] == (set_[i].classe, Predict(exp, p, set_[i].features))
    {
      OutcomeAt(exp, p, set_, i);
    }
  }

  /** How many pairs are (r, c): entry [r][c] of the confusion matrix. */
  function CountPair(pairs: seq<(int, int)>, r: int, c: int): nat
  {
    if |pairs| == 0 then 0
    else CountPair(pairs[..|pairs| - 1], r, c) + (if pairs[|pairs| - 1] == (r, c) then 1 else 0)
  }

  lemma CountPairStep(pairs: seq<(int, int)>, last: (int, int), r: int, c: int)
    ensures CountPair(pairs + [last], r, c) == CountPair(pairs, r, c) + (if last == (r, c) then 1 else 0)
  {
    assert (pairs + [last])[..|pairs|] == pairs;
  }
  /** One more sample adds one to the entry of its label and `resultado`, its predicted class, and to no other. */
  lemma ConfusionStep(exp: ExpFn, p: NetParams, set_: seq<Tupla>, n: nat, resultado: int)
    requires n < |set_| && AcceptsAll(p, set_[..n + 1]) && resultado == Predict(exp, p, set_[n].features)
    ensures AcceptsAll(p, set_[..n])
    ensures forall c, d ::
              CountPair(Outcomes(exp, p, set_[..n + 1]), c, d) ==
              CountPair(Outcomes(exp, p, set_[..n]), c, d) + (if (set_[n].classe, resultado) == (c, d) then 1 else 0)
  {
    OutcomesStep(exp, p, set_, n);
    forall c, d {
      CountPairStep(Outcomes(exp, p, set_[..n]), (set_[n].classe, resultado), c, d);
    }
  }


  /** How many pairs carry label `r`. */
  function CountLabel(pairs: seq<(int, int)>, r: int): nat
  {
    if |pairs| == 0 then 0
    else CountLabel(pairs[..|pairs| - 1], r) + (if pairs[|pairs| - 1].0 == r then 1 else 0)
  }

  /** Row `r` of the confusion matrix, summed over its first `n` columns. */
  function RowTotal(pairs: seq<(int, int)>, r: int, n: nat): nat
  {
    if n == 0 then 0 else RowTotal(pairs, r, n - 1) + CountPair(pairs, r, n - 1)
  }

  /** The first `m` rows of the confusion matrix, summed over their first `n` columns. */
  function GridTotal(pairs: seq<(int, int)>, m: nat, n: nat): nat
  {
    if m == 0 then 0 else GridTotal(pairs, m - 1, n) + RowTotal(pairs, m - 1, n)
  }

  /** The first `m` diagonal entries of the confusion matrix, summed. */
  function DiagonalTotal(pairs: seq<(int, int)>, m: nat): nat
  {
    if m == 0 then 0 else DiagonalTotal(pairs, m - 1) + CountPair(pairs, m - 1, m - 1)
  }

  predicate InRange(v: int, n: nat)
  {
    0 <= v < n
  }

  /** Every label and every predicted class of `set_` lies in 0..n-1. */
  predicate FitsMatrix(exp: ExpFn, p: NetParams, set_: seq<Tupla>, n: nat)
    requires AcceptsAll(p, set_)
  {
    |set_| == 0 ||
    (FitsMatrix(exp, p, set_[..|set_| - 1], n) &&
     InRange(set_[|set_| - 1].classe, n) && InRange(Predict(exp, p, set_[|set_| - 1].features), n))
  }

  /** A prefix fits one sample longer when that sample's label and prediction fit too. */
  lemma FitsMatrixStep(exp: ExpFn, p: NetParams, set_: seq<Tupla>, k: nat, n: nat)
    requires k < |set_| && AcceptsAll(p, set_[..k + 1])
    ensures AcceptsAll(p, set_[..k])
    ensures FitsMatrix(exp, p, set_[..k + 1], n) <==>
      FitsMatrix(exp, p, set_[..k], n) && InRange(set_[k].classe, n) && InRange(Predict(exp, p, set_[k].features), n)
  {
    assert set_[..k + 1][..k] == set_[..k];
  }

  /** Every prefix of samples that fit fits. */
  lemma {:induction false} FitsMatrixPrefix(exp: ExpFn, p: NetParams, set_: seq<Tupla>, k: nat, n: nat)
    requires AcceptsAll(p, set_) && k <= |set_| && FitsMatrix(exp, p, set_, n)
    ensures AcceptsAll(p, set_[..k]) && FitsMatrix(exp, p, set_[..k], n)
  {
    if k == |set_| {
      assert set_[..k] == set_;
    } else {
      var init := set_[..|set_| - 1];
      FitsMatrixPrefix(exp, p, init, k, n);
      assert init[..k] == set_[..k];
    }
  }

  /** Every pair is a row index below `m` and a column index below `n`: each names a cell of an `m` x `n` matrix. */
  predicate PairsFit(pairs: seq<(int, int)>, m: nat, n: nat)
  {
    forall i :: 0 <= i < |pairs| ==> InRange(pairs[i].0, m) && InRange(pairs[i].1, n)
  }

  lemma {:induction false} RowTotalOfNoPairs(r: int, n: nat)
    ensures RowTotal([], r, n) == 0
  {
    if n > 0 {
      RowTotalOfNoPairs(r, n - 1);
    }
  }

  lemma {:induction false} TotalsOfNoPairs(m: nat, n: nat)
    ensures GridTotal([], m, n) == 0 && DiagonalTotal([], m) == 0
  {
    if m > 0 {
      TotalsOfNoPairs(m - 1, n);
      RowTotalOfNoPairs(m - 1, n);
    }
  }

  lemma {:induction false} RowTotalStep(pairs: seq<(int, int)>, r: int, n: nat)
    requires |pairs| > 0
    ensures RowTotal(pairs, r, n) == RowTotal(pairs[..|pairs| - 1], r, n) +
      (if pairs[|pairs| - 1].0 == r && InRange(pairs[|pairs| - 1].1, n) then 1 else 0)
  {
    if n > 0 {
      RowTotalStep(pairs, r, n - 1);
    }
  }

  lemma {:induction false} GridTotalStep(pairs: seq<(int, int)>, m: nat, n: nat)
    requires |pairs| > 0
    ensures GridTotal(pairs, m, n) == GridTotal(pairs[..|pairs| - 1], m, n) +
      (if InRange(pairs[|pairs| - 1].0, m) && InRange(pairs[|pairs| - 1].1, n) then 1 else 0)
  {
    if m > 0 {
      GridTotalStep(pairs, m - 1, n);
      RowTotalStep(pairs, m - 1, n);
    }
  }

  lemma {:induction false} DiagonalTotalStep(pairs: seq<(int, int)>, m: nat)
    requires |pairs| > 0
    ensures DiagonalTotal(pairs, m) == DiagonalTotal(pairs[..|pairs| - 1], m) +
      (if pairs[|pairs| - 1].0 == pairs[|pairs| - 1].1 && InRange(pairs[|pairs| - 1].0, m) then 1 else 0)
  {
    if m > 0 {
      DiagonalTotalStep(pairs, m - 1);
    }
  }

  /** With every prediction among the first `n` classes, row `r` of the matrix adds up to the samples labelled `r`. */
  lemma {:induction false} ConfusionRowCountsLabel(pairs: seq<(int, int)>, r: int, n: nat)
    requires forall i :: 0 <= i < |pairs| ==> InRange(pairs[i].1, n)
    ensures RowTotal(pairs, r, n) == CountLabel(pairs, r)
  {
    if |pairs| > 0 {
      var init, last := pairs[..|pairs| - 1], pairs[|pairs| - 1];
      assert forall i :: 0 <= i < |init| ==> init[i] == pairs[i];
      RowTotalStep(pairs, r, n);
      ConfusionRowCountsLabel(init, r, n);
      assert InRange(last.1, n);
      assert CountLabel(pairs, r) == CountLabel(init, r) + (if last.0 == r then 1 else 0);
    } else {
      RowTotalOfNoPairs(r, n);
    }
  }

  /** With every label and prediction in range, the whole matrix adds up to the number of samples. */
  lemma {:induction false} ConfusionCountsEverySample(pairs: seq<(int, int)>, m: nat, n: nat)
    requires PairsFit(pairs, m, n)
    ensures GridTotal(pairs, m, n) == |pairs|
  {
    if |pairs| > 0 {
      assert forall i :: 0 <= i < |pairs| - 1 ==> pairs[..|pairs| - 1][i] == pairs[i];
      GridTotalStep(pairs, m, n);
      ConfusionCountsEverySample(pairs[..|pairs| - 1], m, n);
    } else {
      TotalsOfNoPairs(m, n);
    }
  }

  /** With every label in range, the diagonal counts exactly the pairs that agree. */
  lemma {:induction false} ConfusionDiagonalCountsHits(pairs: seq<(int, int)>, m: nat)
    requires forall i :: 0 <= i < |pairs| ==> InRange(pairs[i].0, m)
    ensures DiagonalTotal(pairs, m) + Mismatches(pairs) == |pairs|
  {
    if |pairs| > 0 {
      assert forall i :: 0 <= i < |pairs| - 1 ==> pairs[..|pairs| - 1][i] == pairs[i];
      DiagonalTotalStep(pairs, m);
      ConfusionDiagonalCountsHits(pairs[..|pairs| - 1], m);
    } else {
      TotalsOfNoPairs(m, 0);
    }
  }

  // ---------------------------------------------------------------------------
  // Squared error.

  /** The sum over output units of (target - output)^2. */
  function SampleSquaredError(t: seq<real>, y: seq<real>): (e: real)
    requires |t| == |y|
    ensures 0.0 <= e
  {
    if |t| == 0 then 0.0
    else
      SquareFacts(t[|t| - 1] - y[|t| - 1]);
      SampleSquaredError(t[..|t| - 1], y[..|t| - 1]) + Square(t[|t| - 1] - y[|t| - 1])
  }
  lemma SampleSquaredErrorStep(t: seq<real>, y: seq<real>, n: nat)
    requires |t| == |y| && n < |t|
    ensures SampleSquaredError(t[..n + 1], y[..n + 1]) == SampleSquaredError(t[..n], y[..n]) + Square(t[n] - y[n])
  {
    assert t[..n + 1][..n] == t[..n] && y[..n + 1][..n] == y[..n];
  }


  /** A sample's squared error is zero exactly when every output equals its target. */
  lemma {:induction false} SampleSquaredErrorZero(t: seq<real>, y: seq<real>)
    requires |t| == |y|
    ensures SampleSquaredError(t, y) == 0.0 <==> t == y
  {
    if |t| > 0 {
      var n := |t| - 1;
      var d := t[n] - y[n];
      var e := SampleSquaredError(t[..n], y[..n]);
      SampleSquaredErrorZero(t[..n], y[..n]);
      assert SampleSquaredError(t, y) == e + Square(d);
      SquareFacts(d);
      assert t == t[..n] + [t[n]] && y == y[..n] + [y[n]];
      if d != 0.0 {
        assert t != y;
      } else {
        assert SampleSquaredError(t, y) == e;
        assert t == y <==> t[..n] == y[..n];
      }
    }
  }

  /** The squared errors of every sample of `set_` against the targets `t`, summed. */
  function SquaredErrorSum(exp: ExpFn, p: NetParams, t: seq<real>, set_: seq<Tupla>): (e: real)
    requires AcceptsAll(p, set_) && |t| == |p.output|
    ensures 0.0 <= e
  {
    if |set_| == 0 then 0.0
    else
      var s := set_[|set_| - 1];
      SquaredErrorSum(exp, p, t, set_[..|set_| - 1]) + SampleSquaredError(t, Outputs(exp, p, s.features))
  }
  /** One more sample adds its own squared error. */
  lemma SquaredErrorSumStep(exp: ExpFn, p: NetParams, t: seq<real>, set_: seq<Tupla>, n: nat)
    requires |t| == |p.output| && n < |set_| && AcceptsAll(p, set_[..n + 1])
    ensures AcceptsAll(p, set_[..n]) && Accepts(p, |set_[n].features|)
    ensures SquaredErrorSum(exp, p, t, set_[..n + 1]) ==
      SquaredErrorSum(exp, p, t, set_[..n]) + SampleSquaredError(t, Outputs(exp, p, set_[n].features))
  {
    assert set_[..n + 1][..n] == set_[..n];
  }


  /**
   * Against targets of 1 and -1 the squared error of a non-empty set is never zero:
   * the sigmoid outputs lie strictly between -1 and 1.
   */
  lemma {:induction false} SquaredErrorPositive(exp: ExpFn, p: NetParams, t: seq<real>, set_: seq<Tupla>)
    requires AcceptsAll(p, set_) && |t| == |p.output| > 0 && |set_| > 0
    requires forall k :: 0 <= k < |t| ==> t[k] == 1.0 || t[k] == -1.0
    ensures SquaredErrorSum(exp, p, t, set_) > 0.0
  {
    var s := set_[|set_| - 1];
    var y := Outputs(exp, p, s.features);
    SampleSquaredErrorZero(t, y);
    assert t[0] != y[0];
  }

  // ---------------------------------------------------------------------------
  // The network identifier.

  /** The hidden neurons' identifiers multiplied together, starting from 1. */
  function HiddenHash(units: seq<UnitParams>): real
  {
    if |units| == 0 then 1.0 else HiddenHash(units[..|units| - 1]) * UnitHash(units[|units| - 1])
  }

  /** The output neurons' identifiers added to `acc`, one after the other. */
  function OutputHash(acc: real, units: seq<UnitParams>): real
  {
    if |units| == 0 then acc else OutputHash(acc, units[..|units| - 1]) + UnitHash(units[|units| - 1])
  }

  /** The value `hashString` prints: the hidden product, then every output identifier added on. */
  function NetHash(p: NetParams): real
  {
    OutputHash(HiddenHash(p.hidden), p.output)
  }

  lemma {:induction false} HiddenHashZero(units: seq<UnitParams>, j: int)
    requires 0 <= j < |units| && UnitHash(units[j]) == 0.0
    ensures HiddenHash(units) == 0.0
  {
    if j < |units| - 1 {
      HiddenHashZero(units[..|units| - 1], j);
    }
  }

  /**
   * The identifier is far from unique: once one hidden neuron has a zero bias or a zero
   * weight, the hidden layer no longer contributes, so any two networks with the same
   * output layer get the same identifier.
   */
  lemma HashIgnoresHiddenLayer(p: NetParams, q: NetParams, i: int, j: int)
    requires p.output == q.output
    requires 0 <= i < |p.hidden| && (p.hidden[i].bias == 0.0 || 0.0 in p.hidden[i].weights)
    requires 0 <= j < |q.hidden| && (q.hidden[j].bias == 0.0 || 0.0 in q.hidden[j].weights)
    ensures NetHash(p) == NetHash(q)
  {
    UnitHashZero(p.hidden[i]);
    UnitHashZero(q.hidden[j]);
    HiddenHashZero(p.hidden, i);
    HiddenHashZero(q.hidden, j);
  }

  lemma UnitHashZero(u: UnitParams)
    requires u.bias == 0.0 || 0.0 in u.weights
    ensures UnitHash(u) == 0.0
  {
    if u.bias != 0.0 {
      var i :| 0 <= i < |u.weights| && u.weights[i] == 0.0;
      ProductZero(u.weights, i);
    }
  }
}
