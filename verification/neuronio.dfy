/**
 * One neuron of the perceptron (MLP/src/Neuronio.java): a bias, a weight per
 * neuron of the previous layer, the last activation it produced and the target
 * value the trainer stored in it.  Also the layer-level views used by the network.
 */
module Neuronios {
  import opened Wrappers
  import opened Excecoes
  import opened Ativacao

  /** The trainable state of one neuron, as a value. */
  datatype UnitParams = UnitParams(bias: real, weights: seq<real>)

  /** The net input of a neuron with parameters `u` on inputs `xs`: weighted sum plus bias. */
  function NetInput(u: UnitParams, xs: seq<real>): real
    requires |xs| <= |u.weights|
  {
    Dot(xs, u.weights) + u.bias
  }

  /** `Math.random()`, consumed draw by draw: the k-th draw is `random(k)`, a value in [0, 1). */
  type RandomStream = f: nat -> real | forall k :: 0.0 <= f(k) < 1.0 witness (k: nat) => 0.0

  /** The value `reset` draws from a coin and a magnitude: the magnitude, negated unless the coin exceeds 0.5. */
  function Signed(coin: real, magnitude: real): real
  {
    if coin > 0.5 then magnitude else -magnitude
  }

  /**
   * The parameters `reset` draws for a neuron with `n` weights, starting at draw `from`:
   * two draws per weight (the coin, then the magnitude), then two for the bias.
   * Every value lies strictly between -1 and 1.
   */
  function Drawn(random: RandomStream, from: nat, n: nat): (u: UnitParams)
    ensures |u.weights| == n
    ensures -1.0 < u.bias < 1.0
    ensures forall i :: 0 <= i < n ==> -1.0 < u.weights[i] < 1.0
  {
    UnitParams(Signed(random(from + 2 * n), random(from + 2 * n + 1)),
               seq(n, i => if 0 <= i then Signed(random(from + 2 * i), random(from + 2 * i + 1)) else 0.0))
  }

  function Zeros(n: nat): (z: seq<real>)
    ensures |z| == n && forall i :: 0 <= i < n ==> z[i] == 0.0
  {
    seq(n, _ => 0.0)
  }

  /** `w` with `d[i]` added to each of its first |d| entries. */
  function AddPrefix(w: seq<real>, d: seq<real>): (r: seq<real>)
    requires |d| <= |w|
    ensures |r| == |w|
    ensures forall i :: 0 <= i < |d| ==> r[i] == w[i] + d[i]
    ensures forall i :: |d| <= i < |w| ==> r[i] == w[i]
  {
    seq(|w|, i => if 0 <= i < |d| then w[i] + d[i] else if 0 <= i < |w| then w[i] else 0.0)
  }

  /** The identifier `hash` computes for a neuron: its bias times every weight. */
  function UnitHash(u: UnitParams): real
  {
    u.bias * Product(u.weights)
  }

  /** Every unit has as many weights as the first one. */
  predicate Uniform(units: seq<UnitParams>)
  {
    forall j :: 0 <= j < |units| ==> |units[j].weights| == |units[0].weights|
  }

  /** Every unit has a weight for each of `n` inputs. */
  predicate LayerFits(units: seq<UnitParams>, n: nat)
  {
    forall j :: 0 <= j < |units| ==> n <= |units[j].weights|
  }

  /** What a layer with parameters `units` outputs for inputs `xs`: one sigmoid value per unit. */
  function LayerOutputs(exp: ExpFn, units: seq<UnitParams>, xs: seq<real>): (ys: seq<real>)
    requires LayerFits(units, |xs|)
    ensures |ys| == |units|
    ensures forall j :: 0 <= j < |ys| ==> -1.0 < ys[j] < 1.0
  {
    seq(|units|, j => if 0 <= j < |units| then BipolarSigmoid(exp, NetInput(units[j], xs)) else 0.0)
  }

  class Neuronio {
    var vies: real
    var peso: seq<real>
    var fAtivacao: real
    var tk: real

    /** A neuron fed by `neuroniosCamadaAnt` neurons; every number starts at zero. */
    constructor (neuroniosCamadaAnt: nat)
      ensures |peso| == neuroniosCamadaAnt
      ensures Params() == UnitParams(0.0, Zeros(neuroniosCamadaAnt))
      ensures fAtivacao == 0.0 && tk == 0.0
    {
      vies := 0.0;
      peso := seq(neuroniosCamadaAnt, _ => 0.0);
      fAtivacao := 0.0;
      tk := 0.0;
    }

    /**
     * `new Neuronio(neuroniosCamadaAnt)` for any `int`: a negative count makes the weight
     * array fail with a NegativeArraySizeException; otherwise a new neuron with that many
     * weights and every number zero.
     */
    static method Novo(neuroniosCamadaAnt: int) returns (r: Result<Neuronio, Excecao>)
      ensures r.Err? <==> neuroniosCamadaAnt < 0
      ensures r.Err? ==> r.error == NegativeArraySize
      ensures r.Ok? ==> fresh(r.value) && |r.value.peso| == neuroniosCamadaAnt
      ensures r.Ok? ==> r.value.Params() == UnitParams(0.0, Zeros(neuroniosCamadaAnt))
      ensures r.Ok? ==> r.value.fAtivacao == 0.0 && r.value.tk == 0.0
    {
      if neuroniosCamadaAnt < 0 {
        return Err(NegativeArraySize);
      }
      var n := new Neuronio(neuroniosCamadaAnt);
      r := Ok(n);
    }

    /** The bias and weights, as a value. */
    function Params(): UnitParams
      reads this`vies, this`peso
    {
      UnitParams(vies, peso)
    }

    /**
     * `reset`: every weight and then the bias get a value drawn from `random`, two
     * draws each (a coin for the sign, then the magnitude), starting at draw `from`;
     * `next` is the first draw left unused.
     */
    method Reset(random: RandomStream, from: nat) returns (next: nat)
      modifies this`vies, this`peso
      ensures |peso| == old(|peso|)
      ensures next == from + 2 * |peso| + 2
      ensures Params() == Drawn(random, from, |peso|)
    {
      var cursor := from;
      var i := 0;
      while i < |peso|
        invariant 0 <= i <= |peso| == old(|peso|) && cursor == from + 2 * i
        invariant forall j :: 0 <= j < i ==> peso[j] == Signed(random(from + 2 * j), random(from + 2 * j + 1))
      {
        if random(cursor) > 0.5 {
          peso := peso[i := random(cursor + 1)];
        } else {
          peso := peso[i := random(cursor + 1) * -1.0];
        }
        cursor := cursor + 2;
        i := i + 1;
      }
      assert peso == Drawn(random, from, |peso|).weights;
      if random(cursor) > 0.5 {
        vies := random(cursor + 1);
      } else {
        vies := random(cursor + 1) * -1.0;
      }
      next := cursor + 2;
    }

    /** `zera`: bias and every weight become zero. */
    method Zera()
      modifies this`vies, this`peso
      ensures Params() == UnitParams(0.0, Zeros(old(|peso|)))
    {
      var i := 0;
      while i < |peso|
        invariant 0 <= i <= |peso| == old(|peso|)
        invariant forall j :: 0 <= j < i ==> peso[j] == 0.0
      {
        peso := peso[i := 0.0];
        i := i + 1;
      }
      vies := 0.0;
    }

    /** `setPeso`: adds `variacao` to weight `n` (it does not overwrite it); nothing else changes. */
    method SetPeso(n: int, variacao: real)
      requires 0 <= n < |peso|
      modifies this`peso
      ensures peso == old(peso)[n := old(peso[n]) + variacao]
    {
      peso := peso[n := peso[n] + variacao];
    }

    /** `getPeso`: weight `n` of the neuron's parameters, the one `n`-th input is multiplied by. */
    function GetPeso(n: int): (w: real)
      requires 0 <= n < |peso|
      reads this`vies, this`peso
      ensures w == Params().weights[n]
      ensures NetInput(Params(), Zeros(n) + [1.0]) == w + vies
    {
      DotZeroInputs(Zeros(n), peso);
      assert (Zeros(n) + [1.0])[..n] == Zeros(n);
      peso[n]
    }

    /** `setVies`: unlike `setPeso`, overwrites the bias. */
    method SetVies(novoVies: real)
      modifies this`vies
      ensures vies == novoVies
    {
      vies := novoVies;
    }

    /** `getVies`: the bias, the net input of the neuron when every input is zero. */
    function GetVies(): (b: real)
      reads this`vies, this`peso
      ensures b == Params().bias
      ensures NetInput(Params(), Zeros(|peso|)) == b
    {
      DotZeroInputs(Zeros(|peso|), peso);
      vies
    }

    /**
     * `feedForward`: the sigmoid of the weighted sum of the inputs plus the bias.
     * Weights past the inputs are ignored; an input with more values than there are
     * weights reads past the weight array and fails before anything is stored.
     */
    method FeedForward(entrada: seq<real>, exp: ExpFn) returns (r: Result<real, Excecao>)
      modifies this`fAtivacao
      ensures r.Err? <==> |peso| < |entrada|
      ensures r.Err? ==> r.error == IndexOutOfBounds && fAtivacao == old(fAtivacao)
      ensures r.Ok? ==> r.value == fAtivacao == BipolarSigmoid(exp, NetInput(Params(), entrada))
      ensures r.Ok? ==> -1.0 < r.value < 1.0
    {
      var soma := 0.0;
      var pesoAtivo := 0;
      while pesoAtivo < |entrada|
        invariant 0 <= pesoAtivo <= |entrada| && pesoAtivo <= |peso|
        invariant soma == Dot(entrada[..pesoAtivo], peso)
      {
        if pesoAtivo == |peso| {
          return Err(IndexOutOfBounds);
        }
        assert entrada[..pesoAtivo + 1][..pesoAtivo] == entrada[..pesoAtivo];
        soma := soma + entrada[pesoAtivo] * peso[pesoAtivo];
        pesoAtivo := pesoAtivo + 1;
      }
      assert entrada[..pesoAtivo] == entrada;
      soma := soma + vies;
      var y := Ativacao(soma, exp);
      r := Ok(y);
    }

    /** `ativacao`: stores and returns the bipolar sigmoid of `entrada`, always strictly between -1 and 1. */
    method Ativacao(entrada: real, exp: ExpFn) returns (r: real)
      modifies this`fAtivacao
      ensures r == fAtivacao == BipolarSigmoid(exp, entrada)
      ensures -1.0 < r < 1.0
    {
      fAtivacao := 2.0 / (1.0 + exp(entrada * -1.0)) - 1.0;
      r := fAtivacao;
    }

    /** `derivada`: the sigmoid's derivative at the stored activation; in (0, 1/2] for a stored sigmoid output. */
    function Derivada(): (d: real)
      reads this`fAtivacao
      ensures -1.0 < fAtivacao < 1.0 ==> 0.0 < d <= 0.5
    {
      Derivative(fAtivacao)
    }

    /** `hash`: the bias times every weight; zero as soon as one of them is. */
    method Hash() returns (h: real)
      ensures h == UnitHash(Params())
      ensures vies == 0.0 || (exists i :: 0 <= i < |peso| && peso[i] == 0.0) ==> h == 0.0
    {
      var produto := vies;
      var i := 0;
      while i < |peso|
        invariant 0 <= i <= |peso|
        invariant produto == vies * Product(peso[..i])
      {
        assert peso[..i + 1][..i] == peso[..i];
        produto := produto * peso[i];
        i := i + 1;
      }
      assert peso[..i] == peso;
      if exists j :: 0 <= j < |peso| && peso[j] == 0.0 {
        var j :| 0 <= j < |peso| && peso[j] == 0.0;
        ProductZero(peso, j);
      }
      h := produto;
    }

    /** `erroQuadrado`: despite its name, the absolute difference between target and activation. */
    function ErroQuadrado(): (e: real)
      reads this`tk, this`fAtivacao
      ensures 0.0 <= e
      ensures e == 0.0 <==> tk == fAtivacao
      ensures e * e == (tk - fAtivacao) * (tk - fAtivacao)
    {
      if tk - fAtivacao < 0.0 then -(tk - fAtivacao) else tk - fAtivacao
    }
  }

  // ---------------------------------------------------------------------------
  // Layers: the neurons of one layer, in order, as the network holds them.

  /** Distinct neurons. */
  ghost predicate Distinct(a: seq<Neuronio>)
  {
    forall i, j :: 0 <= i < |a| && 0 <= j < |a| && i != j ==> a[i] != a[j]
  }

  /** No neuron belongs to both layers. */
  ghost predicate Disjoint(a: seq<Neuronio>, b: seq<Neuronio>)
  {
    forall i, j :: 0 <= i < |a| && 0 <= j < |b| ==> a[i] != b[j]
  }

  /** The stored targets of the first `n` neurons of `a`. */
  ghost function TargetsUpTo(a: seq<Neuronio>, n: nat): (r: seq<real>)
    requires n <= |a|
    reads a`tk
    ensures |r| == n && forall j :: 0 <= j < n ==> r[j] == a[j].tk
  {
    if n == 0 then [] else TargetsUpTo(a, n - 1) + [a[n - 1].tk]
  }

  ghost function LayerTargets(a: seq<Neuronio>): seq<real>
    reads a`tk
  {
    TargetsUpTo(a, |a|)
  }

  /** The neurons of `a` hold the parameters `units`, neuron by neuron. */
  ghost predicate Holds(a: seq<Neuronio>, units: seq<UnitParams>)
    reads a`vies, a`peso
  {
    |a| == |units| && forall j {:trigger a[j]} :: 0 <= j < |a| ==> a[j].vies == units[j].bias && a[j].peso == units[j].weights
  }

  /** Appending a neuron not yet in the layer keeps the neurons distinct and adds its parameters. */
  lemma Extend(a: seq<Neuronio>, units: seq<UnitParams>, n: Neuronio)
    requires Distinct(a) && Holds(a, units) && n !in a
    ensures Distinct(a + [n]) && Holds(a + [n], units + [n.Params()])
  {
  }

  /** The neurons of `a` store the activations `ys`, neuron by neuron. */
  ghost predicate Stores(a: seq<Neuronio>, ys: seq<real>)
    reads a`fAtivacao
  {
    |a| == |ys| && forall j {:trigger a[j]} :: 0 <= j < |a| ==> a[j].fAtivacao == ys[j]
  }

  /**
   * Feeds `xs` to every neuron of the layer in order; each stores its activation,
   * nothing else changes.  The first neuron with fewer weights than `xs` has values
   * fails: every neuron before it has stored its activation, it and every neuron
   * after it keep theirs.
   */
  method FeedLayer(a: seq<Neuronio>, xs: seq<real>, exp: ExpFn, ghost units: seq<UnitParams>)
    returns (r: Result<seq<real>, Excecao>)
    requires Distinct(a) && Holds(a, units)
    modifies a`fAtivacao
    ensures Holds(a, units)
    ensures r.Err? <==> !LayerFits(units, |xs|)
    ensures r.Err? ==> r.error == IndexOutOfBounds
    ensures r.Err? ==> forall m :: 0 <= m < |a| && (forall i :: 0 <= i <= m ==> |xs| <= |units[i].weights|) ==>
                         a[m].fAtivacao == BipolarSigmoid(exp, NetInput(units[m], xs))
    ensures r.Err? ==> forall m, m' :: 0 <= m <= m' < |a| && |units[m].weights| < |xs| ==>
                         a[m'].fAtivacao == old(a[m'].fAtivacao)
    ensures r.Ok? ==> r.value == LayerOutputs(exp, units, xs) && Stores(a, r.value)
  {
    var ys := [];
    var j := 0;
    while j < |a|
      invariant 0 <= j <= |a| && |ys| == j
      invariant Holds(a, units)
      invariant forall k :: 0 <= k < j ==> |xs| <= |units[k].weights|
      invariant forall k :: 0 <= k < j ==>
        ys[k] == BipolarSigmoid(exp, NetInput(units[k], xs)) && a[k].fAtivacao == ys[k]
      invariant forall m :: j <= m < |a| ==> a[m].fAtivacao == old(a[m].fAtivacao)
    {
      var y := a[j].FeedForward(xs, exp);
      if y.Err? {
        return Err(IndexOutOfBounds);
      }
      ys := ys + [y.value];
      j := j + 1;
    }
    r := Ok(ys);
  }

  /**
   * The correction a training step applies to one neuron: `deltaVies` is added to
   * the bias and `deltaPesos[i]` to weight i; weights past |deltaPesos| keep their value.
   */
  method AplicaCorrecao(n: Neuronio, deltaVies: real, deltaPesos: seq<real>)
    requires |deltaPesos| <= |n.peso|
    modifies n`vies, n`peso
    ensures n.Params() == UnitParams(old(n.vies) + deltaVies, AddPrefix(old(n.peso), deltaPesos))
  {
    n.SetVies(n.GetVies() + deltaVies);
    var i := 0;
    while i < |deltaPesos|
      invariant 0 <= i <= |deltaPesos|
      invariant n.vies == old(n.vies) + deltaVies
      invariant n.peso == AddPrefix(old(n.peso), deltaPesos[..i])
    {
      n.SetPeso(i, deltaPesos[i]);
      i := i + 1;
    }
    assert deltaPesos[..i] == deltaPesos;
  }
}
