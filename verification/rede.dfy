/**
 * The network object (MLP/src/Rede.java): the hidden layer and the output layer,
 * each a sequence of neurons, built either from weight matrices or from layer sizes;
 * classification of a sample; the text form and the copy made through it; and the
 * identifier printed in the logs.
 */
module Redes {
  import opened Wrappers
  import opened Excecoes
  import opened Ativacao
  import opened Neuronios
  import opened RedeSpec
  import opened Texto
  import opened RedeTexto

  /** The parameters the size constructor gives one neuron of `width` weights: drawn from draw `from` on, or all zero. */
  function InitialUnit(random: bool, rand: RandomStream, from: nat, width: nat): (u: UnitParams)
    ensures |u.weights| == width
  {
    if random then Drawn(rand, from, width) else UnitParams(0.0, Zeros(width))
  }

  /** The first draw left for the next neuron: `reset` consumes two per weight and two for the bias, `zera` none. */
  function NextDraw(random: bool, from: nat, width: nat): nat
  {
    if random then from + 2 * width + 2 else from
  }

  /**
   * The layer the size constructor builds: `count` neurons of `width` weights, made one
   * after the other, the draws of each starting where the previous one's ended.
   */
  function InitialLayer(random: bool, rand: RandomStream, from: nat, count: nat, width: nat): (units: seq<UnitParams>)
    ensures |units| == count
    ensures forall j :: 0 <= j < count ==> |units[j].weights| == width
    decreases count
  {
    if count == 0 then []
    else [InitialUnit(random, rand, from, width)] + InitialLayer(random, rand, NextDraw(random, from, width), count - 1, width)
  }

  /** The first draw left once the layer is built. */
  function LayerEnd(random: bool, from: nat, count: nat, width: nat): nat
    decreases count
  {
    if count == 0 then from else LayerEnd(random, NextDraw(random, from, width), count - 1, width)
  }

  /** Building one more neuron moves its parameters from the layer still to be built to the part already built. */
  lemma PeelInitial(done: seq<UnitParams>, random: bool, rand: RandomStream, from: nat, count: nat, width: nat)
    requires count > 0
    ensures done + InitialLayer(random, rand, from, count, width) ==
            (done + [InitialUnit(random, rand, from, width)]) + InitialLayer(random, rand, NextDraw(random, from, width), count - 1, width)
  {
  }

  /** Without `random` every bias and weight is zero. */
  lemma {:induction false} ZeroedLayer(rand: RandomStream, from: nat, count: nat, width: nat)
    ensures forall j :: 0 <= j < count ==> InitialLayer(false, rand, from, count, width)[j] == UnitParams(0.0, Zeros(width))
    decreases count
  {
    if count > 0 {
      ZeroedLayer(rand, from, count - 1, width);
    }
  }

  /** With `random` every bias and weight lies strictly between -1 and 1. */
  lemma {:induction false} DrawnLayerInRange(rand: RandomStream, from: nat, count: nat, width: nat)
    ensures InUnitRange(InitialLayer(true, rand, from, count, width))
    decreases count
  {
    if count > 0 {
      DrawnLayerInRange(rand, from + 2 * width + 2, count - 1, width);
    }
  }

  /** With `random` the layer consumes two draws per weight and two per bias, neuron after neuron. */
  lemma {:induction false} DrawsConsumed(from: nat, count: nat, width: nat)
    ensures LayerEnd(true, from, count, width) == from + count * (2 * width + 2)
    decreases count
  {
    if count > 0 {
      DrawsConsumed(from + 2 * width + 2, count - 1, width);
    }
  }

  /** Every bias and weight lies strictly between -1 and 1. */
  predicate InUnitRange(units: seq<UnitParams>)
  {
    forall j :: 0 <= j < |units| ==>
      -1.0 < units[j].bias < 1.0 && forall i :: 0 <= i < |units[j].weights| ==> -1.0 < units[j].weights[i] < 1.0
  }

  /** A neuron with `width` weights, bias `vies` and the first `width` entries of `row` as weights (setVies, then setPeso onto zero). */
  method NovoNeuronio(width: nat, vies: real, row: seq<real>) returns (n: Neuronio)
    requires width <= |row|
    ensures fresh(n)
    ensures n.Params() == UnitParams(vies, row[..width])
  {
    n := new Neuronio(width);
    n.SetVies(vies);
    var k := 0;
    while k < width
      invariant 0 <= k <= width && |n.peso| == width && n.vies == vies
      invariant forall i :: 0 <= i < k ==> n.peso[i] == row[i]
      invariant forall i :: k <= i < width ==> n.peso[i] == 0.0
    {
      n.SetPeso(k, row[k]);
      k := k + 1;
    }
    assert n.peso == row[..width];
  }

  /** One layer of the matrix constructor: neuron p gets bias `vies[p]` and row p cut to the first row's length. */
  method CamadaDeMatriz(rows: seq<seq<real>>, vies: seq<real>) returns (a: seq<Neuronio>)
    requires RowsFit(rows, vies)
    ensures |a| == |rows| && Distinct(a) && forall j :: 0 <= j < |a| ==> fresh(a[j])
    ensures Holds(a, LayerFromRows(rows, vies))
  {
    ghost var units := LayerFromRows(rows, vies);
    a := [];
    var p := 0;
    while p < |rows|
      invariant 0 <= p <= |rows| && |a| == p
      invariant Distinct(a) && forall q :: 0 <= q < p ==> fresh(a[q])
      invariant Holds(a, units[..p])
    {
      var n := NovoNeuronio(|rows[0]|, vies[p], rows[p]);
      a := a + [n];
      p := p + 1;
    }
    assert units[..p] == units;
  }

  /** One neuron of the size constructor: `new Neuronio(width)`, then `reset` (consuming draws from `from` on) or `zera`. */
  method NeuronioInicial(width: nat, random: bool, rand: RandomStream, from: nat) returns (n: Neuronio, next: nat)
    ensures fresh(n)
    ensures n.Params() == InitialUnit(random, rand, from, width)
    ensures next == NextDraw(random, from, width)
  {
    n := new Neuronio(width);
    if random {
      next := n.Reset(rand, from);
    } else {
      n.Zera();
      next := from;
    }
  }

  /** A new neuron of the size constructor, to follow the neurons `a` built so far. */
  method Acrescenta(a: seq<Neuronio>, ghost done: seq<UnitParams>, width: nat, random: bool, rand: RandomStream, from: nat)
    returns (n: Neuronio, next: nat)
    requires Distinct(a) && Holds(a, done)
    ensures fresh(n)
    ensures Distinct(a + [n]) && Holds(a + [n], done + [InitialUnit(random, rand, from, width)])
    ensures next == NextDraw(random, from, width)
  {
    n, next := NeuronioInicial(width, random, rand, from);
    assert n !in a && Holds(a, done);
    Extend(a, done, n);
  }

  /** One layer of the size constructor: `count` neurons of `width` weights, drawn by `reset` or zeroed by `zera`. */
  method CamadaInicial(count: nat, width: nat, random: bool, rand: RandomStream, from: nat)
    returns (a: seq<Neuronio>, next: nat)
    ensures |a| == count && Distinct(a) && forall j :: 0 <= j < |a| ==> fresh(a[j])
    ensures Holds(a, InitialLayer(random, rand, from, count, width))
    ensures next == LayerEnd(random, from, count, width)
  {
    a := [];
    ghost var done: seq<UnitParams> := [];
    var cursor: nat := from;
    var j := 0;
    while j < count
      invariant 0 <= j <= count && |a| == j
      invariant Distinct(a) && forall q :: 0 <= q < j ==> fresh(a[q])
      invariant Holds(a, done)
      invariant InitialLayer(random, rand, from, count, width) == done + InitialLayer(random, rand, cursor, count - j, width)
      invariant LayerEnd(random, from, count, width) == LayerEnd(random, cursor, count - j, width)
    {
      PeelInitial(done, random, rand, cursor, count - j, width);
      var n, c := Acrescenta(a, done, width, random, rand, cursor);
      a, done, cursor := a + [n], done + [InitialUnit(random, rand, cursor, width)], c;
      j := j + 1;
    }
    assert done + [] == done;
    next := cursor;
  }

  class Rede {
    const camadaEscondida: seq<Neuronio>
    const camadaSaida: seq<Neuronio>
    /** The biases and weights the neurons hold, layer by layer, as a value. */
    ghost var params: NetParams

    /** The neurons of both layers. */
    ghost function Units(): set<Neuronio>
    {
      (set j | 0 <= j < |camadaEscondida| :: camadaEscondida[j]) + (set k | 0 <= k < |camadaSaida| :: camadaSaida[k])
    }

    /**
     * Distinct neurons, shared by no other layer, holding `params`; every neuron of a
     * layer has as many weights as the first one; sizes fit in an `int`.
     */
    ghost predicate Valid()
      reads this, camadaEscondida`vies, camadaEscondida`peso, camadaSaida`vies, camadaSaida`peso
    {
      Distinct(camadaEscondida) && Distinct(camadaSaida) && Disjoint(camadaEscondida, camadaSaida) &&
      Holds(camadaEscondida, params.hidden) && Holds(camadaSaida, params.output) &&
      Uniform(params.hidden) && Uniform(params.output) &&
      |camadaEscondida| <= MaxInt && |camadaSaida| <= MaxInt &&
      (|camadaEscondida| > 0 ==> |params.hidden[0].weights| <= MaxInt) &&
      (|camadaSaida| > 0 ==> |params.output[0].weights| <= MaxInt)
    }

    /**
     * Matrix constructor: one hidden neuron per row of `camadaEscondida`, one output
     * neuron per row of `camadaSaida`, each with the given bias and the given weights
     * (as many as the first row of its matrix holds).
     */
    constructor DeMatrizes(camadaEscondida: seq<seq<real>>, camadaSaida: seq<seq<real>>,
                           viesEscondida: seq<real>, viesSaida: seq<real>)
      requires RowsFit(camadaEscondida, viesEscondida) && RowsFit(camadaSaida, viesSaida)
      requires |camadaEscondida| <= MaxInt && |camadaSaida| <= MaxInt
      requires |camadaEscondida| > 0 ==> |camadaEscondida[0]| <= MaxInt
      requires |camadaSaida| > 0 ==> |camadaSaida[0]| <= MaxInt
      ensures Valid() && fresh(Units())
      ensures params == NetParams(LayerFromRows(camadaEscondida, viesEscondida), LayerFromRows(camadaSaida, viesSaida))
    {
      var ce := CamadaDeMatriz(camadaEscondida, viesEscondida);
      var cs := CamadaDeMatriz(camadaSaida, viesSaida);
      this.camadaEscondida := ce;
      this.camadaSaida := cs;
      params := NetParams(LayerFromRows(camadaEscondida, viesEscondida), LayerFromRows(camadaSaida, viesSaida));
    }

    /**
     * The matrix constructor for any arrays, hidden layer first: an index exception
     * when a bias array is shorter than its matrix, or when a row is shorter than the
     * first row of its matrix; otherwise the network `DeMatrizes` builds.
     */
    static method NovaDeMatrizes(camadaEscondida: seq<seq<real>>, camadaSaida: seq<seq<real>>,
                                 viesEscondida: seq<real>, viesSaida: seq<real>)
      returns (r: Result<Rede, Excecao>)
      requires |camadaEscondida| <= MaxInt && |camadaSaida| <= MaxInt
      requires |camadaEscondida| > 0 ==> |camadaEscondida[0]| <= MaxInt
      requires |camadaSaida| > 0 ==> |camadaSaida[0]| <= MaxInt
      ensures r.Err? <==> !RowsFit(camadaEscondida, viesEscondida) || !RowsFit(camadaSaida, viesSaida)
      ensures r.Err? ==> r.error == IndexOutOfBounds
      ensures r.Ok? ==> fresh(r.value) && r.value.Valid() && fresh(r.value.Units())
      ensures r.Ok? ==> r.value.params == NetParams(LayerFromRows(camadaEscondida, viesEscondida),
                                                    LayerFromRows(camadaSaida, viesSaida))
    {
      if !RowsFit(camadaEscondida, viesEscondida) || !RowsFit(camadaSaida, viesSaida) {
        return Err(IndexOutOfBounds);
      }
      var rede := new Rede.DeMatrizes(camadaEscondida, camadaSaida, viesEscondida, viesSaida);
      r := Ok(rede);
    }

    /**
     * Size constructor: `camadaEscondida` hidden neurons with `camadaEntrada` weights and
     * `camadaSaida` output neurons with one weight per hidden neuron; all zero, or drawn
     * from `rand` (hidden neurons first) when `random` holds.
     */
    constructor DeTamanhos(camadaEntrada: nat, camadaEscondida: nat, camadaSaida: nat, random: bool, rand: RandomStream)
      requires camadaEntrada <= MaxInt && camadaEscondida <= MaxInt && camadaSaida <= MaxInt
      ensures Valid() && fresh(Units())
      ensures params == NetParams(InitialLayer(random, rand, 0, camadaEscondida, camadaEntrada),
                                  InitialLayer(random, rand, LayerEnd(random, 0, camadaEscondida, camadaEntrada),
                                               camadaSaida, camadaEscondida))
    {
      var ce, next := CamadaInicial(camadaEscondida, camadaEntrada, random, rand, 0);
      var cs, _ := CamadaInicial(camadaSaida, camadaEscondida, random, rand, next);
      this.camadaEscondida := ce;
      this.camadaSaida := cs;
      params := NetParams(InitialLayer(random, rand, 0, camadaEscondida, camadaEntrada),
                          InitialLayer(random, rand, next, camadaSaida, camadaEscondida));
    }

    /**
     * The size constructor for any three `int`s, with its exceptions in the order the
     * code meets them: the hidden array, then the output array (NegativeArraySizeException
     * for a negative size), then the first hidden neuron, whose weight array fails when
     * `camadaEntrada` is negative.  With no hidden neuron a negative `camadaEntrada` is
     * never used, and the network is built.
     */
    static method Novo(camadaEntrada: int, camadaEscondida: int, camadaSaida: int, random: bool, rand: RandomStream)
      returns (r: Result<Rede, Excecao>)
      requires MinInt <= camadaEntrada <= MaxInt && MinInt <= camadaEscondida <= MaxInt && MinInt <= camadaSaida <= MaxInt
      ensures r.Err? <==> camadaEscondida < 0 || camadaSaida < 0 || (camadaEntrada < 0 && 0 < camadaEscondida)
      ensures r.Err? ==> r.error == NegativeArraySize
      ensures r.Ok? ==> fresh(r.value) && r.value.Valid() && fresh(r.value.Units())
      ensures r.Ok? && 0 <= camadaEntrada ==>
                r.value.params == NetParams(InitialLayer(random, rand, 0, camadaEscondida, camadaEntrada),
                                            InitialLayer(random, rand, LayerEnd(random, 0, camadaEscondida, camadaEntrada),
                                                         camadaSaida, camadaEscondida))
      ensures r.Ok? && camadaEntrada < 0 ==> r.value.params == NetParams([], InitialLayer(random, rand, 0, camadaSaida, 0))
    {
      if camadaEscondida < 0 || camadaSaida < 0 {
        return Err(NegativeArraySize);
      }
      if camadaEntrada < 0 && 0 < camadaEscondida {
        return Err(NegativeArraySize);
      }
      var largura := if camadaEntrada < 0 then 0 else camadaEntrada;
      var rede := new Rede.DeTamanhos(largura, camadaEscondida, camadaSaida, random, rand);
      r := Ok(rede);
    }

    /**
     * The two loops of `executar(Tupla)`: every hidden neuron fed the sample, then every
     * output neuron fed the hidden outputs.  Only the stored activations change.  A
     * sample wider than the hidden neurons fails at the first hidden neuron, before
     * anything is stored; output neurons with fewer weights than there are hidden
     * neurons fail at the first output neuron, after every hidden activation is stored.
     */
    method Propaga(xs: seq<real>, exp: ExpFn) returns (r: Result<(seq<real>, seq<real>), Excecao>)
      requires Valid()
      modifies camadaEscondida`fAtivacao, camadaSaida`fAtivacao
      ensures Valid()
      ensures r.Err? <==> !Accepts(params, |xs|)
      ensures r.Err? ==> r.error == IndexOutOfBounds
      ensures !LayerFits(params.hidden, |xs|) ==> unchanged(camadaEscondida`fAtivacao)
      ensures LayerFits(params.hidden, |xs|) ==> Stores(camadaEscondida, LayerOutputs(exp, params.hidden, xs))
      ensures r.Err? ==> unchanged(camadaSaida`fAtivacao)
      ensures r.Ok? ==> r.value.0 == LayerOutputs(exp, params.hidden, xs) && r.value.1 == Outputs(exp, params, xs)
      ensures r.Ok? ==> Stores(camadaSaida, r.value.1)
    {
      var z := FeedLayer(camadaEscondida, xs, exp, params.hidden);
      if z.Err? {
        return Err(IndexOutOfBounds);
      }
      var y := FeedLayer(camadaSaida, z.value, exp, params.output);
      if y.Err? {
        return Err(IndexOutOfBounds);
      }
      r := Ok((z.value, y.value));
    }

    /**
     * `executar(Tupla)`: feeds the sample through both layers and returns the index of
     * the first output neuron with the largest output (-1 for an empty output layer).
     * A sample the network cannot take fails as `Propaga` says.
     */
    method Executar(tupla: Tupla, exp: ExpFn) returns (r: Result<int, Excecao>)
      requires Valid()
      modifies camadaEscondida`fAtivacao, camadaSaida`fAtivacao
      ensures Valid()
      ensures r.Err? <==> !Accepts(params, |tupla.features|)
      ensures r.Err? ==> r.error == IndexOutOfBounds
      ensures r.Ok? ==> r.value == Predict(exp, params, tupla.features)
      ensures r.Ok? ==> -1 <= r.value < |camadaSaida| && (r.value == -1 <==> |camadaSaida| == 0)
      ensures r.Ok? ==> Stores(camadaEscondida, LayerOutputs(exp, params.hidden, tupla.features))
      ensures r.Ok? ==> Stores(camadaSaida, Outputs(exp, params, tupla.features))
    {
      var zy := Propaga(tupla.features, exp);
      if zy.Err? {
        return Err(zy.error);
      }
      var d := Decide(zy.value.1);
      r := Ok(d);
    }

    /**
     * `decide`: the running maximum starts at the lowest finite double and only a
     * strictly larger value replaces it.  So the result is -1 exactly when no value lies
     * above the lowest finite double (in particular for an empty array), and otherwise
     * the first index of the largest value.
     */
    static method Decide(saida: seq<real>) returns (ret: int)
      ensures -1 <= ret < |saida|
      ensures ret == -1 <==> forall k :: 0 <= k < |saida| ==> saida[k] <= -MaxDouble
      ensures ret != -1 ==> IsFirstMax(saida, ret)
      ensures AboveLowest(saida) ==> ret == ArgMax(saida)
    {
      ret := -1;
      var maior := -MaxDouble;
      var i := 0;
      while i < |saida|
        invariant 0 <= i <= |saida| && -1 <= ret < i
        invariant ret == -1 ==> maior == -MaxDouble
        invariant ret != -1 ==> maior == saida[ret] && -MaxDouble < maior
        invariant forall k :: 0 <= k < i ==> saida[k] <= maior
        invariant ret != -1 ==> forall k :: 0 <= k < ret ==> saida[k] < maior
      {
        if saida[i] > maior {
          maior := saida[i];
          ret := i;
        }
        i := i + 1;
      }
      if ret != -1 && |saida| > 0 {
        FirstMaxUnique(saida, ret, ArgMax(saida));
      } else if |saida| > 0 {
        assert !(-MaxDouble < saida[0]);
      }
    }

    /** `toString`: the header, then a line per hidden neuron, then a line per output neuron. */
    method ToString(codec: DoubleCodec) returns (r: Result<string, Excecao>)
      requires Valid()
      ensures r == Serialize(codec, params)
    {
      if |camadaEscondida| == 0 || |camadaSaida| == 0 {
        return Err(IndexOutOfBounds);
      }
      var rede := Decimal(|camadaEscondida|) + ";" + Decimal(|camadaSaida|) + ";" +
                  Decimal(|camadaEscondida[0].peso|) + ";" + Decimal(|camadaSaida[0].peso|) + ";\n";
      TerminatedFour(Decimal(|camadaEscondida|), Decimal(|camadaSaida|),
                     Decimal(|camadaEscondida[0].peso|), Decimal(|camadaSaida[0].peso|), ';');
      assert rede == Header(params) + "\n";
      assert Terminated([Header(params)], '\n') == Header(params) + "\n" + Terminated([], '\n');
      rede := EscreveCamada(rede, "1", camadaEscondida, codec, [Header(params)], params.hidden);
      assert [Header(params)] + LayerLines(codec, "1", params.hidden) == Lines(codec, params)[..1 + |params.hidden|];
      rede := EscreveCamada(rede, "2", camadaSaida, codec, Lines(codec, params)[..1 + |params.hidden|], params.output);
      assert Lines(codec, params)[..1 + |params.hidden|] + LayerLines(codec, "2", params.output) == Lines(codec, params);
      r := Ok(rede);
    }

    /** `fromString`: parses the text and builds a new network with the matrix constructor. */
    static method FromString(codec: DoubleCodec, s: string) returns (r: Result<Rede, Excecao>)
      ensures r.Err? <==> Parse(codec, s).Err?
      ensures r.Err? ==> r.error == Parse(codec, s).error
      ensures r.Ok? ==> fresh(r.value) && fresh(r.value.Units()) && r.value.Valid()
      ensures r.Ok? ==> r.value.params == Built(Parse(codec, s).value)
    {
      var linhas := JavaSplit(s, '\n');
      if |linhas| == 0 {
        return Err(IndexOutOfBounds);
      }
      var tamanhos := JavaSplit(linhas[0], ';');
      var escondida := Dims(tamanhos, 0, 2);
      if escondida.Err? {
        return Err(escondida.error);
      }
      var saida := Dims(tamanhos, 1, 3);
      if saida.Err? {
        return Err(saida.error);
      }
      var h, o := Empty(escondida.value.0, escondida.value.1), Empty(saida.value.0, saida.value.1);
      var i := 1;
      while i < |linhas|
        invariant 1 <= i <= |linhas|
        invariant Rect(h, escondida.value.1) && Rect(o, saida.value.1)
        invariant |h.rows| == escondida.value.0 && |o.rows| == saida.value.0
        invariant ParseLines(codec, linhas, 1, Empty(escondida.value.0, escondida.value.1), Empty(saida.value.0, saida.value.1))
               == ParseLines(codec, linhas, i, h, o)
      {
        var lida := LeLinha(codec, linhas[i], h, o);
        if lida.Err? {
          return Err(lida.error);
        }
        h, o := lida.value.0, lida.value.1;
        i := i + 1;
      }
      var rede := new Rede.DeMatrizes(h.rows, o.rows, h.vies, o.vies);
      r := Ok(rede);
    }

    /**
     * `clonar`: `fromString(toString())`, a network with the same numbers in freshly
     * allocated neurons, so that later changes to either leave the other alone.
     */
    method Clonar(codec: DoubleCodec) returns (r: Result<Rede, Excecao>)
      requires Valid() && Faithful(codec)
      ensures r.Err? <==> |camadaEscondida| == 0 || |camadaSaida| == 0
      ensures r.Err? ==> r.error == IndexOutOfBounds
      ensures r.Ok? ==> fresh(r.value) && fresh(r.value.Units()) && r.value.Valid() && r.value.params == params
    {
      var texto := ToString(codec);
      if texto.Err? {
        return Err(texto.error);
      }
      RoundTrip(codec, params);
      r := FromString(codec, texto.value);
    }

    /** `hashString`: the printed value of the product of the hidden identifiers plus every output identifier. */
    method HashString(codec: DoubleCodec) returns (s: string)
      requires Valid()
      ensures s == codec.show(NetHash(params))
    {
      var hash := 1.0;
      var i := 0;
      while i < |camadaEscondida|
        invariant 0 <= i <= |camadaEscondida|
        invariant hash == HiddenHash(params.hidden[..i])
      {
        assert params.hidden[..i + 1][..i] == params.hidden[..i];
        var h := camadaEscondida[i].Hash();
        hash := hash * h;
        i := i + 1;
      }
      assert params.hidden[..i] == params.hidden;
      i := 0;
      while i < |camadaSaida|
        invariant 0 <= i <= |camadaSaida|
        invariant hash == OutputHash(HiddenHash(params.hidden), params.output[..i])
      {
        assert params.output[..i + 1][..i] == params.output[..i];
        var h := camadaSaida[i].Hash();
        hash := hash + h;
        i := i + 1;
      }
      assert params.output[..i] == params.output;
      s := codec.show(hash);
    }
  }

  /** Four pieces, each followed by `sep`. */
  lemma TerminatedFour(t0: string, t1: string, t2: string, t3: string, sep: char)
    ensures Terminated([t0, t1, t2, t3], sep) == t0 + [sep] + t1 + [sep] + t2 + [sep] + t3 + [sep]
  {
    var t := [t0, t1, t2, t3];
    assert t[3..][1..] == [];
    assert Terminated(t[3..], sep) == t3 + [sep];
    assert t[2..][1..] == t[3..];
    assert Terminated(t[2..], sep) == t2 + [sep] + t3 + [sep];
    assert t[1..][1..] == t[2..];
    assert Terminated(t[1..], sep) == t1 + [sep] + t2 + [sep] + t3 + [sep];
  }

  /** Appends the lines of one layer holding `units`, tagged `tag`, to the text `rede` already holding `done`. */
  method EscreveCamada(rede: string, tag: string, a: seq<Neuronio>, codec: DoubleCodec,
                       ghost done: seq<string>, ghost units: seq<UnitParams>)
    returns (r: string)
    requires rede == Terminated(done, '\n') && Holds(a, units)
    ensures r == Terminated(done + LayerLines(codec, tag, units), '\n')
  {
    r := rede;
    var i := 0;
    assert done + LayerLines(codec, tag, units[..0]) == done;
    while i < |a|
      invariant 0 <= i <= |a|
      invariant r == Terminated(done + LayerLines(codec, tag, units[..i]), '\n')
    {
      ghost var before := done + LayerLines(codec, tag, units[..i]);
      ghost var line := UnitLine(codec, tag, units[i]);
      assert a[i].Params() == units[i];
      r := EscreveNeuronio(r, tag, a[i], codec);
      TerminatedSnoc(before, line, '\n');
      assert LayerLines(codec, tag, units[..i + 1]) == LayerLines(codec, tag, units[..i]) + [line];
      assert before + [line] == done + LayerLines(codec, tag, units[..i + 1]);
      i := i + 1;
    }
    assert units[..i] == units;
  }

  /** Appends one neuron's line: the tag, the bias, every weight, separated by ';', then a line break. */
  method EscreveNeuronio(rede: string, tag: string, n: Neuronio, codec: DoubleCodec) returns (r: string)
    ensures r == rede + UnitLine(codec, tag, n.Params()) + "\n"
  {
    var peso := n.peso;
    r := tag + ";" + codec.show(n.GetVies());
    ghost var fields := [tag, codec.show(n.vies)];
    assert r == Joined(fields, ';');
    var j := 0;
    while j < |peso|
      invariant 0 <= j <= |peso|
      invariant r == Joined(fields + Shown(codec, peso[..j]), ';')
    {
      JoinedSnoc(fields + Shown(codec, peso[..j]), codec.show(peso[j]), ';');
      assert fields + Shown(codec, peso[..j + 1]) == fields + Shown(codec, peso[..j]) + [codec.show(peso[j])];
      r := r + ";" + codec.show(peso[j]);
      j := j + 1;
    }
    assert peso[..j] == peso;
    r := rede + r + "\n";
  }

  /** One line of `fromString`'s loop: split it and, by its tag, fill the next neuron of one layer. */
  method LeLinha(codec: DoubleCodec, linha: string, h: Camada, o: Camada) returns (r: Result<(Camada, Camada), Excecao>)
    requires |h.rows| == |h.vies| && |o.rows| == |o.vies|
    ensures r == ParseLine(codec, linha, h, o)
  {
    var neuronios := JavaSplit(linha, ';');
    if |neuronios| == 0 {
      return Err(IndexOutOfBounds);
    }
    if neuronios[0] == "1" {
      var l := LeNeuronio(codec, neuronios, h);
      if l.Err? {
        return Err(l.error);
      }
      r := Ok((l.value, o));
    } else if neuronios[0] == "2" {
      var l := LeNeuronio(codec, neuronios, o);
      if l.Err? {
        return Err(l.error);
      }
      r := Ok((h, l.value));
    } else {
      r := Ok((h, o));
    }
  }

  /** The bias of field 1 into the next free slot of `l`, then fields 2.. into its next row. */
  method LeNeuronio(codec: DoubleCodec, f: seq<string>, l: Camada) returns (r: Result<Camada, Excecao>)
    requires |l.rows| == |l.vies|
    ensures r == Fill(codec, f, l)
  {
    if |f| < 2 {
      return Err(IndexOutOfBounds);
    }
    var vies := ParseReal(codec, f[1]);
    if vies.Err? {
      return Err(vies.error);
    }
    if l.next >= |l.vies| {
      return Err(IndexOutOfBounds);
    }
    var row := l.rows[l.next];
    var j := 2;
    while j < |f|
      invariant 2 <= j
      invariant |row| == |l.rows[l.next]|
      invariant FillRow(codec, f, 2, l.rows[l.next]) == FillRow(codec, f, j, row)
      decreases |f| - j
    {
      var v := ParseReal(codec, f[j]);
      if v.Err? {
        return Err(v.error);
      }
      if j - 2 >= |row| {
        return Err(IndexOutOfBounds);
      }
      row := row[j - 2 := v.value];
      j := j + 1;
    }
    r := Ok(Camada(l.rows[l.next := row], l.vies[l.next := vies.value], l.next + 1));
  }
}
