/**
 * Training of the perceptron: the class `Treinamento` nested in MLP/src/Rede.java.
 * A session is one back-propagation step on one sample; epochs run a session per
 * training sample; `erros`, `erroQuadMed` and `matrizConfusao` evaluate a network
 * on one of the three data sets; `executar` alternates epochs with validation and
 * stops early (the rule itself is in parada.dfy).
 */
module MlpTreinamento {
  import opened Wrappers
  import opened Excecoes
  import opened Ativacao
  import opened Neuronios
  import opened RedeSpec
  import opened RedeTexto
  import opened Texto
  import opened Redes
  import opened Parada
  import opened Ciclo

  /** The data sets the evaluators can be pointed at (the source's codes 0, 1 and 2). */
  datatype Meta = TREINAMENTO | VALIDACAO | TESTE

  /** The condition of the epoch loop in `executar`: epoch `epoca` runs. */
  predicate EpocaRoda(epoca: int, intervalo: int)
  {
    epoca <= intervalo
  }

  /**
   * The epochs one pass of the `for` loop in `executar` runs: the counter starts at 1
   * and the loop runs while it is at most `intervalo`.  (At `Integer.MAX_VALUE` the
   * counter wraps before it can exceed `intervalo`, and the loop never ends.)
   */
  function Rodadas(intervalo: int): (n: nat)
    requires intervalo < MaxInt
    ensures forall epoca :: 1 <= epoca <= MaxInt ==> (EpocaRoda(epoca, intervalo) <==> epoca <= n)
    ensures n < MaxInt
  {
    if intervalo > 0 then intervalo else 0
  }

  /**
   * One loop of the first constructor: sample i pairs feature row i with label i, one
   * per label.  A label without a feature row ends the loop with an index exception.
   */
  method MontaTuplas(dados: seq<seq<real>>, classes: seq<int>) returns (r: Result<seq<Tupla>, Excecao>)
    ensures r.Err? <==> |dados| < |classes|
    ensures r.Err? ==> r.error == IndexOutOfBounds
    ensures r.Ok? ==> |r.value| == |classes|
    ensures r.Ok? ==> forall i :: 0 <= i < |r.value| ==> r.value[i].features == dados[i] && r.value[i].classe == classes[i]
  {
    var t: seq<Tupla> := [];
    var i := 0;
    while i < |classes|
      invariant 0 <= i <= |classes| && i <= |dados| && |t| == i
      invariant forall m :: 0 <= m < i ==> t[m].features == dados[m] && t[m].classe == classes[m]
    {
      if i == |dados| {
        return Err(IndexOutOfBounds);
      }
      t := t + [Tupla(dados[i], classes[i])];
      i := i + 1;
    }
    r := Ok(t);
  }

  /**
   * The first loop of `sessao` over the output layer: unit k stores its target, 1 for
   * the sample's class and -1 for every other, and gets the error term (target minus
   * stored output) times the derivative at the stored output.
   */
  method AlvosSaida(cs: seq<Neuronio>, classe: int, y: seq<real>) returns (deltaK: seq<real>)
    requires Distinct(cs) && Stores(cs, y)
    modifies cs`tk
    ensures LayerTargets(cs) == Targets(|cs|, classe)
    ensures deltaK == OutputDeltas(y, Targets(|cs|, classe))
  {
    ghost var t := Targets(|cs|, classe);
    deltaK := [];
    var k := 0;
    while k < |cs|
      invariant 0 <= k <= |cs| && |deltaK| == k
      invariant forall m :: 0 <= m < k ==> cs[m].tk == t[m] && deltaK[m] == (t[m] - y[m]) * Derivative(y[m])
    {
      var tk := if k == classe then 1.0 else -1.0;
      cs[k].tk := tk;
      deltaK := deltaK + [(tk - y[k]) * cs[k].Derivada()];
      k := k + 1;
    }
    ghost var d := OutputDeltas(y, t);
    assert forall m :: 0 <= m < k ==> deltaK[m] == d[m];
  }

  /**
   * The hidden loop of `sessao`: unit j's error term is the sum over output units k of
   * their error term times their weight from j, read before any weight changes, times
   * the derivative at j's stored output.
   */
  method DeltasEscondida(ce: seq<Neuronio>, cs: seq<Neuronio>, deltaK: seq<real>, ghost z: seq<real>,
                         ghost out: seq<UnitParams>) returns (deltaJ: seq<real>)
    requires Stores(ce, z) && Holds(cs, out) && |deltaK| == |cs|
    requires LayerFits(out, |ce|)
    ensures deltaJ == HiddenDeltas(deltaK, out, z)
  {
    deltaJ := [];
    var j := 0;
    while j < |ce|
      invariant 0 <= j <= |ce| && |deltaJ| == j
      invariant forall m :: 0 <= m < j ==> deltaJ[m] == BackError(deltaK, out, m) * Derivative(z[m])
    {
      var deltaIn := 0.0;
      var k := 0;
      while k < |cs|
        invariant 0 <= k <= |cs|
        invariant deltaIn == BackError(deltaK[..k], out, j)
      {
        assert deltaK[..k + 1][..k] == deltaK[..k];
        deltaIn := deltaIn + deltaK[k] * cs[k].GetPeso(j);
        k := k + 1;
      }
      assert deltaK[..k] == deltaK;
      deltaJ := deltaJ + [deltaIn * ce[j].Derivada()];
      j := j + 1;
    }
    ghost var d := HiddenDeltas(deltaK, out, z);
    assert forall m :: 0 <= m < j ==> deltaJ[m] == d[m];
  }

  /**
   * The update loops of `sessao`: unit j's bias moves by rate * deltas[j] and its
   * weight i by rate * deltas[j] * xs[i]; weights past |xs| keep their value.  The
   * neurons of the other layer, `others`, keep their parameters `otherUnits`.
   */
  method CorrigeCamada(a: seq<Neuronio>, ghost units: seq<UnitParams>, aprendizado: real, deltas: seq<real>, xs: seq<real>,
                       ghost others: seq<Neuronio>, ghost otherUnits: seq<UnitParams>)
    requires Distinct(a) && Holds(a, units) && |deltas| == |a| && LayerFits(units, |xs|)
    requires Disjoint(others, a) && Holds(others, otherUnits)
    modifies a`vies, a`peso
    ensures Holds(a, CorrectedLayer(units, aprendizado, deltas, xs))
    ensures Holds(others, otherUnits)
  {
    var j := 0;
    while j < |a|
      invariant 0 <= j <= |a|
      invariant forall m {:trigger others[m]} :: 0 <= m < |others| ==> others[m].vies == old(others[m].vies) && others[m].peso == old(others[m].peso)
      invariant forall m {:trigger a[m]} :: 0 <= m < |a| ==>
        a[m].Params() == (if m < j then Corrected(units[m], aprendizado, deltas[m], xs) else units[m])
    {
      AplicaCorrecao(a[j], aprendizado * deltas[j], Corrections(aprendizado, deltas[j], xs));
      j := j + 1;
    }
  }

  /** `mlp.executar(t)` where only the class it returns matters. */
  method Classifica(mlp: Rede, t: Tupla, exp: ExpFn) returns (r: Result<int, Excecao>)
    requires mlp.Valid()
    modifies mlp.camadaEscondida`fAtivacao, mlp.camadaSaida`fAtivacao
    ensures mlp.Valid() && mlp.params == old(mlp.params)
    ensures r.Err? <==> !Accepts(mlp.params, |t.features|)
    ensures r.Err? ==> r.error == IndexOutOfBounds
    ensures r.Ok? ==> r.value == Predict(exp, mlp.params, t.features)
  {
    r := mlp.Executar(t, exp);
  }

  /** One pass of the outer loop of `erroQuadMed`: `mlp` runs on `tupla`, then its output layer's squared error is summed. */
  method ErroDaTupla(mlp: Rede, tupla: Tupla, exp: ExpFn, ghost t: seq<real>) returns (r: Result<real, Excecao>)
    requires mlp.Valid() && LayerTargets(mlp.camadaSaida) == t
    modifies mlp.camadaEscondida`fAtivacao, mlp.camadaSaida`fAtivacao
    ensures mlp.Valid() && mlp.params == old(mlp.params) && LayerTargets(mlp.camadaSaida) == t
    ensures r.Err? <==> !Accepts(mlp.params, |tupla.features|)
    ensures r.Err? ==> r.error == IndexOutOfBounds
    ensures r.Ok? ==> r.value == SampleSquaredError(t, Outputs(exp, mlp.params, tupla.features))
  {
    var classe := mlp.Executar(tupla, exp);
    if classe.Err? {
      return Err(classe.error);
    }
    var temp := ErroAmostra(mlp.camadaSaida, t, Outputs(exp, mlp.params, tupla.features));
    r := Ok(temp);
  }

  method ErroAmostra(cs: seq<Neuronio>, ghost t: seq<real>, ghost y: seq<real>) returns (temp: real)
    requires LayerTargets(cs) == t && Stores(cs, y)
    ensures temp == SampleSquaredError(t, y)
  {
    temp := 0.0;
    var j := 0;
    while j < |cs|
      invariant 0 <= j <= |cs|
      invariant temp == SampleSquaredError(t[..j], y[..j])
    {
      SampleSquaredErrorStep(t, y, j);
      temp := temp + Square(cs[j].tk - cs[j].fAtivacao);
      j := j + 1;
    }
    assert t[..j] == t && y[..j] == y;
  }

  
  /** `m` is a 10 x 10 matrix whose entry [c][d] counts the pairs (c, d). */
  ghost predicate Tabula(m: array2<int>, pares: seq<(int, int)>)
    reads m
  {
    m.Length0 == 10 && m.Length1 == 10 &&
    forall c, d :: 0 <= c < 10 && 0 <= d < 10 ==> m[c, d] == CountPair(pares, c, d)
  }


  class Treinamento {
    /** The network being trained (the enclosing `Rede` in the source). */
    const rede: Rede
    const treinamento: seq<Tupla>
    const validacao: seq<Tupla>
    const teste: seq<Tupla>
    const aprendizado: real
    /** The best network found so far: a copy taken at the best validation checkpoint. */
    var melhorRede: Rede?

    /** The network being trained is well formed. */
    ghost predicate Valid()
      reads rede, rede.camadaEscondida`vies, rede.camadaEscondida`peso, rede.camadaSaida`vies, rede.camadaSaida`peso
    {
      rede.Valid()
    }

    /** The set a `Meta` code selects. */
    function Dados(meta: Meta): seq<Tupla>
    {
      match meta
      case TREINAMENTO => treinamento
      case VALIDACAO => validacao
      case TESTE => teste
    }

    /** Samples built elsewhere. */
    constructor (rede: Rede, treinamento: seq<Tupla>, validacao: seq<Tupla>, teste: seq<Tupla>, aprendizado: real)
      ensures this.rede == rede && this.aprendizado == aprendizado && melhorRede == null
      ensures this.treinamento == treinamento && this.validacao == validacao && this.teste == teste
    {
      this.rede := rede;
      this.treinamento := treinamento;
      this.validacao := validacao;
      this.teste := teste;
      this.aprendizado := aprendizado;
      melhorRede := null;
    }

    /**
     * The first constructor: one sample per label of each set, the training set built
     * first, then validation, then test.  A set with more labels than feature rows ends
     * the construction with an index exception.
     */
    static method DeMatrizes(rede: Rede, treinamento: seq<seq<real>>, classeTr: seq<int>,
                             validacao: seq<seq<real>>, classeV: seq<int>,
                             teste: seq<seq<real>>, classeTe: seq<int>, aprendizado: real)
      returns (r: Result<Treinamento, Excecao>)
      ensures r.Err? <==> |treinamento| < |classeTr| || |validacao| < |classeV| || |teste| < |classeTe|
      ensures r.Err? ==> r.error == IndexOutOfBounds
      ensures r.Ok? ==> fresh(r.value) && r.value.rede == rede && r.value.aprendizado == aprendizado && r.value.melhorRede == null
      ensures r.Ok? ==> |r.value.treinamento| == |classeTr| && |r.value.validacao| == |classeV| && |r.value.teste| == |classeTe|
      ensures r.Ok? ==> forall i :: 0 <= i < |classeTr| ==> r.value.treinamento[i] == Tupla(treinamento[i], classeTr[i])
      ensures r.Ok? ==> forall i :: 0 <= i < |classeV| ==> r.value.validacao[i] == Tupla(validacao[i], classeV[i])
      ensures r.Ok? ==> forall i :: 0 <= i < |classeTe| ==> r.value.teste[i] == Tupla(teste[i], classeTe[i])
    {
      var tr := MontaTuplas(treinamento, classeTr);
      if tr.Err? {
        return Err(tr.error);
      }
      var v := MontaTuplas(validacao, classeV);
      if v.Err? {
        return Err(v.error);
      }
      var te := MontaTuplas(teste, classeTe);
      if te.Err? {
        return Err(te.error);
      }
      var t := new Treinamento(rede, tr.value, v.value, te.value, aprendizado);
      r := Ok(t);
    }

    /**
     * `sessao`: one back-propagation step on `tupla`.  Both layers are fed, the output
     * units store their targets, every correction is computed from the weights as they
     * were before the session, and then each bias and weight moves by exactly its
     * correction.  A sample the network cannot take fails while the layers are fed,
     * before any target is stored; without hidden units the source fails after storing
     * the targets.  A failed session changes no parameter.
     */
    method Sessao(tupla: Tupla, exp: ExpFn) returns (r: Result<(), Excecao>)
      requires rede.Valid()
      modifies rede`params, rede.camadaEscondida`vies, rede.camadaEscondida`peso, rede.camadaEscondida`fAtivacao
      modifies rede.camadaSaida`vies, rede.camadaSaida`peso, rede.camadaSaida`fAtivacao, rede.camadaSaida`tk
      ensures rede.Valid()
      ensures r.Err? <==> !Accepts(old(rede.params), |tupla.features|) || |rede.camadaEscondida| == 0
      ensures r.Err? ==> r.error == IndexOutOfBounds && rede.params == old(rede.params)
      ensures !Accepts(old(rede.params), |tupla.features|) ==> LayerTargets(rede.camadaSaida) == old(LayerTargets(rede.camadaSaida))
      ensures Accepts(old(rede.params), |tupla.features|) ==>
                LayerTargets(rede.camadaSaida) == Targets(|rede.camadaSaida|, tupla.classe) &&
                Stores(rede.camadaEscondida, LayerOutputs(exp, old(rede.params).hidden, tupla.features)) &&
                Stores(rede.camadaSaida, Outputs(exp, old(rede.params), tupla.features))
      ensures r.Ok? ==> rede.params == SessionParams(exp, old(rede.params), tupla, aprendizado)
    {
      ghost var p := rede.params;
      var alimenta := Alimenta(tupla, exp);
      if alimenta.Err? {
        return Err(alimenta.error);
      }
      var (zJ, deltaK) := alimenta.value;
      if |rede.camadaEscondida| == 0 {
        return Err(IndexOutOfBounds);
      }
      var deltaJ := DeltasEscondida(rede.camadaEscondida, rede.camadaSaida, deltaK, zJ, p.output);
      Aplica(deltaK, zJ, deltaJ, tupla.features, Outputs(exp, p, tupla.features), Targets(|rede.camadaSaida|, tupla.classe));
      r := Ok(());
    }

    /**
     * The forward half of `sessao`: both layers are fed, each output unit stores its
     * target, and the output error terms come back with the hidden outputs.  A sample
     * the network cannot take fails while the layers are fed, before any target is
     * stored.
     */
    method Alimenta(tupla: Tupla, exp: ExpFn) returns (r: Result<(seq<real>, seq<real>), Excecao>)
      requires rede.Valid()
      modifies rede.camadaEscondida`fAtivacao, rede.camadaSaida`fAtivacao, rede.camadaSaida`tk
      ensures rede.Valid()
      ensures r.Err? <==> !Accepts(rede.params, |tupla.features|)
      ensures r.Err? ==> r.error == IndexOutOfBounds && LayerTargets(rede.camadaSaida) == old(LayerTargets(rede.camadaSaida))
      ensures r.Ok? ==> LayerTargets(rede.camadaSaida) == Targets(|rede.camadaSaida|, tupla.classe)
      ensures r.Ok? ==> r.value.0 == LayerOutputs(exp, rede.params.hidden, tupla.features)
      ensures r.Ok? ==> Stores(rede.camadaEscondida, r.value.0)
      ensures r.Ok? ==> Stores(rede.camadaSaida, Outputs(exp, rede.params, tupla.features))
      ensures r.Ok? ==> r.value.1 == SessionOutputDeltas(exp, rede.params, tupla)
    {
      var zy := rede.Propaga(tupla.features, exp);
      if zy.Err? {
        return Err(zy.error);
      }
      var (zJ, yK) := zy.value;
      assert |rede.camadaSaida| == |rede.params.output|;
      assert SessionOutputDeltas(exp, rede.params, tupla) == OutputDeltas(yK, Targets(|rede.camadaSaida|, tupla.classe));
      var deltaK := AlvosSaida(rede.camadaSaida, tupla.classe, yK);
      r := Ok((zJ, deltaK));
    }

    /**
     * The update loops of `sessao`: the output layer is corrected against the hidden
     * outputs `zJ`, then the hidden layer against the sample's features `xs`.
     */
    method Aplica(deltaK: seq<real>, zJ: seq<real>, deltaJ: seq<real>, xs: seq<real>, ghost y: seq<real>, ghost t: seq<real>)
      requires Stores(rede.camadaEscondida, zJ) && Stores(rede.camadaSaida, y) && LayerTargets(rede.camadaSaida) == t
      requires rede.Valid() && |deltaK| == |rede.camadaSaida| && |deltaJ| == |rede.camadaEscondida|
      requires LayerFits(rede.params.output, |zJ|) && LayerFits(rede.params.hidden, |xs|)
      modifies rede`params, rede.camadaEscondida`vies, rede.camadaEscondida`peso, rede.camadaSaida`vies, rede.camadaSaida`peso
      ensures rede.Valid()
      ensures Stores(rede.camadaEscondida, zJ)
      ensures Stores(rede.camadaSaida, y)
      ensures LayerTargets(rede.camadaSaida) == t
      ensures rede.params == NetParams(CorrectedLayer(old(rede.params).hidden, aprendizado, deltaJ, xs),
                                       CorrectedLayer(old(rede.params).output, aprendizado, deltaK, zJ))
    {
      ghost var p := rede.params;
      rede.params := NetParams(CorrectedLayer(p.hidden, aprendizado, deltaJ, xs), CorrectedLayer(p.output, aprendizado, deltaK, zJ));
      CorrigeCamada(rede.camadaSaida, p.output, aprendizado, deltaK, zJ, rede.camadaEscondida, p.hidden);
      CorrigeCamada(rede.camadaEscondida, p.hidden, aprendizado, deltaJ, xs, rede.camadaSaida,
                    CorrectedLayer(p.output, aprendizado, deltaK, zJ));
      assert forall j :: 0 <= j < |rede.camadaEscondida| ==> rede.camadaEscondida[j].fAtivacao == old(rede.camadaEscondida[j].fAtivacao);
      assert forall j :: 0 <= j < |rede.camadaSaida| ==>
        rede.camadaSaida[j].fAtivacao == old(rede.camadaSaida[j].fAtivacao) && rede.camadaSaida[j].tk == old(rede.camadaSaida[j].tk);
    }

    /** After the sessions for the first `linha` training samples from `q`: the network holds their result. */
    ghost predicate SessoesFeitas(exp: ExpFn, q: NetParams, linha: nat)
      reads rede, rede.camadaEscondida`vies, rede.camadaEscondida`peso, rede.camadaSaida`vies, rede.camadaSaida`peso
    {
      linha <= |treinamento| && rede.Valid() && ShapeOf(rede.params) == ShapeOf(q) &&
      AcceptsAll(q, treinamento[..linha]) && rede.params == Epoch(exp, q, treinamento[..linha], aprendizado) &&
      (0 < linha ==> 0 < |rede.camadaEscondida|)
    }

    /**
     * What an epoch from `q` ends with: a well-formed network of the same shape; an
     * index exception exactly when a training sample cannot be taken or there are
     * samples but no hidden units; otherwise one session per sample, in order.
     */
    ghost predicate EpocaResultado(exp: ExpFn, q: NetParams, r: Result<(), Excecao>)
      reads rede, rede.camadaEscondida`vies, rede.camadaEscondida`peso, rede.camadaSaida`vies, rede.camadaSaida`peso
    {
      rede.Valid() && ShapeOf(rede.params) == ShapeOf(q) &&
      (r.Err? <==> !AcceptsAll(q, treinamento) || (|rede.camadaEscondida| == 0 && 0 < |treinamento|)) &&
      (r.Err? ==> r.error == IndexOutOfBounds) &&
      (r.Ok? ==> AcceptsAll(q, treinamento) && rede.params == Epoch(exp, q, treinamento, aprendizado))
    }

    /** Once every training sample has had its session, the epoch ends without an error. */
    lemma SessoesConcluidas(exp: ExpFn, q: NetParams)
      requires SessoesFeitas(exp, q, |treinamento|)
      ensures EpocaResultado(exp, q, Ok(()))
    {
      assert treinamento[..|treinamento|] == treinamento;
    }

    /**
     * The session for training sample `linha`, after those before it from `q`: an
     * error ends the epoch with its outcome.
     */
    method ProximaSessao(exp: ExpFn, ghost q: NetParams, linha: nat) returns (r: Result<(), Excecao>)
      requires linha < |treinamento| && SessoesFeitas(exp, q, linha)
      modifies rede`params, rede.camadaEscondida`vies, rede.camadaEscondida`peso, rede.camadaEscondida`fAtivacao
      modifies rede.camadaSaida`vies, rede.camadaSaida`peso, rede.camadaSaida`fAtivacao, rede.camadaSaida`tk
      ensures r.Err? ==> EpocaResultado(exp, q, r)
      ensures r.Ok? ==> SessoesFeitas(exp, q, linha + 1)
    {
      AcceptsAllStep(q, treinamento, linha);
      ghost var antes := rede.params;
      SameShapeAccept(antes, q, |treinamento[linha].features|);
      r := Sessao(treinamento[linha], exp);
      if r.Ok? {
        EpochStep(exp, q, treinamento, aprendizado, linha);
      }
    }

    /**
     * One pass of the epoch loop of `executar`: a session for every training sample in
     * order, up to the first one that fails.  A session fails on a sample the network
     * cannot take, and on every sample without hidden units.
     */
    method Epoca(exp: ExpFn) returns (r: Result<(), Excecao>)
      requires rede.Valid()
      modifies rede`params, rede.camadaEscondida`vies, rede.camadaEscondida`peso, rede.camadaEscondida`fAtivacao
      modifies rede.camadaSaida`vies, rede.camadaSaida`peso, rede.camadaSaida`fAtivacao, rede.camadaSaida`tk
      ensures EpocaResultado(exp, old(rede.params), r)
    {
      ghost var q := rede.params;
      var linha := 0;
      while linha < |treinamento|
        invariant SessoesFeitas(exp, q, linha)
      {
        r := ProximaSessao(exp, q, linha);
        if r.Err? {
          return;
        }
        linha := linha + 1;
      }
      SessoesConcluidas(exp, q);
      r := Ok(());
    }

    /** After `feitas` epochs from `p0`: the network is well formed, keeps its shape and holds the trained weights. */
    ghost predicate EpocasFeitas(exp: ExpFn, p0: NetParams, feitas: nat)
      reads rede, rede.camadaEscondida`vies, rede.camadaEscondida`peso, rede.camadaSaida`vies, rede.camadaSaida`peso
    {
      Valid() && ShapeOf(rede.params) == ShapeOf(p0) &&
      (0 < feitas ==> AcceptsAll(p0, treinamento) && (0 < |rede.camadaEscondida| || |treinamento| == 0)) &&
      rede.params == Epochs(exp, p0, treinamento, aprendizado, feitas)
    }

    /**
     * What `n` epochs from `p0` end with: a well-formed network of the same shape; an
     * index exception exactly when there is an epoch to run and a training sample the
     * network cannot take (or no hidden layer to train); otherwise the trained weights.
     */
    ghost predicate EpocasResultado(exp: ExpFn, p0: NetParams, n: nat, r: Result<(), Excecao>)
      reads rede, rede.camadaEscondida`vies, rede.camadaEscondida`peso, rede.camadaSaida`vies, rede.camadaSaida`peso
    {
      Valid() && ShapeOf(rede.params) == ShapeOf(p0) &&
      (r.Err? <==> 0 < n && (!AcceptsAll(p0, treinamento) || (|rede.camadaEscondida| == 0 && 0 < |treinamento|))) &&
      (r.Err? ==> r.error == IndexOutOfBounds) &&
      (r.Ok? && 0 < n ==> AcceptsAll(p0, treinamento)) &&
      (r.Ok? ==> rede.params == Epochs(exp, p0, treinamento, aprendizado, n))
    }

    /** Once all `n` epochs are done, the loop ends without an error. */
    lemma EpocasConcluidas(exp: ExpFn, p0: NetParams, n: nat)
      requires EpocasFeitas(exp, p0, n)
      ensures EpocasResultado(exp, p0, n, Ok(()))
    {
    }

    /**
     * Epoch `feitas + 1` of `n`, after `feitas` of them from `p0`: an error ends the
     * loop with the outcome of all `n`.
     */
    method ProximaEpoca(exp: ExpFn, ghost p0: NetParams, ghost feitas: nat, ghost n: nat) returns (r: Result<(), Excecao>)
      requires feitas < n && EpocasFeitas(exp, p0, feitas)
      modifies rede`params, rede.camadaEscondida`vies, rede.camadaEscondida`peso, rede.camadaEscondida`fAtivacao
      modifies rede.camadaSaida`vies, rede.camadaSaida`peso, rede.camadaSaida`fAtivacao, rede.camadaSaida`tk
      ensures r.Err? ==> EpocasResultado(exp, p0, n, r)
      ensures r.Ok? ==> EpocasFeitas(exp, p0, feitas + 1)
    {
      ghost var q := rede.params;
      r := Epoca(exp);
      SameShapeAccepts(q, p0, treinamento);
      if r.Ok? {
        EpochsNext(exp, p0, q, treinamento, aprendizado, feitas);
      }
    }

    /** The epoch loop of `executar`: `n` epochs in a row, up to the first one that fails. */
    method Epocas(n: nat, exp: ExpFn) returns (r: Result<(), Excecao>)
      requires Valid()
      modifies rede`params, rede.camadaEscondida`vies, rede.camadaEscondida`peso, rede.camadaEscondida`fAtivacao
      modifies rede.camadaSaida`vies, rede.camadaSaida`peso, rede.camadaSaida`fAtivacao, rede.camadaSaida`tk
      ensures EpocasResultado(exp, old(rede.params), n, r)
    {
      ghost var p0 := rede.params;
      var feitas := 0;
      while feitas < n
        invariant 0 <= feitas <= n
        invariant EpocasFeitas(exp, p0, feitas)
      {
        r := ProximaEpoca(exp, p0, feitas, n);
        if r.Err? {
          return;
        }
        feitas := feitas + 1;
      }
      EpocasConcluidas(exp, p0, n);
      r := Ok(());
    }

    /**
     * `erros`: feeds every sample of the chosen set to `mlp` and returns the share it
     * misclassifies, no value for an empty set; only the stored activations change.
     * The first sample `mlp` cannot take ends it with an index exception.
     */
    method Erros(meta: Meta, mlp: Rede, exp: ExpFn) returns (r: Result<Option<real>, Excecao>)
      requires mlp.Valid()
      modifies mlp.camadaEscondida`fAtivacao, mlp.camadaSaida`fAtivacao
      ensures mlp.Valid() && mlp.params == old(mlp.params)
      ensures r.Err? <==> !AcceptsAll(mlp.params, Dados(meta))
      ensures r.Err? ==> r.error == IndexOutOfBounds
      ensures r.Ok? ==> r.value == ErrorRate(exp, mlp.params, Dados(meta))
    {
      var entrada := Dados(meta);
      ghost var p := mlp.params;
      var tentativas := |entrada|;
      var erros := 0;
      var i := 0;
      while i < tentativas
        invariant 0 <= i <= tentativas
        invariant mlp.Valid() && mlp.params == p
        invariant AcceptsAll(p, entrada[..i])
        invariant erros == ErrorCount(exp, p, entrada[..i])
      {
        AcceptsAllStep(p, entrada, i);
        var resultado := Classifica(mlp, entrada[i], exp);
        if resultado.Err? {
          return Err(resultado.error);
        }
        ErrorCountStep(exp, p, entrada, i, resultado.value);
        if resultado.value != entrada[i].classe {
          erros := erros + 1;
        }
        i := i + 1;
      }
      assert entrada[..i] == entrada;
      if tentativas == 0 {
        r := Ok(None);
      } else {
        r := Ok(Some(erros as real / tentativas as real));
      }
    }

    /**
     * `erroQuadMed`: over the samples of the chosen set, the sum of (stored target -
     * output)^2 over the output units, not divided by anything.  The targets are the
     * ones the last session stored, which evaluation never refreshes.  The first
     * sample `mlp` cannot take ends it with an index exception.
     */
    method ErroQuadMed(meta: Meta, mlp: Rede, exp: ExpFn) returns (r: Result<real, Excecao>)
      requires mlp.Valid()
      modifies mlp.camadaEscondida`fAtivacao, mlp.camadaSaida`fAtivacao
      ensures mlp.Valid() && mlp.params == old(mlp.params)
      ensures r.Err? <==> !AcceptsAll(mlp.params, Dados(meta))
      ensures r.Err? ==> r.error == IndexOutOfBounds
      ensures r.Ok? ==> r.value == SquaredErrorSum(exp, mlp.params, LayerTargets(mlp.camadaSaida), Dados(meta))
    {
      var entrada := Dados(meta);
      var cs := mlp.camadaSaida;
      ghost var t := LayerTargets(cs);
      ghost var p := mlp.params;
      var e := 0.0;
      var i := 0;
      while i < |entrada|
        invariant 0 <= i <= |entrada|
        invariant mlp.Valid() && mlp.params == p && t == LayerTargets(cs)
        invariant AcceptsAll(p, entrada[..i])
        invariant e == SquaredErrorSum(exp, p, t, entrada[..i])
      {
        AcceptsAllStep(p, entrada, i);
        var temp := ErroDaTupla(mlp, entrada[i], exp, t);
        if temp.Err? {
          return Err(temp.error);
        }
        SquaredErrorSumStep(exp, p, t, entrada, i);
        e := e + temp.value;
        i := i + 1;
      }
      assert entrada[..i] == entrada;
      r := Ok(e);
    }

    /**
     * `matriz[t.classe][mlp.executar(t)]++`: the label is checked against the rows
     * before the network runs, the prediction against the columns after it.
     */
    method Conta(matriz: array2<int>, mlp: Rede, t: Tupla, exp: ExpFn, ghost pares: seq<(int, int)>) returns (r: Result<int, Excecao>)
      requires mlp.Valid() && Tabula(matriz, pares)
      modifies matriz, mlp.camadaEscondida`fAtivacao, mlp.camadaSaida`fAtivacao
      ensures mlp.Valid() && mlp.params == old(mlp.params)
      ensures r.Err? <==> !InRange(t.classe, 10) || !Accepts(mlp.params, |t.features|) ||
                          !InRange(Predict(exp, mlp.params, t.features), 10)
      ensures r.Err? ==> r.error == IndexOutOfBounds
      ensures r.Ok? ==> r.value == Predict(exp, mlp.params, t.features)
      ensures r.Ok? ==> Tabula(matriz, pares + [(t.classe, r.value)])
    {
      if !(0 <= t.classe < 10) {
        return Err(IndexOutOfBounds);
      }
      var coluna := Classifica(mlp, t, exp);
      if coluna.Err? {
        return Err(coluna.error);
      }
      if !(0 <= coluna.value < 10) {
        return Err(IndexOutOfBounds);
      }
      matriz[t.classe, coluna.value] := matriz[t.classe, coluna.value] + 1;
      forall c, d {
        CountPairStep(pares, (t.classe, coluna.value), c, d);
      }
      r := Ok(coluna.value);
    }

    /**
     * `matrizConfusao`: a fresh 10 x 10 matrix where entry [c][d] counts the test
     * samples of class c that `mlp` assigns to class d.  A label outside 0..9 fails
     * before the sample is fed, a sample `mlp` cannot take while it is fed, a
     * prediction outside 0..9 after.
     */
    method MatrizConfusao(mlp: Rede, exp: ExpFn) returns (r: Result<array2<int>, Excecao>)
      requires mlp.Valid()
      modifies mlp.camadaEscondida`fAtivacao, mlp.camadaSaida`fAtivacao
      ensures mlp.Valid() && mlp.params == old(mlp.params)
      ensures r.Err? <==> !(AcceptsAll(mlp.params, teste) && FitsMatrix(exp, mlp.params, teste, 10))
      ensures r.Err? ==> r.error == IndexOutOfBounds
      ensures r.Ok? ==> AcceptsAll(mlp.params, teste) && fresh(r.value) && Tabula(r.value, Outcomes(exp, mlp.params, teste))
    {
      var matriz := new int[10, 10]((_, _) => 0);
      ghost var p := mlp.params;
      var i := 0;
      while i < |teste|
        invariant 0 <= i <= |teste|
        invariant mlp.Valid() && mlp.params == p
        invariant AcceptsAll(p, teste[..i]) && FitsMatrix(exp, p, teste[..i], 10)
        invariant Tabula(matriz, Outcomes(exp, p, teste[..i]))
      {
        AcceptsAllStep(p, teste, i);
        var contada := Conta(matriz, mlp, teste[i], exp, Outcomes(exp, p, teste[..i]));
        if contada.Err? {
          if AcceptsAll(p, teste) && FitsMatrix(exp, p, teste, 10) {
            FitsMatrixPrefix(exp, p, teste, i + 1, 10);
          }
          return Err(contada.error);
        }
        FitsMatrixStep(exp, p, teste, i, 10);
        OutcomesStep(exp, p, teste, i);
        assert mlp.Valid() && mlp.params == p;
        i := i + 1;
      }
      assert teste[..i] == teste;
      r := Ok(matriz);
    }

    /** One pass of the `while` loop of `executar` up to the validation check: the epochs, then `erros(VALIDACAO)`. */
    method Rodada(rodadas: nat, exp: ExpFn) returns (r: Result<Option<real>, Excecao>)
      requires Valid()
      modifies rede`params, rede.camadaEscondida`vies, rede.camadaEscondida`peso, rede.camadaEscondida`fAtivacao
      modifies rede.camadaSaida`vies, rede.camadaSaida`peso, rede.camadaSaida`fAtivacao, rede.camadaSaida`tk
      ensures Valid() && ShapeOf(rede.params) == ShapeOf(old(rede.params))
      ensures r.Err? <==>
                (0 < rodadas && (!AcceptsAll(old(rede.params), treinamento) || (|rede.camadaEscondida| == 0 && 0 < |treinamento|))) ||
                !AcceptsAll(old(rede.params), validacao)
      ensures r.Err? ==> r.error == IndexOutOfBounds
      ensures r.Ok? && 0 < rodadas ==> AcceptsAll(old(rede.params), treinamento)
      ensures r.Ok? ==> rede.params == Epochs(exp, old(rede.params), treinamento, aprendizado, rodadas)
      ensures r.Ok? ==> AcceptsAll(rede.params, validacao) && r.value == ErrorRate(exp, rede.params, validacao)
    {
      var epocas := Epocas(rodadas, exp);
      if epocas.Err? {
        return Err(epocas.error);
      }
      var atual := Erros(VALIDACAO, rede, exp);
      if atual.Err? {
        return Err(atual.error);
      }
      r := Ok(atual.value);
    }

    /**
     * The first half of `clonar`, taken when a checkpoint improves: the text of the
     * network, which reads back as its parameters.
     */
    method Retrato(codec: DoubleCodec) returns (r: Result<string, Excecao>)
      requires Valid() && Faithful(codec)
      ensures Valid() && rede.params == old(rede.params)
      ensures r.Err? <==> |rede.camadaEscondida| == 0 || |rede.camadaSaida| == 0
      ensures r.Err? ==> r.error == IndexOutOfBounds
      ensures r.Ok? ==> Guarda(codec, r.value, rede.params)
    {
      r := rede.ToString(codec);
      if r.Ok? {
        RoundTrip(codec, rede.params);
      }
    }

    /**
     * The second half of `clonar`: the network read back from `texto` becomes
     * `melhorRede`, in neurons of its own.
     */
    method Restaura(codec: DoubleCodec, texto: string, ghost p: NetParams)
      requires Valid() && Guarda(codec, texto, p)
      modifies this`melhorRede
      ensures Valid()
      ensures melhorRede != null && fresh(melhorRede.camadaEscondida) && fresh(melhorRede.camadaSaida)
      ensures melhorRede.Valid() && melhorRede.params == p
    {
      var clone := Rede.FromString(codec, texto);
      if clone.Err? {
        assert false;
      }
      var m := clone.value;
      assert forall j :: 0 <= j < |m.camadaEscondida| ==> m.camadaEscondida[j] in m.Units();
      assert forall j :: 0 <= j < |m.camadaSaida| ==> m.camadaSaida[j] in m.Units();
      melhorRede := m;
    }

    /**
     * One pass of the `while` loop of `executar`: a round of epochs and the
     * validation check with its squared error, then, when the rate improves on
     * `melhor`, the text of the network (the first half of `clonar`), then the
     * error count and squared error on the training set.  Only the validation rate
     * is kept; the other evaluations are logged, but fail on a sample the network
     * cannot take.
     */
    method Passo(exp: ExpFn, codec: DoubleCodec, rodadas: nat, melhor: Option<real>)
      returns (r: Result<(), Excecao>, atual: Option<real>, texto: string)
      requires Valid() && Faithful(codec)
      modifies rede`params, rede.camadaEscondida`vies, rede.camadaEscondida`peso, rede.camadaEscondida`fAtivacao
      modifies rede.camadaSaida`vies, rede.camadaSaida`peso, rede.camadaSaida`fAtivacao, rede.camadaSaida`tk
      ensures Valid()
      ensures r.Err? ==> r.error == IndexOutOfBounds
      ensures r.Ok? ==> AcceptsAll(old(rede.params), treinamento) && AcceptsAll(old(rede.params), validacao)
      ensures r.Ok? ==> rede.params == Epochs(exp, old(rede.params), treinamento, aprendizado, rodadas)
      ensures r.Ok? ==> atual == ErrorRate(exp, rede.params, validacao)
      ensures r.Ok? && Melhora(atual, melhor) ==> Guarda(codec, texto, rede.params)
    {
      atual, texto := None, "";
      var rodada := Rodada(rodadas, exp);
      if rodada.Err? {
        return Err(rodada.error), atual, texto;
      }
      atual := rodada.value;
      var quadValidacao := ErroQuadMed(VALIDACAO, rede, exp);
      if quadValidacao.Err? {
        assert false;
      }
      if Melhora(atual, melhor) {
        var retrato := Retrato(codec);
        if retrato.Err? {
          return Err(retrato.error), atual, texto;
        }
        texto := retrato.value;
      }
      var errosTreino := Erros(TREINAMENTO, rede, exp);
      if errosTreino.Err? {
        return Err(errosTreino.error), atual, texto;
      }
      var quadTreino := ErroQuadMed(TREINAMENTO, rede, exp);
      if quadTreino.Err? {
        assert false;
      }
      r := Ok(());
    }

    /**
     * One pass of the `while` loop of `executar` with its bookkeeping: the loop state
     * after one more checkpoint, which either improves on the best count or adds a
     * failure.
     */
    method Avanca(exp: ExpFn, codec: DoubleCodec, rodadas: nat, fracassos: int, ghost p0: NetParams,
                  ghost taxas: seq<Option<real>>, ghost pontos: seq<NetParams>, estado: Estado, ghost contagem: nat)
      returns (r: Result<(), Excecao>, ghost taxas': seq<Option<real>>, ghost pontos': seq<NetParams>,
               estado': Estado, ghost contagem': nat)
      requires Valid() && Faithful(codec)
      requires Trajetoria(exp, treinamento, validacao, aprendizado, rodadas, p0, rede.params, taxas, pontos)
      requires Controlado(codec, fracassos, |validacao|, taxas, pontos, estado, contagem)
      requires |taxas| == 0 || estado.seguidos < fracassos
      modifies rede`params, rede.camadaEscondida`vies, rede.camadaEscondida`peso, rede.camadaEscondida`fAtivacao
      modifies rede.camadaSaida`vies, rede.camadaSaida`peso, rede.camadaSaida`fAtivacao, rede.camadaSaida`tk
      ensures Valid()
      ensures r.Err? ==> r.error == IndexOutOfBounds
      ensures r.Ok? ==> Trajetoria(exp, treinamento, validacao, aprendizado, rodadas, p0, rede.params, taxas', pontos')
      ensures r.Ok? ==> Controlado(codec, fracassos, |validacao|, taxas', pontos', estado', contagem')
      ensures r.Ok? ==> |taxas'| == |taxas| + 1
      ensures r.Ok? ==> contagem' < contagem || (contagem' == contagem && estado'.seguidos == estado.seguidos + 1)
    {
      taxas', pontos', estado', contagem' := taxas, pontos, estado, contagem;
      ghost var q := rede.params;
      var passo, atual, novoTexto := Passo(exp, codec, rodadas, estado.melhor);
      if passo.Err? {
        return Err(passo.error), taxas', pontos', estado', contagem';
      }
      ghost var novo := rede.params;
      TrajetoriaPasso(exp, treinamento, validacao, aprendizado, rodadas, p0, q, taxas, pontos, novo);
      ghost var novaContagem := ErrorCount(exp, novo, validacao);
      ControlePasso(codec, fracassos, |validacao|, taxas, pontos, estado, contagem, atual, novo, novoTexto, novaContagem);
      estado' := Decide(estado, atual, novoTexto);
      contagem' := if Melhora(atual, estado.melhor) then novaContagem else contagem;
      taxas', pontos' := taxas + [atual], pontos + [novo];
      r := Ok(());
    }

    /**
     * The `while` loop of `executar`: rounds of `intervalo` epochs, each followed by a
     * validation check.  A validation error rate strictly below the best so far saves
     * the network as text and clears the failures; any other rate adds a failure; the
     * rounds stop the first time the failures reach `fracassos`.  The ghost `pontos`
     * are the parameters at each completed checkpoint and `taxas` their validation
     * rates; the first round already fails when the network cannot take every
     * training and validation sample.
     */
    method Laco(rodadas: nat, fracassos: int, exp: ExpFn, codec: DoubleCodec)
      returns (r: Result<(), Excecao>, ghost taxas: seq<Option<real>>, ghost pontos: seq<NetParams>, estado: Estado)
      requires Valid() && Faithful(codec)
      modifies rede`params, rede.camadaEscondida`vies, rede.camadaEscondida`peso, rede.camadaEscondida`fAtivacao
      modifies rede.camadaSaida`vies, rede.camadaSaida`peso, rede.camadaSaida`fAtivacao, rede.camadaSaida`tk
      ensures Valid()
      ensures Percurso(exp, treinamento, validacao, aprendizado, rodadas, old(rede.params), taxas, pontos)
      ensures r.Err? ==> r.error == IndexOutOfBounds
      ensures r.Ok? ==> AcceptsAll(old(rede.params), treinamento) && AcceptsAll(old(rede.params), validacao)
      ensures r.Ok? ==> 0 < |pontos| && Encerra(taxas, fracassos) && estado.melhor == Apos(taxas).melhor
      ensures r.Ok? && estado.melhor.Some? ==> Guarda(codec, estado.texto, pontos[Apos(taxas).indiceMelhor.value])
    {
      estado := Estado(None, 0, "");
      var haMelhora := true;
      taxas, pontos := [], [];
      ghost var p0 := rede.params;
      ghost var contagem: nat := |validacao| + 1;
      while haMelhora
        invariant Valid()
        invariant Trajetoria(exp, treinamento, validacao, aprendizado, rodadas, p0, rede.params, taxas, pontos)
        invariant Controlado(codec, fracassos, |validacao|, taxas, pontos, estado, contagem)
        invariant haMelhora <==> |taxas| == 0 || estado.seguidos < fracassos
        modifies rede`params, rede.camadaEscondida`vies, rede.camadaEscondida`peso, rede.camadaEscondida`fAtivacao
        modifies rede.camadaSaida`vies, rede.camadaSaida`peso, rede.camadaSaida`fAtivacao, rede.camadaSaida`tk
        decreases if haMelhora then 1 else 0, contagem, fracassos - estado.seguidos
      {
        var passo;
        ghost var taxas', pontos', contagem';
        passo, taxas', pontos', estado, contagem' :=
          Avanca(exp, codec, rodadas, fracassos, p0, taxas, pontos, estado, contagem);
        if passo.Err? {
          return Err(passo.error), taxas, pontos, estado;
        }
        taxas, pontos, contagem := taxas', pontos', contagem';
        haMelhora := estado.seguidos < fracassos;
      }
      r := Ok(());
    }

    /**
     * `executar` up to the confusion matrix: the loop, then the saved network read
     * back as `melhorRede` (which stays null when no checkpoint improved).
     */
    method Treina(intervalo: int, fracassos: int, exp: ExpFn, codec: DoubleCodec)
      returns (r: Result<(), Excecao>, ghost taxas: seq<Option<real>>, ghost pontos: seq<NetParams>)
      requires intervalo < MaxInt
      requires Valid() && Faithful(codec)
      modifies this`melhorRede
      modifies rede`params, rede.camadaEscondida`vies, rede.camadaEscondida`peso, rede.camadaEscondida`fAtivacao
      modifies rede.camadaSaida`vies, rede.camadaSaida`peso, rede.camadaSaida`fAtivacao, rede.camadaSaida`tk
      ensures Valid()
      ensures Percurso(exp, treinamento, validacao, aprendizado, Rodadas(intervalo), old(rede.params), taxas, pontos)
      ensures r.Err? ==> r.error == IndexOutOfBounds
      ensures r.Ok? ==> AcceptsAll(old(rede.params), treinamento) && AcceptsAll(old(rede.params), validacao)
      ensures r.Ok? ==> 0 < |pontos| && Encerra(taxas, fracassos) && (melhorRede == null <==> Apos(taxas).indiceMelhor.None?)
      ensures r.Ok? && melhorRede != null ==> fresh(melhorRede.camadaEscondida) && fresh(melhorRede.camadaSaida)
      ensures r.Ok? && melhorRede != null ==> melhorRede.Valid() && melhorRede.params == pontos[Apos(taxas).indiceMelhor.value]
      ensures r.Ok? && melhorRede != null ==> ShapeOf(melhorRede.params) == ShapeOf(old(rede.params))
    {
      melhorRede := null;
      var laco, estado;
      laco, taxas, pontos, estado := Laco(Rodadas(intervalo), fracassos, exp, codec);
      if laco.Err? {
        return Err(laco.error), taxas, pontos;
      }
      if estado.melhor.Some? {
        Restaura(codec, estado.texto, pontos[Apos(taxas).indiceMelhor.value]);
      }
      r := Ok(());
    }

    /**
     * The end of `executar` on the kept network `mlp`: its error count and squared
     * error on the test set, which are only logged, then its confusion matrix.  The
     * first two fail exactly on a test sample `mlp` cannot take, before any matrix
     * is built.
     */
    method Testa(mlp: Rede, exp: ExpFn) returns (r: Result<array2<int>, Excecao>)
      requires mlp.Valid()
      modifies mlp.camadaEscondida`fAtivacao, mlp.camadaSaida`fAtivacao
      ensures mlp.Valid() && mlp.params == old(mlp.params)
      ensures r.Err? <==> !(AcceptsAll(mlp.params, teste) && FitsMatrix(exp, mlp.params, teste, 10))
      ensures r.Err? ==> r.error == IndexOutOfBounds
      ensures r.Ok? ==> AcceptsAll(mlp.params, teste) && fresh(r.value) && Tabula(r.value, Outcomes(exp, mlp.params, teste))
    {
      var errosTeste := Erros(TESTE, mlp, exp);
      if errosTeste.Err? {
        return Err(errosTeste.error);
      }
      var quadTeste := ErroQuadMed(TESTE, mlp, exp);
      if quadTeste.Err? {
        assert false;
      }
      r := MatrizConfusao(mlp, exp);
    }

    /**
     * `executar`: the training loop, then the error count and squared error of the
     * kept network on the test set (logged, not kept), then its confusion matrix on
     * the test set; the kept network is returned.  When no checkpoint improved (an
     * empty validation set) there is no kept network and the source fails with a
     * NullPointerException.
     */
    method Executar(intervalo: int, fracassos: int, exp: ExpFn, codec: DoubleCodec)
      returns (r: Result<Rede, Excecao>, ghost taxas: seq<Option<real>>, ghost pontos: seq<NetParams>)
      requires intervalo < MaxInt
      requires Valid() && Faithful(codec)
      modifies this`melhorRede
      modifies rede`params, rede.camadaEscondida`vies, rede.camadaEscondida`peso, rede.camadaEscondida`fAtivacao
      modifies rede.camadaSaida`vies, rede.camadaSaida`peso, rede.camadaSaida`fAtivacao, rede.camadaSaida`tk
      ensures Valid()
      ensures Percurso(exp, treinamento, validacao, aprendizado, Rodadas(intervalo), old(rede.params), taxas, pontos)
      ensures r.Ok? ==> AcceptsAll(old(rede.params), treinamento) && AcceptsAll(old(rede.params), validacao) &&
                        AcceptsAll(old(rede.params), teste)
      ensures r.Ok? ==> 0 < |pontos| && Encerra(taxas, fracassos) && Apos(taxas).indiceMelhor.Some? && r.value == melhorRede
      ensures r.Ok? ==> r.value.Valid() && r.value.params == pontos[Apos(taxas).indiceMelhor.value]
      ensures r.Ok? ==> AcceptsAll(r.value.params, teste) && FitsMatrix(exp, r.value.params, teste, 10)
      ensures r.Err? ==> r.error == IndexOutOfBounds ||
                         (r.error == NullPointer && Encerra(taxas, fracassos) && Apos(taxas).indiceMelhor.None?)
    {
      ghost var p0 := rede.params;
      var treino;
      treino, taxas, pontos := Treina(intervalo, fracassos, exp, codec);
      if treino.Err? {
        return Err(treino.error), taxas, pontos;
      }
      var melhor := melhorRede;
      if melhor == null {
        return Err(NullPointer), taxas, pontos;
      }
      var matriz := Testa(melhor, exp);
      if matriz.Err? {
        return Err(matriz.error), taxas, pontos;
      }
      SameShapeAccepts(melhor.params, p0, teste);
      r := Ok(melhor);
    }
  }
}
