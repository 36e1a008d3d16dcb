/**
 * The vector helpers of the LVQ prototype: the class `OperacaoVetores` nested in
 * LVQ/src/Treinamento.java:55-116.  Each helper reads its arguments and builds a
 * fresh array or accumulates a local; none changes its inputs, so vectors are
 * values here.  `Math.sqrt` is not computed but passed in as a function known only
 * to map 0 to 0 and to be non-negative and strictly increasing on non-negative
 * numbers; `Math.pow(d, 2)` is `Square(d)`.
 *
 * Two of the helpers allocate their result one slot too short and therefore never
 * return normally on a non-empty input; they are modelled as written, next to the
 * corrected versions the training update uses.  The nearest-unit scan compares
 * neighbours only; it is modelled as written next to a true nearest-unit search.
 */
module LvqVetores {
  import opened Wrappers
  import opened Excecoes
  import opened Ativacao

  /** `Math.sqrt` as far as the model relies on it: 0 at 0 and non-negative on non-negative numbers. */
  type SqrtFn = f: real -> real | f(0.0) == 0.0 && forall x {:trigger f(x)} :: 0.0 <= x ==> 0.0 <= f(x)
    witness Identidade

  /** The identity, which has every property `SqrtFn` asks for and is increasing. */
  function Identidade(x: real): real { x }

  /** The square root is strictly increasing on non-negative numbers; only comparisons of distances need it. */
  ghost predicate Crescente(sqrt: SqrtFn)
  {
    forall x, y {:trigger sqrt(x), sqrt(y)} :: 0.0 <= x < y ==> sqrt(x) < sqrt(y)
  }

  /** An output unit (`UnidadeDeSaida`), seen only through its weight vector, whose last entry is its class. */
  class UnidadeDeSaida {
    var vetorPesos: seq<real>
  }

  /** The weight vectors of `unidades`, in order. */
  function Pesos(unidades: seq<UnidadeDeSaida>): (ps: seq<seq<real>>)
    reads unidades
    ensures |ps| == |unidades|
    ensures forall k :: 0 <= k < |unidades| ==> ps[k] == unidades[k].vetorPesos
  {
    if |unidades| == 0 then [] else Pesos(unidades[..|unidades| - 1]) + [unidades[|unidades| - 1].vetorPesos]
  }

  /** The sum of the squared differences over the first |v| entries, accumulated left to right. */
  function SomaQuadrados(v: seq<real>, a: seq<real>): real
    requires |v| <= |a|
  {
    if |v| == 0 then 0.0 else SomaQuadrados(v[..|v| - 1], a) + Square(v[|v| - 1] - a[|v| - 1])
  }

  lemma {:induction false} SomaQuadradosNaoNegativa(v: seq<real>, a: seq<real>)
    requires |v| <= |a|
    ensures 0.0 <= SomaQuadrados(v, a)
  {
    if |v| > 0 {
      SomaQuadradosNaoNegativa(v[..|v| - 1], a);
      SquareFacts(v[|v| - 1] - a[|v| - 1]);
    }
  }

  /** Vectors that agree over the first |v| entries have a zero sum of squares. */
  lemma {:induction false} SomaQuadradosIguais(v: seq<real>, a: seq<real>)
    requires |v| <= |a|
    requires forall k :: 0 <= k < |v| ==> v[k] == a[k]
    ensures SomaQuadrados(v, a) == 0.0
  {
    if |v| > 0 {
      SomaQuadradosIguais(v[..|v| - 1], a);
      SquareFacts(v[|v| - 1] - a[|v| - 1]);
    }
  }

  /**
   * `distanciaEuclidiana(vetor, arranjo)`: the square root of the sum of squared
   * differences over the entries of `vetor`; reading past the end of a shorter
   * `arranjo` throws.
   */
  function Distancia(sqrt: SqrtFn, vetor: seq<real>, arranjo: seq<real>): (r: Result<real, Excecao>)
    ensures r.Ok? <==> |vetor| <= |arranjo|
    ensures r.Err? ==> r.error == IndexOutOfBounds
    ensures r.Ok? ==> 0.0 <= r.value
    ensures r.Ok? && (forall k :: 0 <= k < |vetor| ==> vetor[k] == arranjo[k]) ==> r.value == 0.0
  {
    if |arranjo| < |vetor| then Err(IndexOutOfBounds)
    else
      SomaQuadradosNaoNegativa(vetor, arranjo);
      if forall k :: 0 <= k < |vetor| ==> vetor[k] == arranjo[k] then SomaQuadradosIguais(vetor, arranjo); Ok(sqrt(SomaQuadrados(vetor, arranjo)))
      else Ok(sqrt(SomaQuadrados(vetor, arranjo)))
  }

  /** Distances compare as their sums of squares do, since the square root is increasing. */
  lemma DistanciaCompara(sqrt: SqrtFn, x: seq<real>, a: seq<real>, b: seq<real>)
    requires Crescente(sqrt)
    requires |x| <= |a| && |x| <= |b|
    ensures Distancia(sqrt, x, a).value < Distancia(sqrt, x, b).value <==> SomaQuadrados(x, a) < SomaQuadrados(x, b)
  {
    SomaQuadradosNaoNegativa(x, a);
    SomaQuadradosNaoNegativa(x, b);
    var sa, sb := SomaQuadrados(x, a), SomaQuadrados(x, b);
    if sb < sa {
      assert sqrt(sb) < sqrt(sa);
    }
  }

  /** Every unit vector has an entry for each entry of `x`, so each distance is defined. */
  predicate Alcancam(x: seq<real>, ps: seq<seq<real>>)
  {
    forall k :: 0 <= k < |ps| ==> |x| <= |ps[k]|
  }

  /** The distance from `x` to each vector of `ps`, in order. */
  function Distancias(sqrt: SqrtFn, x: seq<real>, ps: seq<seq<real>>): (ds: seq<real>)
    requires Alcancam(x, ps)
    ensures |ds| == |ps|
  {
    if |ps| == 0 then []
    else Distancias(sqrt, x, ps[..|ps| - 1]) + [sqrt(SomaQuadrados(x, ps[|ps| - 1]))]
  }

  /** Entry k of the distances is the distance to vector k. */
  lemma {:induction false} DistanciaEm(sqrt: SqrtFn, x: seq<real>, ps: seq<seq<real>>, k: nat)
    requires Alcancam(x, ps) && k < |ps|
    ensures Distancias(sqrt, x, ps)[k] == Distancia(sqrt, x, ps[k]).value
  {
    if k < |ps| - 1 {
      var init := ps[..|ps| - 1];
      assert Alcancam(x, init);
      DistanciaEm(sqrt, x, init, k);
    }
  }

  /** i + 1 for the last i whose entry exceeds the next one, or 0 when there is no such i. */
  function UltimaDescida(ds: seq<real>): (r: nat)
    ensures |ds| < 2 ==> r == 0
    ensures 0 < |ds| ==> r < |ds|
  {
    if |ds| < 2 then 0
    else if ds[|ds| - 2] > ds[|ds| - 1] then |ds| - 1
    else UltimaDescida(ds[..|ds| - 1])
  }

  /**
   * `UltimaDescida` is 0 exactly when no entry exceeds the next one, and otherwise
   * marks a descent after which the entries never go down again.
   */
  lemma {:induction false} UltimaDescidaCaracteriza(ds: seq<real>)
    ensures UltimaDescida(ds) == 0 <==> forall i :: 0 <= i < |ds| - 1 ==> ds[i] <= ds[i + 1]
    ensures UltimaDescida(ds) > 0 ==>
      ds[UltimaDescida(ds) - 1] > ds[UltimaDescida(ds)] &&
      forall i :: UltimaDescida(ds) <= i < |ds| - 1 ==> ds[i] <= ds[i + 1]
  {
    if |ds| >= 2 && ds[|ds| - 2] <= ds[|ds| - 1] {
      var init := ds[..|ds| - 1];
      UltimaDescidaCaracteriza(init);
      assert forall i :: 0 <= i < |init| ==> init[i] == ds[i];
    }
  }

  /**
   * What `menorDistancia(x, unidades)` returns for units with weight vectors `ps`:
   * 0 below two units; otherwise an exception when some distance is undefined,
   * and else the last neighbour that is closer than the unit before it.
   */
  function MenorDistanciaSpec(sqrt: SqrtFn, x: seq<real>, ps: seq<seq<real>>): (r: Result<int, Excecao>)
    ensures 0 < |ps| && r.Ok? ==> 0 <= r.value < |ps|
    ensures r.Err? <==> 2 <= |ps| && !Alcancam(x, ps)
  {
    if |ps| < 2 then Ok(0)
    else if !Alcancam(x, ps) then Err(IndexOutOfBounds)
    else Ok(UltimaDescida(Distancias(sqrt, x, ps)))
  }

  /** The first index holding the smallest entry (0 for an empty sequence). */
  function PrimeiroMenor(ds: seq<real>): (r: nat)
    ensures 0 < |ds| ==> r < |ds|
    ensures |ds| == 0 ==> r == 0
  {
    if |ds| <= 1 then 0
    else
      var m := PrimeiroMenor(ds[..|ds| - 1]);
      if ds[|ds| - 1] < ds[m] then |ds| - 1 else m
  }

  /** `PrimeiroMenor` holds the smallest entry, and every entry before it is strictly larger. */
  lemma {:induction false} PrimeiroMenorEhMinimo(ds: seq<real>)
    requires 0 < |ds|
    ensures forall j :: 0 <= j < |ds| ==> ds[PrimeiroMenor(ds)] <= ds[j]
    ensures forall j :: 0 <= j < PrimeiroMenor(ds) ==> ds[PrimeiroMenor(ds)] < ds[j]
  {
    if |ds| > 1 {
      var init := ds[..|ds| - 1];
      PrimeiroMenorEhMinimo(init);
      assert forall j :: 0 <= j < |init| ==> init[j] == ds[j];
    }
  }

  /**
   * The nearest unit the scan is evidently meant to find: the first unit at the
   * smallest distance from `x` (0 when there are no units).
   */
  function MaisProximaSpec(sqrt: SqrtFn, x: seq<real>, ps: seq<seq<real>>): (r: Result<int, Excecao>)
    ensures r.Err? <==> 0 < |ps| && !Alcancam(x, ps)
    ensures 0 < |ps| && r.Ok? ==> 0 <= r.value < |ps|
  {
    if |ps| == 0 then Ok(0)
    else if !Alcancam(x, ps) then Err(IndexOutOfBounds)
    else Ok(PrimeiroMenor(Distancias(sqrt, x, ps)))
  }

  /** The corrected scan returns a nearest unit, and no unit before it is as near. */
  lemma MaisProximaEhMinima(sqrt: SqrtFn, x: seq<real>, ps: seq<seq<real>>)
    requires 0 < |ps| && Alcancam(x, ps)
    ensures var r := MaisProximaSpec(sqrt, x, ps).value;
      (forall j :: 0 <= j < |ps| ==> Distancia(sqrt, x, ps[r]).value <= Distancia(sqrt, x, ps[j]).value) &&
      (forall j :: 0 <= j < r ==> Distancia(sqrt, x, ps[r]).value < Distancia(sqrt, x, ps[j]).value)
  {
    var r := MaisProximaSpec(sqrt, x, ps).value;
    PrimeiroMenorEhMinimo(Distancias(sqrt, x, ps));
    forall j | 0 <= j < |ps|
      ensures Distancias(sqrt, x, ps)[j] == Distancia(sqrt, x, ps[j]).value
    {
      DistanciaEm(sqrt, x, ps, j);
    }
  }

  /**
   * Comparing neighbours does not find the nearest unit: for the input 0 and units
   * at 1, 3 and 2 the scan returns unit 2, while unit 0 is strictly nearer.
   */
  lemma VizinhosNaoBastam(sqrt: SqrtFn)
    requires Crescente(sqrt)
    ensures MenorDistanciaSpec(sqrt, [0.0], [[1.0], [3.0], [2.0]]) == Ok(2)
    ensures Distancia(sqrt, [0.0], [1.0]).value < Distancia(sqrt, [0.0], [2.0]).value
    ensures MaisProximaSpec(sqrt, [0.0], [[1.0], [3.0], [2.0]]) == Ok(0)
  {
    var x, ps := [0.0], [[1.0], [3.0], [2.0]];
    assert SomaQuadrados(x, ps[0]) == 1.0 && SomaQuadrados(x, ps[1]) == 9.0 && SomaQuadrados(x, ps[2]) == 4.0;
    var ds := Distancias(sqrt, x, ps);
    DistanciaEm(sqrt, x, ps, 0);
    DistanciaEm(sqrt, x, ps, 1);
    DistanciaEm(sqrt, x, ps, 2);
    assert ds[0] == sqrt(1.0) && ds[1] == sqrt(9.0) && ds[2] == sqrt(4.0);
    assert ds[0] < ds[2] < ds[1];
    PrimeiroMenorEhMinimo(ds);
    assert ds[..2][..1] == ds[..1];
  }

  /** The element-wise result of `operacaoSimples` with code `operacao`: sum for 0, difference for 1, zero otherwise. */
  function Combina(operacao: int, x: real, y: real): real
  {
    if operacao == 0 then x + y else if operacao == 1 then x - y else 0.0
  }

  /** The helper object `Treinamento.operacaoVetores`; it has no state. */
  class OperacaoVetores {

    /** `distanciaEuclidiana`: the accumulating loop of LVQ/src/Treinamento.java:106-115. */
    method DistanciaEuclidiana(sqrt: SqrtFn, vetor: seq<real>, arranjo: seq<real>) returns (r: Result<real, Excecao>)
      ensures r == Distancia(sqrt, vetor, arranjo)
    {
      var aux := 0.0;
      var i := 0;
      while i < |vetor|
        invariant i <= |vetor| && i <= |arranjo|
        invariant aux == SomaQuadrados(vetor[..i], arranjo)
      {
        if i >= |arranjo| {
          return Err(IndexOutOfBounds);
        }
        var local := vetor[i] - arranjo[i];
        local := Square(local);
        assert vetor[..i + 1][..i] == vetor[..i];
        aux := aux + local;
        i := i + 1;
      }
      assert vetor[..i] == vetor;
      aux := sqrt(aux);
      return Ok(aux);
    }

    /**
     * `menorDistancia`: walks the pairs of neighbouring units and keeps the later
     * one of every pair whose first unit is farther from `x`.
     */
    method MenorDistancia(sqrt: SqrtFn, x: seq<real>, unidades: seq<UnidadeDeSaida>) returns (r: Result<int, Excecao>)
      ensures r == MenorDistanciaSpec(sqrt, x, Pesos(unidades))
    {
      ghost var ps := Pesos(unidades);
      var indiceMenor := 0;
      var i := 0;
      while i < |unidades| - 1
        invariant 0 <= i <= if |unidades| < 2 then 0 else |unidades| - 1
        invariant 0 < i ==> Alcancam(x, ps[..i + 1]) && indiceMenor == UltimaDescida(Distancias(sqrt, x, ps[..i + 1]))
        invariant i == 0 ==> indiceMenor == 0
      {
        var pesos := unidades[i].vetorPesos;
        var pesosProx := unidades[i + 1].vetorPesos;
        var d := DistanciaEuclidiana(sqrt, x, pesos);
        if d.Err? {
          return Err(d.error);
        }
        var dProx := DistanciaEuclidiana(sqrt, x, pesosProx);
        if dProx.Err? {
          return Err(dProx.error);
        }
        DescidaPasso(sqrt, x, ps, i, indiceMenor, d.value, dProx.value);
        if d.value > dProx.value {
          indiceMenor := i + 1;
        }
        i := i + 1;
      }
      if |unidades| >= 2 {
        assert ps[..i + 1] == ps;
      }
      return Ok(indiceMenor);
    }

    /**
     * The corrected scan: the first unit at the smallest distance from `x`, found
     * with a running minimum over all units.
     */
    method MaisProxima(sqrt: SqrtFn, x: seq<real>, unidades: seq<UnidadeDeSaida>) returns (r: Result<int, Excecao>)
      ensures r == MaisProximaSpec(sqrt, x, Pesos(unidades))
    {
      ghost var ps := Pesos(unidades);
      if |unidades| == 0 {
        return Ok(0);
      }
      var d0 := DistanciaEuclidiana(sqrt, x, unidades[0].vetorPesos);
      if d0.Err? {
        return Err(d0.error);
      }
      var indiceMenor, menor := 0, d0.value;
      var i := 1;
      DistanciasPasso(sqrt, x, ps, 0);
      while i < |unidades|
        invariant 1 <= i <= |unidades|
        invariant Minimo(sqrt, x, ps, i, indiceMenor, menor)
      {
        var d := DistanciaEuclidiana(sqrt, x, unidades[i].vetorPesos);
        if d.Err? {
          return Err(d.error);
        }
        MinimoPasso(sqrt, x, ps, i, indiceMenor, menor, d.value);
        if d.value < menor {
          indiceMenor, menor := i, d.value;
        }
        i := i + 1;
      }
      assert ps[..i] == ps;
      return Ok(indiceMenor);
    }

    /**
     * `mutiplicacaoArrayComDouble` as written: the result has one slot fewer than
     * `vetor1`, so the loop fails on its last write, and an empty `vetor1` asks
     * for an array of length -1.  It never returns normally.
     */
    method MultiplicacaoArrayComDouble(vetor1: seq<real>, numeric: real) returns (r: Result<seq<real>, Excecao>)
      ensures r == if |vetor1| == 0 then Err(NegativeArraySize) else Err(IndexOutOfBounds)
    {
      if |vetor1| - 1 < 0 {
        return Err(NegativeArraySize);
      }
      var retorno := new real[|vetor1| - 1](_ => 0.0);
      var i := 0;
      while i < |vetor1|
        invariant i <= retorno.Length
      {
        if i >= retorno.Length {
          return Err(IndexOutOfBounds);
        }
        retorno[i] := vetor1[i] * numeric;
        i := i + 1;
      }
      // The loop's last write is past the end, so `return retorno` is never reached.
      assert false;
    }

    /** The corrected product: a result as long as `vetor1`, each entry scaled by `numeric`. */
    method MultiplicacaoCorrigida(vetor1: seq<real>, numeric: real) returns (r: seq<real>)
      ensures |r| == |vetor1|
      ensures forall k :: 0 <= k < |vetor1| ==> r[k] == vetor1[k] * numeric
    {
      var retorno := new real[|vetor1|](_ => 0.0);
      for i := 0 to |vetor1|
        invariant forall k :: 0 <= k < i ==> retorno[k] == vetor1[k] * numeric
      {
        retorno[i] := vetor1[i] * numeric;
      }
      return retorno[..];
    }

    /**
     * `operacaoSimples` as written: the result has one slot fewer than `vetor1`.
     * With code 0 or 1 the loop runs over all of `vetor1`, so a non-empty `vetor1`
     * always ends in an index exception; any other code returns the untouched,
     * all-zero result; an empty `vetor1` asks for an array of length -1.
     */
    method OperacaoSimples(vetor1: seq<real>, vetor2: seq<real>, operacao: int) returns (r: Result<seq<real>, Excecao>)
      ensures |vetor1| == 0 ==> r == Err(NegativeArraySize)
      ensures 0 < |vetor1| && (operacao == 0 || operacao == 1) ==> r == Err(IndexOutOfBounds)
      ensures 0 < |vetor1| && operacao != 0 && operacao != 1 ==> r == Ok(seq(|vetor1| - 1, _ => 0.0))
    {
      if |vetor1| - 1 < 0 {
        return Err(NegativeArraySize);
      }
      var retorno := new real[|vetor1| - 1](_ => 0.0);
      if operacao == 0 || operacao == 1 {
        var i := 0;
        while i < |vetor1|
          invariant i <= retorno.Length
        {
          if i >= |vetor2| || i >= retorno.Length {
            return Err(IndexOutOfBounds);
          }
          retorno[i] := Combina(operacao, vetor1[i], vetor2[i]);
          i := i + 1;
        }
        // The loop's last write is past the end, so `return retorno` is never reached.
        assert false;
      }
      assert retorno[..] == seq(|vetor1| - 1, _ => 0.0);
      return Ok(retorno[..]);
    }

    /**
     * The corrected element-wise operation: a result as long as `vetor1`; with code
     * 0 or 1 it reads `vetor2` at every index of `vetor1`, so a shorter `vetor2`
     * still throws.
     */
    method OperacaoSimplesCorrigida(vetor1: seq<real>, vetor2: seq<real>, operacao: int) returns (r: Result<seq<real>, Excecao>)
      ensures r.Ok? <==> (operacao != 0 && operacao != 1) || |vetor1| <= |vetor2|
      ensures r.Err? ==> r.error == IndexOutOfBounds
      ensures r.Ok? ==> |r.value| == |vetor1|
      ensures r.Ok? && (operacao == 0 || operacao == 1) ==>
        forall k :: 0 <= k < |vetor1| ==> r.value[k] == Combina(operacao, vetor1[k], vetor2[k])
      ensures r.Ok? && operacao != 0 && operacao != 1 ==> forall k :: 0 <= k < |vetor1| ==> r.value[k] == 0.0
    {
      var retorno := new real[|vetor1|](_ => 0.0);
      if operacao == 0 || operacao == 1 {
        for i := 0 to |vetor1|
          invariant i <= |vetor2|
          invariant forall k :: 0 <= k < i ==> retorno[k] == Combina(operacao, vetor1[k], vetor2[k])
        {
          if i >= |vetor2| {
            return Err(IndexOutOfBounds);
          }
          retorno[i] := Combina(operacao, vetor1[i], vetor2[i]);
        }
      }
      return Ok(retorno[..]);
    }
  }

  /** One more vector in reach extends the distances by its own. */
  lemma DistanciasPasso(sqrt: SqrtFn, x: seq<real>, ps: seq<seq<real>>, n: nat)
    requires n < |ps| && Alcancam(x, ps[..n]) && |x| <= |ps[n]|
    ensures Alcancam(x, ps[..n + 1])
    ensures Distancias(sqrt, x, ps[..n + 1]) == Distancias(sqrt, x, ps[..n]) + [sqrt(SomaQuadrados(x, ps[n]))]
  {
    AlcancamPasso(x, ps, n);
    DistanciasUltima(sqrt, x, ps, n);
  }

  lemma AlcancamPasso(x: seq<real>, ps: seq<seq<real>>, n: nat)
    requires n < |ps| && Alcancam(x, ps[..n]) && |x| <= |ps[n]|
    ensures Alcancam(x, ps[..n + 1])
  {
    assert ps[..n + 1][..n] == ps[..n];
  }

  lemma DistanciasUltima(sqrt: SqrtFn, x: seq<real>, ps: seq<seq<real>>, n: nat)
    requires n < |ps| && Alcancam(x, ps[..n + 1])
    ensures Alcancam(x, ps[..n])
    ensures Distancias(sqrt, x, ps[..n + 1]) == Distancias(sqrt, x, ps[..n]) + [sqrt(SomaQuadrados(x, ps[n]))]
  {
    assert ps[..n + 1][..n] == ps[..n];
  }

  /** One more entry: it becomes the last descent when it is below the entry before it. */
  lemma UltimaDescidaPasso(ds: seq<real>, d: real)
    requires 0 < |ds|
    ensures UltimaDescida(ds + [d]) == if ds[|ds| - 1] > d then |ds| else UltimaDescida(ds)
  {
    assert (ds + [d])[..|ds|] == ds;
  }

  /** One more neighbour pair in reach keeps the scan's index the last descent so far. */
  lemma DescidaPasso(sqrt: SqrtFn, x: seq<real>, ps: seq<seq<real>>, i: nat, m: nat, d: real, dProx: real)
    requires i + 1 < |ps| && |x| <= |ps[i]| && |x| <= |ps[i + 1]|
    requires 0 < i ==> Alcancam(x, ps[..i + 1]) && m == UltimaDescida(Distancias(sqrt, x, ps[..i + 1]))
    requires i == 0 ==> m == 0
    requires d == sqrt(SomaQuadrados(x, ps[i])) && dProx == sqrt(SomaQuadrados(x, ps[i + 1]))
    ensures Alcancam(x, ps[..i + 2])
    ensures (if d > dProx then i + 1 else m) == UltimaDescida(Distancias(sqrt, x, ps[..i + 2]))
  {
    if i == 0 {
      DistanciasPasso(sqrt, x, ps, 0);
    }
    DistanciasPasso(sqrt, x, ps, i + 1);
    DistanciaEm(sqrt, x, ps[..i + 1], i);
    UltimaDescidaPasso(Distancias(sqrt, x, ps[..i + 1]), dProx);
  }

  /**
   * The running minimum of the corrected scan over the first i units: they are all
   * in reach, `m` is the first nearest of them and `menor` its distance.
   */
  ghost predicate Minimo(sqrt: SqrtFn, x: seq<real>, ps: seq<seq<real>>, i: nat, m: nat, menor: real)
  {
    i <= |ps| && Alcancam(x, ps[..i]) &&
    m == PrimeiroMenor(Distancias(sqrt, x, ps[..i])) && 0 < i && menor == Distancias(sqrt, x, ps[..i])[m]
  }

  /** One more unit in reach keeps the running minimum of the corrected scan. */
  lemma MinimoPasso(sqrt: SqrtFn, x: seq<real>, ps: seq<seq<real>>, i: nat, m: nat, menor: real, d: real)
    requires i < |ps| && Minimo(sqrt, x, ps, i, m, menor) && |x| <= |ps[i]|
    requires d == sqrt(SomaQuadrados(x, ps[i]))
    ensures Minimo(sqrt, x, ps, i + 1, if d < menor then i else m, if d < menor then d else menor)
  {
    DistanciasPasso(sqrt, x, ps, i);
    var ds := Distancias(sqrt, x, ps[..i]);
    PrimeiroMenorPasso(ds, d);
    assert (ds + [d])[m] == menor;
  }

  /** One more entry: it becomes the first minimum when it is strictly below the current one. */
  lemma PrimeiroMenorPasso(ds: seq<real>, d: real)
    requires 0 < |ds|
    ensures PrimeiroMenor(ds + [d]) == if d < ds[PrimeiroMenor(ds)] then |ds| else PrimeiroMenor(ds)
  {
    assert (ds + [d])[..|ds|] == ds;
  }
}
