/**
 * The training rules of the LVQ prototype (LVQ/src/LVQ.java and
 * LVQ/src/Treinamento.java): the network object with its learning-rate decay and
 * its endless learning loop, the two stop conditions that loop never consults,
 * and one epoch of the attraction/repulsion update.
 *
 * As written, the update never completes.  `Treinamento.operacaoVetores` is never
 * assigned, so an epoch over a non-empty input throws a NullPointerException on
 * its first row.  Even with the helper object present, the element-wise helpers
 * throw on their last write (see `LvqVetores`).  The update built on the
 * corrected helpers is modelled beside the one as written.
 */
module Lvq {
  import opened Wrappers
  import opened Excecoes
  import opened Ativacao
  import opened LvqVetores

  /** The value of a Java `int` counter started at 0 after `n` increments, wrapping past 2^31 - 1. */
  function Contador(n: nat): (c: int)
    ensures -0x8000_0000 <= c < 0x8000_0000
    ensures n < 0x8000_0000 ==> c == n
  {
    (n + 0x8000_0000) % 0x1_0000_0000 - 0x8000_0000
  }

  /**
   * `x++` on a Java `int`: the largest value wraps to the smallest.  On every `int` it
   * is addition of one modulo 2^32, read back as a two's-complement value.
   */
  function Incrementa(x: int): (y: int)
    ensures -0x8000_0000 <= x <= 0x7fff_ffff ==> -0x8000_0000 <= y <= 0x7fff_ffff
    ensures -0x8000_0000 <= x <= 0x7fff_ffff ==> y == (x + 1 + 0x8000_0000) % 0x1_0000_0000 - 0x8000_0000
  {
    if x == 0x7fff_ffff then -0x8000_0000 else x + 1
  }

  /** One more increment of the counter. */
  lemma ContadorPasso(n: nat)
    ensures Incrementa(Contador(n)) == Contador(n + 1)
  {
    var q, m := (n + 0x8000_0000) / 0x1_0000_0000, (n + 0x8000_0000) % 0x1_0000_0000;
    assert n + 0x8000_0000 == q * 0x1_0000_0000 + m;
    if m == 0xffff_ffff {
      assert n + 1 + 0x8000_0000 == (q + 1) * 0x1_0000_0000;
    } else {
      assert n + 1 + 0x8000_0000 == q * 0x1_0000_0000 + (m + 1);
    }
  }

  /** The learning rate after `n` reductions by `reducao` from `taxa`. */
  function TaxaApos(taxa: real, reducao: real, n: nat): real
  {
    taxa - (n as real) * reducao
  }

  /** `CondicaoParada.NumeroFixo`: true once the iteration count exceeds `numeroFixo`. */
  predicate NumeroFixo(numeroInteracoes: int, numeroFixo: int): (para: bool)
    ensures para <==> numeroFixo + 1 <= numeroInteracoes
    ensures -0x8000_0000 <= numeroFixo && numeroInteracoes == -0x8000_0000 ==> !para
  {
    numeroFixo < numeroInteracoes
  }

  /**
   * `CondicaoParada.ValorMinimo` as written: documented as true when learning
   * should stop, it is true while the learning rate is still above `valorMinimo`.
   */
  predicate ValorMinimo(taxaDeAprendizado: real, valorMinimo: real): (para: bool)
    ensures para <==> ValorMinimoCorrigido(valorMinimo, taxaDeAprendizado)
    ensures para ==> !ValorMinimoCorrigido(taxaDeAprendizado, valorMinimo)
  {
    valorMinimo < taxaDeAprendizado
  }

  /** The stop test `ValorMinimo` evidently means: the learning rate has fallen below `valorMinimo`. */
  predicate ValorMinimoCorrigido(taxaDeAprendizado: real, valorMinimo: real): (para: bool)
    ensures para <==> 0.0 < valorMinimo - taxaDeAprendizado
    ensures para ==> taxaDeAprendizado != valorMinimo
  {
    taxaDeAprendizado < valorMinimo
  }

  /** Before the counter wraps, `NumeroFixo` holds after n rounds exactly when n exceeds the limit. */
  lemma NumeroFixoAposRodadas(n: nat, numeroFixo: int)
    requires n < 0x8000_0000
    ensures NumeroFixo(Contador(n), numeroFixo) <==> numeroFixo < n
  {
  }

  /** After 2^31 rounds the counter has wrapped to its lowest value, where `NumeroFixo` fails for any `int` limit. */
  lemma NumeroFixoAposVolta(numeroFixo: int)
    requires -0x8000_0000 <= numeroFixo
    ensures Contador(0x8000_0000) == -0x8000_0000
    ensures !NumeroFixo(Contador(0x8000_0000), numeroFixo)
  {
  }

  /**
   * `ValorMinimo` holds after n reductions exactly while they add up to less than
   * the gap between the starting rate and the minimum: it answers "keep going",
   * not "stop".
   */
  lemma ValorMinimoAposRodadas(taxa: real, reducao: real, valorMinimo: real, n: nat)
    ensures ValorMinimo(TaxaApos(taxa, reducao, n), valorMinimo) <==> (n as real) * reducao < taxa - valorMinimo
  {
  }

  /** As written, a run starting above the minimum is told to stop before its first epoch. */
  lemma ValorMinimoParaNoInicio()
    ensures ValorMinimo(TaxaApos(0.5, 0.1, 0), 0.0)
    ensures !ValorMinimoCorrigido(TaxaApos(0.5, 0.1, 0), 0.0)
  {
  }

  /** The corrected test holds after n reductions exactly once they exceed the gap to the minimum. */
  lemma ValorMinimoCorrigidoAposRodadas(taxa: real, reducao: real, valorMinimo: real, n: nat)
    ensures ValorMinimoCorrigido(TaxaApos(taxa, reducao, n), valorMinimo) <==> taxa - valorMinimo < (n as real) * reducao
  {
  }

  /** With a positive reduction, the corrected test stops the learning after finitely many rounds. */
  lemma ValorMinimoCorrigidoAlcanca(taxa: real, reducao: real, valorMinimo: real)
    requires 0.0 < reducao
    ensures exists n: nat :: ValorMinimoCorrigido(TaxaApos(taxa, reducao, n), valorMinimo)
  {
    var gap := taxa - valorMinimo;
    if gap < 0.0 {
      assert ValorMinimoCorrigido(TaxaApos(taxa, reducao, 0), valorMinimo);
    } else {
      var n: nat := (gap / reducao).Floor + 1;
      assert gap / reducao < n as real;
      assert gap < (n as real) * reducao;
      assert ValorMinimoCorrigido(TaxaApos(taxa, reducao, n), valorMinimo);
    }
  }

  /** With a non-negative reduction, once the corrected test says stop it keeps saying so. */
  lemma ValorMinimoCorrigidoPersiste(taxa: real, reducao: real, valorMinimo: real, n: nat, m: nat)
    requires 0.0 <= reducao && n <= m
    requires ValorMinimoCorrigido(TaxaApos(taxa, reducao, n), valorMinimo)
    ensures ValorMinimoCorrigido(TaxaApos(taxa, reducao, m), valorMinimo)
  {
    assert (m as real) * reducao == (n as real) * reducao + ((m - n) as real) * reducao;
    assert 0.0 <= ((m - n) as real) * reducao;
  }

  /**
   * The weight vector the update gives the unit `wj` for the input row `x` at rate
   * `taxa`: each entry moves towards `x` by `taxa` times the difference when the
   * classes (the last entries) agree, and away from it otherwise.
   */
  function Ajuste(wj: seq<real>, x: seq<real>, taxa: real): (novo: seq<real>)
    requires 0 < |wj| == |x|
    ensures |novo| == |wj|
  {
    seq(|wj|, k requires 0 <= k < |wj| => Desloca(wj[k], x[k], taxa, wj[|wj| - 1] == x[|x| - 1]))
  }

  /** One weight `w` moved towards the input entry `xk` (`atrai`) or away from it, by `taxa` times their difference. */
  function Desloca(w: real, xk: real, taxa: real, atrai: bool): real
  {
    if atrai then w + (xk - w) * taxa else w - (xk - w) * taxa
  }

  /** The factor `Desloca` scales the difference to the input entry by: `1 - taxa` towards it, `1 + taxa` away. */
  function Fator(taxa: real, atrai: bool): real
  {
    if atrai then 1.0 - taxa else 1.0 + taxa
  }

  lemma DeslocaFator(xk: real, w: real, taxa: real, atrai: bool)
    ensures xk - Desloca(w, xk, taxa, atrai) == Fator(taxa, atrai) * (xk - w)
  {
  }

  lemma QuadradoProduto(a: real, b: real)
    ensures Square(a * b) == Square(a) * Square(b)
  {
    assert Square(a * b) == (a * b) * (a * b);
    assert Square(a) * Square(b) == (a * a) * (b * b);
  }

  /** Every difference from `x` to `b` is `c` times the difference from `x` to `a`. */
  ghost predicate Proporcionais(x: seq<real>, a: seq<real>, b: seq<real>, c: real)
  {
    |x| <= |a| && |x| <= |b| && forall k :: 0 <= k < |x| ==> x[k] - b[k] == c * (x[k] - a[k])
  }

  /** When every difference to `x` is scaled by `c`, the sum of squares is scaled by c^2. */
  lemma {:induction false} SomaQuadradosEscala(x: seq<real>, a: seq<real>, b: seq<real>, c: real)
    requires Proporcionais(x, a, b, c)
    ensures SomaQuadrados(x, b) == Square(c) * SomaQuadrados(x, a)
  {
    if |x| > 0 {
      var n := |x| - 1;
      SomaQuadradosEscala(x[..n], a, b, c);
      QuadradoProduto(c, x[n] - a[n]);
    }
  }

  /** The update scales each difference to the input by the factor of its direction. */
  lemma AjusteProporcional(wj: seq<real>, x: seq<real>, taxa: real)
    requires 0 < |wj| == |x|
    ensures Proporcionais(x, wj, Ajuste(wj, x, taxa), Fator(taxa, wj[|wj| - 1] == x[|x| - 1]))
  {
    var novo, atrai := Ajuste(wj, x, taxa), wj[|wj| - 1] == x[|x| - 1];
    forall k | 0 <= k < |x|
      ensures x[k] - novo[k] == Fator(taxa, atrai) * (x[k] - wj[k])
    {
      DeslocaFator(x[k], wj[k], taxa, atrai);
    }
  }

  /**
   * The update moves a unit towards the input (a factor `1 - taxa`) when their
   * classes agree and away from it (`1 + taxa`) otherwise: its squared distance to
   * the input is scaled by the square of that factor.
   */
  lemma AjusteDistancia(wj: seq<real>, x: seq<real>, taxa: real)
    requires 0 < |wj| == |x|
    ensures SomaQuadrados(x, Ajuste(wj, x, taxa)) == Square(Fator(taxa, wj[|wj| - 1] == x[|x| - 1])) * SomaQuadrados(x, wj)
  {
    AjusteProporcional(wj, x, taxa);
    SomaQuadradosEscala(x, wj, Ajuste(wj, x, taxa), Fator(taxa, wj[|wj| - 1] == x[|x| - 1]));
  }

  /**
   * The update keeps the unit's class entry exactly when the classes agree or the
   * rate is 0: attraction keeps the class, repulsion at a non-zero rate changes it.
   */
  lemma AjusteClasse(wj: seq<real>, x: seq<real>, taxa: real)
    requires 0 < |wj| == |x|
    ensures Ajuste(wj, x, taxa)[|wj| - 1] == wj[|wj| - 1] <==> wj[|wj| - 1] == x[|x| - 1] || taxa == 0.0
  {
    var n := |wj| - 1;
    assert Ajuste(wj, x, taxa)[n] == Desloca(wj[n], x[n], taxa, wj[n] == x[n]);
    if wj[n] != x[n] && taxa != 0.0 {
      assert (x[n] - wj[n]) * taxa != 0.0;
    }
  }

  /** The network (`LVQ`): output units, input rows, counters and the learning-rate schedule. */
  class LVQ {
    var unidadesDeSaida: seq<UnidadeDeSaida>
    var dadosEntrada: seq<seq<real>>
    var numeroIteracoes: int
    var numeroFixo: int
    var taxaDeAprendizado: real
    var reducaoAprendizado: real
    var valorMinimo: real

    /** `AtualizaAprendizado`: lowers the learning rate by `reducaoAprendizado`, and nothing else. */
    method AtualizaAprendizado()
      modifies this`taxaDeAprendizado
      ensures taxaDeAprendizado == old(taxaDeAprendizado) - reducaoAprendizado
    {
      taxaDeAprendizado := taxaDeAprendizado - reducaoAprendizado;
    }

    /**
     * `Aprendizado`, over the first `rodadas` rounds of its endless loop: it resets
     * the counter, then each round runs an epoch on a new `Treinamento`, lowers the
     * learning rate once and increments the counter.  A new `Treinamento` has no
     * helper object, so with any input row the first epoch throws.
     */
    method Aprendizado(sqrt: SqrtFn, rodadas: nat) returns (r: Result<(), Excecao>)
      modifies this`numeroIteracoes, this`taxaDeAprendizado, this`unidadesDeSaida
      ensures unidadesDeSaida == old(unidadesDeSaida)
      ensures r.Err? <==> 0 < rodadas && 0 < |dadosEntrada|
      ensures r.Err? ==> r.error == NullPointer && numeroIteracoes == 0 && taxaDeAprendizado == old(taxaDeAprendizado)
      ensures r.Ok? ==> numeroIteracoes == Contador(rodadas)
      ensures r.Ok? ==> taxaDeAprendizado == TaxaApos(old(taxaDeAprendizado), reducaoAprendizado, rodadas)
    {
      numeroIteracoes := 0;
      var feitas := 0;
      while feitas < rodadas
        invariant feitas <= rodadas
        invariant 0 < feitas ==> |dadosEntrada| == 0
        invariant numeroIteracoes == Contador(feitas)
        invariant taxaDeAprendizado == TaxaApos(old(taxaDeAprendizado), reducaoAprendizado, feitas)
        invariant unidadesDeSaida == old(unidadesDeSaida)
      {
        var treina := new Treinamento(this);
        var epoca := treina.Epoca(sqrt);
        if epoca.Err? {
          return epoca;
        }
        unidadesDeSaida := treina.lvq.unidadesDeSaida;
        AtualizaAprendizado();
        numeroIteracoes := Incrementa(numeroIteracoes);
        ContadorPasso(feitas);
        assert TaxaApos(old(taxaDeAprendizado), reducaoAprendizado, feitas + 1)
            == TaxaApos(old(taxaDeAprendizado), reducaoAprendizado, feitas) - reducaoAprendizado;
        feitas := feitas + 1;
      }
      return Ok(());
    }
  }

  /** One training pass (`Treinamento`) over the network `lvq`. */
  class Treinamento {
    const lvq: LVQ
    var operacaoVetores: OperacaoVetores?

    /** The constructor stores the network; `operacaoVetores` is never assigned and stays null. */
    constructor (lvq: LVQ)
      ensures this.lvq == lvq && operacaoVetores == null
    {
      this.lvq := lvq;
      operacaoVetores := null;
    }

    /**
     * `Epoca`: for each input row, find a unit with `menorDistancia` and update it.
     * The first row already ends in an exception: a NullPointerException without
     * the helper object, an index exception with it.  No weight changes.
     */
    method Epoca(sqrt: SqrtFn) returns (r: Result<(), Excecao>)
      ensures r.Ok? <==> |lvq.dadosEntrada| == 0
      ensures r.Err? ==> r.error == if operacaoVetores == null then NullPointer else IndexOutOfBounds
    {
      for i := 0 to |lvq.dadosEntrada| {
        if operacaoVetores == null {
          return Err(NullPointer);
        }
        var indiceWJ := operacaoVetores.MenorDistancia(sqrt, lvq.dadosEntrada[i], lvq.unidadesDeSaida);
        if indiceWJ.Err? {
          return Err(indiceWJ.error);
        }
        if indiceWJ.value < 0 || |lvq.unidadesDeSaida| <= indiceWJ.value {
          return Err(IndexOutOfBounds);
        }
        var wj := lvq.unidadesDeSaida[indiceWJ.value].vetorPesos;
        var falha := AtualizacaoPesos(wj, i, indiceWJ.value);
        return Err(falha);
      }
      return Ok(());
    }

    /**
     * `AtualizacaoPesos` as written, which never returns normally: reading the
     * classes fails on an empty vector or a missing row; without the helper object
     * the first helper call is a NullPointerException; and with it, both branches
     * start with `operacaoSimples` on a non-empty row, which always throws.
     */
    method AtualizacaoPesos(wj: seq<real>, i: int, indiceWJ: int) returns (falha: Excecao)
      ensures falha == if 0 < |wj| && 0 <= i < |lvq.dadosEntrada| && 0 < |lvq.dadosEntrada[i]| && operacaoVetores == null
                       then NullPointer else IndexOutOfBounds
    {
      if |wj| == 0 || !(0 <= i < |lvq.dadosEntrada|) || |lvq.dadosEntrada[i]| == 0 {
        return IndexOutOfBounds;
      }
      var entrada := lvq.dadosEntrada[i];
      if operacaoVetores == null {
        return NullPointer;
      }
      if wj[|wj| - 1] == entrada[|entrada| - 1] {
        var aux := operacaoVetores.OperacaoSimples(entrada, wj, 1);
        return aux.error;
      } else {
        var aux := operacaoVetores.OperacaoSimples(entrada, wj, 1);
        return aux.error;
      }
    }

    /**
     * `AtualizacaoPesos` on the corrected helpers: the difference from the unit to
     * the row, scaled by the learning rate, is added to the unit when the classes
     * agree and subtracted otherwise, and the result replaces the weight vector of
     * unit `indiceWJ` and of no other unit.
     */
    method AtualizacaoPesosCorrigida(wj: seq<real>, i: int, indiceWJ: int) returns (r: Result<(), Excecao>)
      modifies if 0 <= indiceWJ < |lvq.unidadesDeSaida| then {lvq.unidadesDeSaida[indiceWJ]} else {}
      ensures r.Ok? <==> 0 < |wj| && 0 <= i < |lvq.dadosEntrada| && |lvq.dadosEntrada[i]| == |wj| &&
                         operacaoVetores != null && 0 <= indiceWJ < |lvq.unidadesDeSaida|
      ensures r.Err? ==> r.error == if 0 < |wj| && 0 <= i < |lvq.dadosEntrada| && 0 < |lvq.dadosEntrada[i]| && operacaoVetores == null
                                    then NullPointer else IndexOutOfBounds
      ensures r.Ok? ==> lvq.unidadesDeSaida[indiceWJ].vetorPesos == Ajuste(wj, lvq.dadosEntrada[i], lvq.taxaDeAprendizado)
      ensures r.Err? ==> forall u :: u in lvq.unidadesDeSaida ==> u.vetorPesos == old(u.vetorPesos)
    {
      if |wj| == 0 || !(0 <= i < |lvq.dadosEntrada|) || |lvq.dadosEntrada[i]| == 0 {
        return Err(IndexOutOfBounds);
      }
      var entrada := lvq.dadosEntrada[i];
      if operacaoVetores == null {
        return Err(NullPointer);
      }
      var novo: Result<seq<real>, Excecao>;
      var aux := operacaoVetores.OperacaoSimplesCorrigida(entrada, wj, 1);
      if aux.Err? {
        return Err(aux.error);
      }
      var escalado := operacaoVetores.MultiplicacaoCorrigida(aux.value, lvq.taxaDeAprendizado);
      if wj[|wj| - 1] == entrada[|entrada| - 1] {
        novo := operacaoVetores.OperacaoSimplesCorrigida(wj, escalado, 0);
      } else {
        novo := operacaoVetores.OperacaoSimplesCorrigida(wj, escalado, 1);
      }
      if novo.Err? {
        return Err(novo.error);
      }
      if !(0 <= indiceWJ < |lvq.unidadesDeSaida|) {
        return Err(IndexOutOfBounds);
      }
      forall k | 0 <= k < |wj|
        ensures novo.value[k] == Desloca(wj[k], entrada[k], lvq.taxaDeAprendizado, wj[|wj| - 1] == entrada[|entrada| - 1])
      {
        assert escalado[k] == (entrada[k] - wj[k]) * lvq.taxaDeAprendizado;
      }
      assert novo.value == Ajuste(wj, entrada, lvq.taxaDeAprendizado);
      lvq.unidadesDeSaida[indiceWJ].vetorPesos := novo.value;
      r := Ok(());
    }
  }
}
