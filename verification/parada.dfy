/**
 * The early-stopping rule of training (MLP/src/Rede.java:180-256) as values.  After
 * each checkpoint the validation error rate is compared with the best one so far:
 * a strictly lower rate becomes the new best (the source clones the network then)
 * and clears the count of failed checkpoints, any other rate adds one failure, and
 * training stops the first time the failures reach `fracassos`.
 */
module Parada {
  import opened Wrappers
  import opened Ativacao

  /**
   * A checkpoint's rate improves on the best so far when it is a number strictly
   * below it.  Before the first improvement the best is `Double.MAX_VALUE`, which
   * every rate in [0, 1] beats: that is `None` here.  A missing rate (the source's
   * NaN for an empty validation set) improves on nothing.
   */
  predicate Melhora(atual: Option<real>, melhor: Option<real>): (m: bool)
    ensures atual.None? ==> !m
    ensures atual.Some? && 0.0 <= atual.value <= 1.0 ==>
              (m <==> atual.value < (if melhor.Some? then melhor.value else MaxDouble))
  {
    atual.Some? && (melhor.None? || atual.value < melhor.value)
  }

  /**
   * The controller's locals: the best rate so far, the checkpoint it came from
   * (where the network was cloned) and the failed checkpoints since.
   */
  datatype Controle = Controle(melhor: Option<real>, indiceMelhor: Option<nat>, fracassosSeguidos: nat)

  /** The controller after checkpoints with rates `taxas`, in order. */
  function Apos(taxas: seq<Option<real>>): (c: Controle)
    ensures c.melhor.None? <==> c.indiceMelhor.None?
    ensures c.indiceMelhor.Some? ==> c.indiceMelhor.value < |taxas|
  {
    if |taxas| == 0 then Controle(None, None, 0)
    else
      var c := Apos(taxas[..|taxas| - 1]);
      var atual := taxas[|taxas| - 1];
      if Melhora(atual, c.melhor) then Controle(atual, Some(|taxas| - 1), 0)
      else Controle(c.melhor, c.indiceMelhor, c.fracassosSeguidos + 1)
  }

  /** One more checkpoint: an improvement becomes the best and clears the failures, anything else adds one. */
  lemma AposPasso(taxas: seq<Option<real>>, atual: Option<real>)
    ensures Melhora(atual, Apos(taxas).melhor) ==> Apos(taxas + [atual]) == Controle(atual, Some(|taxas|), 0)
    ensures !Melhora(atual, Apos(taxas).melhor) ==>
      Apos(taxas + [atual]) == Controle(Apos(taxas).melhor, Apos(taxas).indiceMelhor, Apos(taxas).fracassosSeguidos + 1)
  {
    assert (taxas + [atual])[..|taxas|] == taxas;
  }

  /** The first checkpoint after the best one (0 when none improved). */
  function Desde(c: Controle): nat
  {
    if c.indiceMelhor.Some? then c.indiceMelhor.value + 1 else 0
  }

  /** No checkpoint before the last one stopped the loop: after each, the failures stayed below `fracassos`. */
  predicate Continua(taxas: seq<Option<real>>, fracassos: int)
  {
    |taxas| <= 1 ||
    (Continua(taxas[..|taxas| - 1], fracassos) && Apos(taxas[..|taxas| - 1]).fracassosSeguidos < fracassos)
  }

  /** `Continua` checks every proper, nonempty prefix. */
  lemma {:induction false} ContinuaEmCadaPrefixo(taxas: seq<Option<real>>, fracassos: int)
    ensures Continua(taxas, fracassos) <==> forall k :: 0 < k < |taxas| ==> Apos(taxas[..k]).fracassosSeguidos < fracassos
  {
    if |taxas| > 1 {
      var n := |taxas| - 1;
      var init := taxas[..n];
      ContinuaEmCadaPrefixo(init, fracassos);
      forall k | 0 < k < n
        ensures Apos(init[..k]) == Apos(taxas[..k])
      {
        assert init[..k] == taxas[..k];
      }
    }
  }

  /**
   * The loop runs exactly the checkpoints of `taxas`: at least one, the failures
   * stay below `fracassos` after every earlier checkpoint and reach it after the last.
   */
  predicate Encerra(taxas: seq<Option<real>>, fracassos: int)
  {
    |taxas| > 0 && Continua(taxas, fracassos) && fracassos <= Apos(taxas).fracassosSeguidos
  }

  /** Checkpoint `i` holds the lowest rate, strictly below every rate before it. */
  predicate PrimeiroMinimo(taxas: seq<Option<real>>, i: int)
  {
    0 <= i < |taxas| && taxas[i].Some? &&
    (forall j :: 0 <= j < i && taxas[j].Some? ==> taxas[i].value < taxas[j].value) &&
    (forall j :: i < j < |taxas| && taxas[j].Some? ==> taxas[i].value <= taxas[j].value)
  }

  /**
   * The network kept is the one of the first checkpoint with the lowest validation
   * rate, and it is kept at all exactly when some checkpoint had a rate.
   */
  lemma {:induction false} MelhorEhPrimeiroMinimo(taxas: seq<Option<real>>)
    ensures Apos(taxas).indiceMelhor.None? <==> forall j :: 0 <= j < |taxas| ==> taxas[j].None?
    ensures Apos(taxas).indiceMelhor.Some? ==>
      PrimeiroMinimo(taxas, Apos(taxas).indiceMelhor.value) && Apos(taxas).melhor == taxas[Apos(taxas).indiceMelhor.value]
  {
    if |taxas| > 0 {
      var n := |taxas| - 1;
      var init := taxas[..n];
      MelhorEhPrimeiroMinimo(init);
      assert forall j :: 0 <= j < n ==> init[j] == taxas[j];
      var c := Apos(init);
      if Melhora(taxas[n], c.melhor) {
        if c.indiceMelhor.Some? {
          assert forall j :: 0 <= j < n && taxas[j].Some? ==> c.melhor.value <= taxas[j].value;
        } else {
          assert forall j :: 0 <= j < n ==> taxas[j].None?;
        }
      }
    }
  }

  /** At most one checkpoint is the first minimum. */
  lemma PrimeiroMinimoUnico(taxas: seq<Option<real>>, i: int, j: int)
    requires PrimeiroMinimo(taxas, i) && PrimeiroMinimo(taxas, j)
    ensures i == j
  {
  }

  /** The failure counter is the number of checkpoints since the best one. */
  lemma {:induction false} FracassosDesdeMelhor(taxas: seq<Option<real>>)
    ensures Apos(taxas).fracassosSeguidos == |taxas| - Desde(Apos(taxas))
  {
    if |taxas| > 0 {
      FracassosDesdeMelhor(taxas[..|taxas| - 1]);
    }
  }

  /**
   * With `fracassos` at least 1, training stops exactly `fracassos` checkpoints
   * after the best one, with the counter at `fracassos`.
   */
  lemma {:induction false} ParaAposFracassos(taxas: seq<Option<real>>, fracassos: int)
    requires Encerra(taxas, fracassos) && 1 <= fracassos
    ensures Apos(taxas).fracassosSeguidos == fracassos
    ensures |taxas| == Desde(Apos(taxas)) + fracassos
  {
    var n := |taxas| - 1;
    var c := Apos(taxas[..n]);
    if n > 0 {
      assert c.fracassosSeguidos < fracassos;
    }
    FracassosDesdeMelhor(taxas);
  }

  /** With `fracassos` at most 0, training stops after its first checkpoint. */
  lemma UmaVezSemTolerancia(taxas: seq<Option<real>>, fracassos: int)
    requires fracassos <= 0
    ensures Encerra(taxas, fracassos) <==> |taxas| == 1
  {
    if |taxas| > 1 {
      assert 0 < 1 < |taxas|;
    }
  }

  /** Adding a checkpoint to a run that has not stopped keeps every earlier verdict. */
  lemma Prolonga(taxas: seq<Option<real>>, atual: Option<real>, fracassos: int)
    requires Continua(taxas, fracassos)
    requires |taxas| == 0 || Apos(taxas).fracassosSeguidos < fracassos
    ensures Continua(taxas + [atual], fracassos)
  {
    assert (taxas + [atual])[..|taxas|] == taxas;
  }
}
