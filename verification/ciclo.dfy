/**
 * The state of the `while` loop of `executar` (MLP/src/Rede.java:206-255) as values:
 * the checkpoints the rounds of epochs pass through, and the early-stopping
 * controller that watches their validation error rates and keeps a copy of the
 * best one as text.
 */
module Ciclo {
  import opened Wrappers
  import opened Ativacao
  import opened RedeSpec
  import opened RedeTexto
  import opened Parada

  /** The text `texto` reads back as the parameters `p`. */
  ghost predicate Guarda(codec: DoubleCodec, texto: string, p: NetParams)
  {
    Parse(codec, texto).Ok? && Built(Parse(codec, texto).value) == p
  }

  /** Over the same positive denominator, a smaller share has a smaller count. */
  lemma MenorFracao(a: nat, b: nat, n: nat)
    requires 0 < n && (a as real) / (n as real) < (b as real) / (n as real)
    ensures a < b
  {
    var x, y := (a as real) / (n as real), (b as real) / (n as real);
    assert a as real == x * (n as real) && b as real == y * (n as real);
    assert x * (n as real) < y * (n as real);
  }

  /**
   * What the loop has gone through from `p0`, whatever state it ended in: as many
   * rates as checkpoints, and once one round is completed, a network that takes
   * every training and validation sample, `pontos` the checkpoints and `taxas`
   * their validation rates.
   */
  ghost predicate Percurso(exp: ExpFn, treino: seq<Tupla>, validacao: seq<Tupla>, aprendizado: real, rodadas: nat,
                           p0: NetParams, taxas: seq<Option<real>>, pontos: seq<NetParams>)
  {
    |taxas| == |pontos| &&
    (0 < |pontos| ==> AcceptsAll(p0, treino) && AcceptsAll(p0, validacao)) &&
    pontos == Checkpoints(exp, p0, treino, aprendizado, rodadas, |pontos|) &&
    taxas == Rates(exp, pontos, validacao)
  }

  /**
   * The parameters of the loop: `pontos` are the checkpoints (the parameters after
   * each round of `rodadas` epochs over `treino` from `p0`), `taxas` their error
   * rates on `validacao` and `q` the last one.  A round is only ever completed when
   * the network can take every training and validation sample.
   */
  ghost predicate Trajetoria(exp: ExpFn, treino: seq<Tupla>, validacao: seq<Tupla>, aprendizado: real, rodadas: nat,
                             p0: NetParams, q: NetParams, taxas: seq<Option<real>>, pontos: seq<NetParams>)
  {
    Percurso(exp, treino, validacao, aprendizado, rodadas, p0, taxas, pontos) && q == Ultimo(p0, pontos)
  }

  /** One more round, from parameters that take both sets, extends the trajectory by its checkpoint and rate. */
  lemma TrajetoriaPasso(exp: ExpFn, treino: seq<Tupla>, validacao: seq<Tupla>, aprendizado: real, rodadas: nat,
                        p0: NetParams, q: NetParams, taxas: seq<Option<real>>, pontos: seq<NetParams>, novo: NetParams)
    requires Trajetoria(exp, treino, validacao, aprendizado, rodadas, p0, q, taxas, pontos)
    requires AcceptsAll(q, treino) && AcceptsAll(q, validacao) && novo == Epochs(exp, q, treino, aprendizado, rodadas)
    ensures AcceptsAll(novo, validacao)
    ensures Trajetoria(exp, treino, validacao, aprendizado, rodadas, p0, novo,
                       taxas + [ErrorRate(exp, novo, validacao)], pontos + [novo])
  {
    assert AcceptsAll(p0, treino) && AcceptsAll(p0, validacao);
    SameShapeAccepts(novo, q, validacao);
    CheckpointsStep(exp, p0, treino, aprendizado, rodadas, |pontos|);
    RatesStep(exp, pontos, novo, validacao);
  }

  /** The controller's locals: the best rate so far, the failures since, and the saved text of the best network. */
  datatype Estado = Estado(melhor: Option<real>, seguidos: nat, texto: string)

  /**
   * The controller after one more checkpoint with rate `atual`, saved as `novoTexto`
   * when it improves: an improvement becomes the best and clears the failures,
   * anything else adds one.
   */
  function Decide(e: Estado, atual: Option<real>, novoTexto: string): (d: Estado)
    ensures d.seguidos == 0 <==> Melhora(atual, e.melhor)
    ensures d.seguidos == 0 ==> d.melhor == atual && d.texto == novoTexto
    ensures d.seguidos > 0 ==> d.melhor == e.melhor && d.texto == e.texto && d.seguidos == e.seguidos + 1
    ensures forall taxas :: Apos(taxas).melhor == e.melhor && Apos(taxas).fracassosSeguidos == e.seguidos ==>
              Apos(taxas + [atual]).melhor == d.melhor && Apos(taxas + [atual]).fracassosSeguidos == d.seguidos
  {
    assert forall taxas :: Apos(taxas).melhor == e.melhor ==>
             (Melhora(atual, e.melhor) ==> Apos(taxas + [atual]) == Controle(atual, Some(|taxas|), 0)) &&
             (!Melhora(atual, e.melhor) ==>
                Apos(taxas + [atual]) == Controle(Apos(taxas).melhor, Apos(taxas).indiceMelhor, Apos(taxas).fracassosSeguidos + 1)) by {
      forall taxas {
        AposPasso(taxas, atual);
      }
    }
    if Melhora(atual, e.melhor) then Estado(atual, 0, novoTexto) else Estado(e.melhor, e.seguidos + 1, e.texto)
  }

  /**
   * The controller state `e` after the checkpoints `pontos` with rates `taxas`: its
   * best rate and failure count are those of `Apos`, no earlier checkpoint stopped
   * the loop, its text reads back as the best checkpoint and `contagem` is the
   * number of the `n` validation samples that checkpoint gets wrong (`n + 1`,
   * beyond every count, before the first improvement).
   */
  ghost predicate Controlado(codec: DoubleCodec, fracassos: int, n: nat, taxas: seq<Option<real>>, pontos: seq<NetParams>,
                             e: Estado, contagem: nat)
  {
    match e
    case Estado(melhor, seguidos, texto) =>
      |pontos| == |taxas| && Apos(taxas).melhor == melhor && Apos(taxas).fracassosSeguidos == seguidos &&
      Continua(taxas, fracassos) &&
      (melhor.Some? ==> Guarda(codec, texto, pontos[Apos(taxas).indiceMelhor.value])) &&
      (melhor.Some? ==> 0 < n && contagem <= n && melhor.value == contagem as real / n as real) &&
      (melhor.None? ==> contagem == n + 1)
  }

  /**
   * A checkpoint `novo` with rate `atual` (from `novaContagem` wrong samples) keeps
   * the controller coherent after `Decide`, and an improvement gets strictly fewer
   * samples wrong than the best before it.
   */
  lemma ControlePasso(codec: DoubleCodec, fracassos: int, n: nat, taxas: seq<Option<real>>, pontos: seq<NetParams>,
                      e: Estado, contagem: nat, atual: Option<real>, novo: NetParams, novoTexto: string, novaContagem: nat)
    requires Controlado(codec, fracassos, n, taxas, pontos, e, contagem)
    requires |taxas| == 0 || e.seguidos < fracassos
    requires atual.Some? ==> 0 < n && novaContagem <= n && atual.value == novaContagem as real / n as real
    requires Melhora(atual, e.melhor) ==> Guarda(codec, novoTexto, novo)
    ensures Controlado(codec, fracassos, n, taxas + [atual], pontos + [novo], Decide(e, atual, novoTexto),
                       if Melhora(atual, e.melhor) then novaContagem else contagem)
    ensures Melhora(atual, e.melhor) ==> novaContagem < contagem
  {
    AposPasso(taxas, atual);
    Prolonga(taxas, atual, fracassos);
    if Melhora(atual, e.melhor) && e.melhor.Some? {
      MenorFracao(novaContagem, contagem, n);
    }
  }
}
