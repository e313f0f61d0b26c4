/**
 * Administrative units: their status, whether they may be deactivated
 * (no stock left in them) and their display text.
 */
module Unidades {
  import opened Constantes
  import opened Movimentacao

  const Ativa := "ativa"
  const Inativa := "inativa"

  datatype Unidade = Unidade(id: UaId, codigo: string, sigla: string, nome: string, status: string)

  /** A unit created without a status gets the default, `ativa`. */
  function Nova(id: UaId, codigo: string, sigla: string, nome: string): (u: Unidade)
    ensures u.id == id && u.codigo == codigo && u.sigla == sigla && u.nome == nome
    ensures IsAtiva(u)
  {
    Unidade(id, codigo, sigla, nome, Ativa)
  }

  /** `is_ativa`. */
  predicate IsAtiva(u: Unidade) {
    u.status == Ativa
  }

  /** An inactive unit is not active, and neither is one with any other status text. */
  lemma InativaNaoAtiva(u: Unidade)
    requires u.status == Inativa
    ensures !IsAtiva(u)
  {
  }

  /** Some stock row of unit `ua`, for any asset, holds a positive quantity. */
  predicate TemSaldo(linhas: seq<Linha>, ua: UaId)
    decreases |linhas|
  {
    linhas != [] && ((linhas[0].ua == ua && linhas[0].quantidade > 0) || TemSaldo(linhas[1..], ua))
  }

  /** `pode_inativar`: no stock row of the unit has `quantidade > 0`. */
  predicate PodeInativar(u: Unidade, linhas: seq<Linha>) {
    !TemSaldo(linhas, u.id)
  }

  lemma {:induction false} TemSaldoSse(linhas: seq<Linha>, ua: UaId)
    ensures TemSaldo(linhas, ua) <==> exists i :: 0 <= i < |linhas| && linhas[i].ua == ua && linhas[i].quantidade > 0
  {
    if linhas != [] {
      TemSaldoSse(linhas[1..], ua);
      if TemSaldo(linhas[1..], ua) {
        var i :| 0 <= i < |linhas[1..]| && linhas[1..][i].ua == ua && linhas[1..][i].quantidade > 0;
        assert linhas[i + 1] == linhas[1..][i];
      }
      forall i | 1 <= i < |linhas| && linhas[i].ua == ua && linhas[i].quantidade > 0
        ensures TemSaldo(linhas[1..], ua)
      {
        assert linhas[1..][i - 1] == linhas[i];
      }
    }
  }

  /** A unit may be deactivated iff every stock row it has holds zero or less. */
  lemma PodeInativarSse(u: Unidade, linhas: seq<Linha>)
    ensures PodeInativar(u, linhas) <==> forall i :: 0 <= i < |linhas| && linhas[i].ua == u.id ==> linhas[i].quantidade <= 0
  {
    TemSaldoSse(linhas, u.id);
  }

  /** A positive total of one asset in a unit needs a positive row of that unit. */
  lemma {:induction false} QuantidadePositiva(linhas: seq<Linha>, bem: BemId, ua: UaId)
    requires QuantidadeEm(linhas, bem, ua) > 0
    ensures TemSaldo(linhas, ua)
  {
    if !(linhas[0].bem == bem && linhas[0].ua == ua && linhas[0].quantidade > 0) {
      QuantidadePositiva(linhas[1..], bem, ua);
    }
  }

  /** A request is only pending: it moves no stock, so whether a unit may be deactivated does not change. */
  lemma PendenteNaoImpede(
    u: Unidade, e: Estado, bem: BemId, origem: UaId, destino: UaId, quantidade: nat, solicitante: UsuarioId)
    ensures PodeInativar(u, Criar(e, bem, origem, destino, quantidade, solicitante).estoque)
      == PodeInativar(u, e.estoque)
  {
  }

  /**
   * Once a request into the unit is approved, with a positive quantity and
   * no negative balance there before, the unit can no longer be deactivated.
   */
  lemma AprovadaImpede(u: Unidade, e: Estado, pk: nat, usuario: UsuarioId)
    requires pk < |e.movs| && e.movs[pk].status == Enviada
    requires e.movs[pk].destino == u.id && e.movs[pk].origem != u.id
    requires e.movs[pk].quantidade > 0
    requires QuantidadeEm(e.estoque, e.movs[pk].bem, u.id) >= 0
    ensures !PodeInativar(u, Aprovar(e, pk, usuario).estoque)
  {
    var m := e.movs[pk];
    AprovarEfeito(e, pk, usuario);
    QuantidadePositiva(Aprovar(e, pk, usuario).estoque, m.bem, u.id);
  }

  /** `__str__`: the code, a spaced dash, and the acronym. */
  function Texto(u: Unidade): (r: string)
    ensures |r| == |u.codigo| + 3 + |u.sigla|
  {
    u.codigo + " - " + u.sigla
  }

  /** The text starts with the code and ends with the acronym, joined by `" - "`. */
  lemma TextoPartes(u: Unidade)
    ensures var r := Texto(u);
      r[..|u.codigo|] == u.codigo && r[|u.codigo|..|u.codigo| + 3] == " - " && r[|u.codigo| + 3..] == u.sigla
  {
  }
}
