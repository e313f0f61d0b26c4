/**
 * Movement requests of an asset between administrative units: creation
 * (which blocks the asset), approval (which moves the quantity between the
 * units' stock rows), rejection and cancellation, and the two admin
 * screens whose batch actions drive them.
 */
module Movimentacao {
  import opened Base
  import opened Constantes

  type BemId = nat
  type UaId = nat
  type UsuarioId = nat

  /** A movement request; its primary key is its index in `Estado.movs`. */
  datatype Mov = Mov(
    bem: BemId,
    origem: UaId,
    destino: UaId,
    quantidade: nat,
    solicitante: UsuarioId,
    status: StatusMovimentacao,
    aprovadoPor: Option<UsuarioId>,
    rejeitadoPor: Option<UsuarioId>,
    canceladoPor: Option<UsuarioId>)

  /** A row of the per-unit stock table: how many of an asset a unit holds. */
  datatype Linha = Linha(bem: BemId, ua: UaId, quantidade: int)

  /** A row of an asset's status history; `movimentacao` is the request named in its note. */
  datatype RegistroStatus = RegistroStatus(bem: BemId, status: StatusBem, atualizadoPor: UsuarioId, movimentacao: nat)

  /** The tables the movement operations read and write. */
  datatype Estado = Estado(
    movs: seq<Mov>,
    statusBem: map<BemId, StatusBem>,
    unidadeBem: map<BemId, UaId>,
    estoque: seq<Linha>,
    historico: seq<RegistroStatus>)

  // ---------------------------------------------------------------------
  // Stock rows
  // ---------------------------------------------------------------------

  /** Everything held of `bem`, over all units. */
  function Soma(linhas: seq<Linha>, bem: BemId): int {
    if linhas == [] then 0
    else (if linhas[0].bem == bem then linhas[0].quantidade else 0) + Soma(linhas[1..], bem)
  }

  /** What unit `ua` holds of `bem`. */
  function QuantidadeEm(linhas: seq<Linha>, bem: BemId, ua: UaId): int {
    if linhas == [] then 0
    else
      var aqui := if linhas[0].bem == bem && linhas[0].ua == ua then linhas[0].quantidade else 0;
      aqui + QuantidadeEm(linhas[1..], bem, ua)
  }

  predicate TemLinha(linhas: seq<Linha>, bem: BemId, ua: UaId) {
    exists i :: 0 <= i < |linhas| && linhas[i].bem == bem && linhas[i].ua == ua
  }

  /** Adds `delta` to the row of (`bem`, `ua`), creating the row when there is none. */
  function Ajustar(linhas: seq<Linha>, bem: BemId, ua: UaId, delta: int): seq<Linha> {
    if linhas == [] then [Linha(bem, ua, delta)]
    else if linhas[0].bem == bem && linhas[0].ua == ua then
      [linhas[0].(quantidade := linhas[0].quantidade + delta)] + linhas[1..]
    else [linhas[0]] + Ajustar(linhas[1..], bem, ua, delta)
  }

  /** After an adjustment the row of (`bem`, `ua`) exists. */
  lemma {:induction false} AjustarCriaLinha(linhas: seq<Linha>, bem: BemId, ua: UaId, delta: int)
    ensures TemLinha(Ajustar(linhas, bem, ua, delta), bem, ua)
    decreases |linhas|
  {
    var r := Ajustar(linhas, bem, ua, delta);
    if linhas == [] || (linhas[0].bem == bem && linhas[0].ua == ua) {
      assert r[0].bem == bem && r[0].ua == ua;
    } else {
      AjustarCriaLinha(linhas[1..], bem, ua, delta);
      var resto := Ajustar(linhas[1..], bem, ua, delta);
      var i :| 0 <= i < |resto| && resto[i].bem == bem && resto[i].ua == ua;
      assert r[i + 1] == resto[i];
    }
  }

  lemma {:induction false} AjustarQuantidade(linhas: seq<Linha>, bem: BemId, ua: UaId, delta: int, b: BemId, u: UaId)
    ensures QuantidadeEm(Ajustar(linhas, bem, ua, delta), b, u)
      == QuantidadeEm(linhas, b, u) + (if b == bem && u == ua then delta else 0)
    decreases |linhas|
  {
    var r := Ajustar(linhas, bem, ua, delta);
    if linhas == [] {
      assert r[1..] == [];
    } else if linhas[0].bem == bem && linhas[0].ua == ua {
      assert r[1..] == linhas[1..];
    } else {
      assert r[1..] == Ajustar(linhas[1..], bem, ua, delta);
      AjustarQuantidade(linhas[1..], bem, ua, delta, b, u);
    }
  }

  lemma {:induction false} AjustarSoma(linhas: seq<Linha>, bem: BemId, ua: UaId, delta: int, b: BemId)
    ensures Soma(Ajustar(linhas, bem, ua, delta), b) == Soma(linhas, b) + (if b == bem then delta else 0)
    decreases |linhas|
  {
    var r := Ajustar(linhas, bem, ua, delta);
    if linhas == [] {
      assert r[1..] == [];
    } else if linhas[0].bem == bem && linhas[0].ua == ua {
      assert r[1..] == linhas[1..];
    } else {
      assert r[1..] == Ajustar(linhas[1..], bem, ua, delta);
      AjustarSoma(linhas[1..], bem, ua, delta, b);
    }
  }

  /** Approval's stock update: `q` leaves the origin row and arrives at the destination row. */
  function Transferir(linhas: seq<Linha>, bem: BemId, origem: UaId, destino: UaId, q: nat): seq<Linha> {
    Ajustar(Ajustar(linhas, bem, origem, -(q as int)), bem, destino, q)
  }

  /** A transfer conserves the total held of every asset. */
  lemma TransferirSoma(linhas: seq<Linha>, bem: BemId, origem: UaId, destino: UaId, q: nat)
    ensures forall b: BemId :: Soma(Transferir(linhas, bem, origem, destino, q), b) == Soma(linhas, b)
  {
    var meio := Ajustar(linhas, bem, origem, -(q as int));
    forall b: BemId ensures Soma(Transferir(linhas, bem, origem, destino, q), b) == Soma(linhas, b) {
      AjustarSoma(linhas, bem, origem, -(q as int), b);
      AjustarSoma(meio, bem, destino, q, b);
    }
  }

  /**
   * A transfer takes `q` from the origin's holding and gives `q` to the
   * destination's, whose row then exists; every other holding is as it was.
   * When origin and destination are the same unit, the two cancel out.
   */
  lemma TransferirEfeito(linhas: seq<Linha>, bem: BemId, origem: UaId, destino: UaId, q: nat)
    ensures var r := Transferir(linhas, bem, origem, destino, q);
      && (forall b: BemId, u: UaId :: QuantidadeEm(r, b, u)
            == QuantidadeEm(linhas, b, u) - (if (b, u) == (bem, origem) then q else 0)
               + (if (b, u) == (bem, destino) then q else 0))
      && TemLinha(r, bem, destino)
  {
    var meio := Ajustar(linhas, bem, origem, -(q as int));
    forall b: BemId, u: UaId ensures QuantidadeEm(Transferir(linhas, bem, origem, destino, q), b, u)
      == QuantidadeEm(linhas, b, u) - (if (b, u) == (bem, origem) then q else 0)
         + (if (b, u) == (bem, destino) then q else 0)
    {
      AjustarQuantidade(linhas, bem, origem, -(q as int), b, u);
      AjustarQuantidade(meio, bem, destino, q, b, u);
    }
    AjustarCriaLinha(meio, bem, destino, q);
  }

  // ---------------------------------------------------------------------
  // The request's transitions
  // ---------------------------------------------------------------------

  predicate TemPendente(e: Estado, bem: BemId) {
    exists i :: 0 <= i < |e.movs| && e.movs[i].bem == bem && e.movs[i].status == Enviada
  }

  /**
   * Saving a new request: it is `ENVIADA`, the asset becomes `BLOQUEADO`,
   * and a history row records the block by the requester, naming the request.
   */
  function Criar(e: Estado, bem: BemId, origem: UaId, destino: UaId, quantidade: nat, solicitante: UsuarioId): (r: Estado)
    ensures |r.movs| == |e.movs| + 1 && r.movs[..|e.movs|] == e.movs
    ensures r.movs[|e.movs|] == Mov(bem, origem, destino, quantidade, solicitante, Enviada, None, None, None)
    ensures TemPendente(r, bem) && bem in r.statusBem && r.statusBem[bem] == Bloqueado
    ensures forall b :: b != bem && b in e.statusBem ==> b in r.statusBem && r.statusBem[b] == e.statusBem[b]
    ensures r.unidadeBem == e.unidadeBem && r.estoque == e.estoque
    ensures r.historico == e.historico + [RegistroStatus(bem, Bloqueado, solicitante, |e.movs|)]
  {
    var pk := |e.movs|;
    var m := Mov(bem, origem, destino, quantidade, solicitante, Enviada, None, None, None);
    var r := Estado(
      e.movs + [m],
      e.statusBem[bem := Bloqueado],
      e.unidadeBem,
      e.estoque,
      e.historico + [RegistroStatus(bem, Bloqueado, solicitante, pk)]);
    assert r.movs[pk] == m;
    r
  }

  /**
   * Approval of a pending request: it becomes `ACEITA` with its approver,
   * the asset returns to `APROVADO` and is now at the destination, and the
   * quantity is transferred. A request in any other state is left alone.
   */
  function Aprovar(e: Estado, pk: nat, usuario: UsuarioId): (r: Estado)
    requires pk < |e.movs|
    ensures |r.movs| == |e.movs|
    ensures e.movs[pk].status != Enviada ==> r == e
  {
    var m := e.movs[pk];
    if m.status != Enviada then e
    else Estado(
      e.movs[pk := m.(status := Aceita, aprovadoPor := Some(usuario))],
      e.statusBem[m.bem := Aprovado],
      e.unidadeBem[m.bem := m.destino],
      Transferir(e.estoque, m.bem, m.origem, m.destino, m.quantidade),
      e.historico)
  }

  /** Rejection of a pending request: `REJEITADA` with its rejecter, asset `APROVADO`, stock untouched. */
  function Rejeitar(e: Estado, pk: nat, usuario: UsuarioId): (r: Estado)
    requires pk < |e.movs|
    ensures |r.movs| == |e.movs| && r.estoque == e.estoque
    ensures e.movs[pk].status != Enviada ==> r == e
  {
    var m := e.movs[pk];
    if m.status != Enviada then e
    else Estado(
      e.movs[pk := m.(status := Rejeitada, rejeitadoPor := Some(usuario))],
      e.statusBem[m.bem := Aprovado],
      e.unidadeBem,
      e.estoque,
      e.historico)
  }

  /** Cancellation of a pending request: `CANCELADA` with who cancelled it, asset `APROVADO`, stock untouched. */
  function Cancelar(e: Estado, pk: nat, usuario: UsuarioId): (r: Estado)
    requires pk < |e.movs|
    ensures |r.movs| == |e.movs| && r.estoque == e.estoque
    ensures e.movs[pk].status != Enviada ==> r == e
  {
    var m := e.movs[pk];
    if m.status != Enviada then e
    else Estado(
      e.movs[pk := m.(status := Cancelada, canceladoPor := Some(usuario))],
      e.statusBem[m.bem := Aprovado],
      e.unidadeBem,
      e.estoque,
      e.historico)
  }

  /**
   * What approving a pending request does: it becomes `ACEITA` with its
   * approver, the asset returns to `APROVADO` at the destination, the
   * quantity leaves the origin's holding and reaches the destination's
   * (which cancel out when both are the same unit), every total is kept,
   * and no other request, holding, asset or history row changes.
   */
  lemma AprovarEfeito(e: Estado, pk: nat, usuario: UsuarioId)
    requires pk < |e.movs| && e.movs[pk].status == Enviada
    ensures var r := Aprovar(e, pk, usuario); var m := e.movs[pk];
      && r.movs[pk] == m.(status := Aceita, aprovadoPor := Some(usuario))
      && m.bem in r.statusBem && r.statusBem[m.bem] == Aprovado
      && m.bem in r.unidadeBem && r.unidadeBem[m.bem] == m.destino
      && (forall b: BemId :: Soma(r.estoque, b) == Soma(e.estoque, b))
      && (forall b: BemId, u: UaId :: QuantidadeEm(r.estoque, b, u)
            == QuantidadeEm(e.estoque, b, u) - (if (b, u) == (m.bem, m.origem) then m.quantidade else 0)
               + (if (b, u) == (m.bem, m.destino) then m.quantidade else 0))
      && TemLinha(r.estoque, m.bem, m.destino)
      && |r.movs| == |e.movs| && (forall i :: 0 <= i < |e.movs| && i != pk ==> r.movs[i] == e.movs[i])
      && (forall b :: b != m.bem && b in e.statusBem ==> b in r.statusBem && r.statusBem[b] == e.statusBem[b])
      && (forall b :: b != m.bem && b in e.unidadeBem ==> b in r.unidadeBem && r.unidadeBem[b] == e.unidadeBem[b])
      && r.historico == e.historico
  {
    var m := e.movs[pk];
    TransferirSoma(e.estoque, m.bem, m.origem, m.destino, m.quantidade);
    TransferirEfeito(e.estoque, m.bem, m.origem, m.destino, m.quantidade);
  }

  /** Approving a request whose origin is its destination leaves every holding as it was. */
  lemma AprovarMesmaUnidade(e: Estado, pk: nat, usuario: UsuarioId)
    requires pk < |e.movs| && e.movs[pk].status == Enviada && e.movs[pk].origem == e.movs[pk].destino
    ensures forall b: BemId, u: UaId :: QuantidadeEm(Aprovar(e, pk, usuario).estoque, b, u) == QuantidadeEm(e.estoque, b, u)
  {
    AprovarEfeito(e, pk, usuario);
  }

  /**
   * What rejecting a pending request does: it becomes `REJEITADA` with its
   * rejecter, the asset returns to `APROVADO` where it was, no stock moves,
   * and no other request, asset status or history row changes.
   */
  lemma RejeitarEfeito(e: Estado, pk: nat, usuario: UsuarioId)
    requires pk < |e.movs| && e.movs[pk].status == Enviada
    ensures var r := Rejeitar(e, pk, usuario); var m := e.movs[pk];
      && r.movs[pk] == m.(status := Rejeitada, rejeitadoPor := Some(usuario))
      && m.bem in r.statusBem && r.statusBem[m.bem] == Aprovado
      && r.unidadeBem == e.unidadeBem && r.estoque == e.estoque && r.historico == e.historico
      && |r.movs| == |e.movs| && (forall i :: 0 <= i < |e.movs| && i != pk ==> r.movs[i] == e.movs[i])
      && (forall b :: b != m.bem && b in e.statusBem ==> b in r.statusBem && r.statusBem[b] == e.statusBem[b])
  {
  }

  /**
   * What cancelling a pending request does: it becomes `CANCELADA` with who
   * cancelled it, the asset returns to `APROVADO` where it was, no stock
   * moves, and no other request, asset status or history row changes.
   */
  lemma CancelarEfeito(e: Estado, pk: nat, usuario: UsuarioId)
    requires pk < |e.movs| && e.movs[pk].status == Enviada
    ensures var r := Cancelar(e, pk, usuario); var m := e.movs[pk];
      && r.movs[pk] == m.(status := Cancelada, canceladoPor := Some(usuario))
      && m.bem in r.statusBem && r.statusBem[m.bem] == Aprovado
      && r.unidadeBem == e.unidadeBem && r.estoque == e.estoque && r.historico == e.historico
      && |r.movs| == |e.movs| && (forall i :: 0 <= i < |e.movs| && i != pk ==> r.movs[i] == e.movs[i])
      && (forall b :: b != m.bem && b in e.statusBem ==> b in r.statusBem && r.statusBem[b] == e.statusBem[b])
  {
  }

  /** Approving twice is approving once: the second call moves no stock and keeps the first approver. */
  lemma AprovarRepetido(e: Estado, pk: nat, u1: UsuarioId, u2: UsuarioId)
    requires pk < |e.movs|
    ensures Aprovar(Aprovar(e, pk, u1), pk, u2) == Aprovar(e, pk, u1)
  {
  }

  /**
   * The closed states absorb every transition: once a request is accepted,
   * rejected or cancelled, none of approve, reject or cancel changes anything.
   */
  lemma EstadosFinais(e: Estado, pk: nat, u: UsuarioId)
    requires pk < |e.movs| && e.movs[pk].status != Enviada
    ensures Aprovar(e, pk, u) == e && Rejeitar(e, pk, u) == e && Cancelar(e, pk, u) == e
  {
  }

  /**
   * The consistency the tables keep: at most one pending request per asset,
   * and an asset with a pending request is blocked.
   */
  predicate Coerente(e: Estado) {
    (forall i, j :: 0 <= i < j < |e.movs| && e.movs[i].bem == e.movs[j].bem && e.movs[i].status == Enviada
       ==> e.movs[j].status != Enviada)
    && (forall i :: 0 <= i < |e.movs| && e.movs[i].status == Enviada ==>
          e.movs[i].bem in e.statusBem && e.statusBem[e.movs[i].bem] == Bloqueado)
  }

  /** Creating a request for an asset with none pending keeps the tables consistent. */
  lemma CriarPreserva(e: Estado, bem: BemId, origem: UaId, destino: UaId, quantidade: nat, solicitante: UsuarioId)
    requires Coerente(e) && !TemPendente(e, bem)
    ensures Coerente(Criar(e, bem, origem, destino, quantidade, solicitante))
  {
    var r := Criar(e, bem, origem, destino, quantidade, solicitante);
    assert forall i :: 0 <= i < |e.movs| ==> r.movs[i] == e.movs[i];
    forall i | 0 <= i < |e.movs| && e.movs[i].status == Enviada
      ensures e.movs[i].bem != bem
    {
      if e.movs[i].bem == bem {
        assert TemPendente(e, bem);
      }
    }
  }

  /**
   * Closing a pending request (approve, reject or cancel) keeps the tables
   * consistent: the asset it unblocks has no other pending request.
   */
  lemma FecharPreserva(e: Estado, pk: nat, r: Estado, novo: StatusMovimentacao)
    requires Coerente(e) && pk < |e.movs| && e.movs[pk].status == Enviada && novo != Enviada
    requires |r.movs| == |e.movs| && r.movs[pk].status == novo && r.movs[pk].bem == e.movs[pk].bem
    requires forall i :: 0 <= i < |e.movs| && i != pk ==> r.movs[i] == e.movs[i]
    requires r.statusBem == e.statusBem[e.movs[pk].bem := Aprovado]
    ensures Coerente(r)
  {
    var bem := e.movs[pk].bem;
    forall i | 0 <= i < |r.movs| && r.movs[i].status == Enviada
      ensures r.movs[i].bem != bem
    {
      if i < pk {
        assert !(e.movs[i].bem == bem);
      } else if i > pk {
        assert !(e.movs[i].bem == bem);
      }
    }
  }

  lemma AprovarPreserva(e: Estado, pk: nat, u: UsuarioId)
    requires Coerente(e) && pk < |e.movs|
    ensures Coerente(Aprovar(e, pk, u))
  {
    if e.movs[pk].status == Enviada {
      FecharPreserva(e, pk, Aprovar(e, pk, u), Aceita);
    }
  }

  lemma RejeitarPreserva(e: Estado, pk: nat, u: UsuarioId)
    requires Coerente(e) && pk < |e.movs|
    ensures Coerente(Rejeitar(e, pk, u))
  {
    if e.movs[pk].status == Enviada {
      FecharPreserva(e, pk, Rejeitar(e, pk, u), Rejeitada);
    }
  }

  lemma CancelarPreserva(e: Estado, pk: nat, u: UsuarioId)
    requires Coerente(e) && pk < |e.movs|
    ensures Coerente(Cancelar(e, pk, u))
  {
    if e.movs[pk].status == Enviada {
      FecharPreserva(e, pk, Cancelar(e, pk, u), Cancelada);
    }
  }

  /**
   * Closing a pending request in a consistent state frees its asset: no
   * request of it is pending any more, so a new one may be created.
   */
  lemma FecharLibera(e: Estado, pk: nat, u: UsuarioId)
    requires Coerente(e) && pk < |e.movs| && e.movs[pk].status == Enviada
    ensures !TemPendente(Aprovar(e, pk, u), e.movs[pk].bem)
    ensures !TemPendente(Rejeitar(e, pk, u), e.movs[pk].bem)
    ensures !TemPendente(Cancelar(e, pk, u), e.movs[pk].bem)
  {
    var bem := e.movs[pk].bem;
    forall i | 0 <= i < |e.movs| && i != pk && e.movs[i].bem == bem
      ensures e.movs[i].status != Enviada
    {
      if i < pk {
        assert !(e.movs[i].bem == bem && e.movs[i].status == Enviada);
      }
    }
  }

  /** Approval and rejection conserve the total held of every asset. */
  lemma TransicoesConservam(e: Estado, pk: nat, u: UsuarioId)
    requires pk < |e.movs|
    ensures forall b: BemId :: Soma(Aprovar(e, pk, u).estoque, b) == Soma(e.estoque, b)
    ensures Rejeitar(e, pk, u).estoque == e.estoque && Cancelar(e, pk, u).estoque == e.estoque
  {
    var m := e.movs[pk];
    TransferirSoma(e.estoque, m.bem, m.origem, m.destino, m.quantidade);
  }

  // ---------------------------------------------------------------------
  // The admin screens
  // ---------------------------------------------------------------------

  /** The movements screen and the older movement-requests screen. */
  datatype Tela = TelaMovimentacao | TelaSolicitacao

  datatype Acao = Aprovacao | Rejeicao

  /** The logged-in user: primary key, inventory-operator group membership, unit. */
  datatype Usuario = Usuario(pk: UsuarioId, operadorInventario: bool, unidade: Option<UaId>)

  datatype Nivel = Info | Aviso

  datatype Mensagem = Mensagem(nivel: Nivel, texto: string)

  /** The notice sent to the requester; only who receives it and about which asset is modelled. */
  datatype Email = EmailAceita(bem: BemId, para: UsuarioId) | EmailRejeitada(bem: BemId, para: UsuarioId)

  /** The outcome of a batch action: the tables, the messages shown and the emails sent, in order. */
  datatype Lote = Lote(estado: Estado, mensagens: seq<Mensagem>, emails: seq<Email>)

  /**
   * The requester guard: rejecting one's own request is refused on both
   * screens; approving it is refused on the requests screen, and on the
   * movements screen only for an inventory operator.
   */
  predicate Impedido(t: Tela, a: Acao, u: Usuario, m: Mov) {
    m.solicitante == u.pk && (a == Rejeicao || t == TelaSolicitacao || u.operadorInventario)
  }

  function TextoImpedido(t: Tela): string {
    if t == TelaMovimentacao then "Você não pode efetuar essa ação." else "Não é possível realizar essa ação."
  }

  /** The state that stops the batch: already accepted when approving, already rejected when rejecting. */
  predicate JaFeito(a: Acao, m: Mov) {
    if a == Aprovacao then m.status == Aceita else m.status == Rejeitada
  }

  function TextoJaFeito(a: Acao): string {
    if a == Aprovacao then "Solicitação já foi aprovada." else "Solicitação já foi rejeitada."
  }

  function TextoSucesso(a: Acao): string {
    if a == Aprovacao then "Movimentação aprovada com sucesso" else "Movimentação rejeitada com sucesso"
  }

  function Transicao(a: Acao, e: Estado, pk: nat, u: UsuarioId): (r: Estado)
    requires pk < |e.movs|
    ensures |r.movs| == |e.movs|
  {
    if a == Aprovacao then Aprovar(e, pk, u) else Rejeitar(e, pk, u)
  }

  function EmailPara(a: Acao, m: Mov): Email {
    if a == Aprovacao then EmailAceita(m.bem, m.solicitante) else EmailRejeitada(m.bem, m.solicitante)
  }

  /** Every primary key of the batch names a request. */
  predicate NoEstado(e: Estado, q: seq<nat>) {
    forall k :: 0 <= k < |q| ==> q[k] < |e.movs|
  }

  /**
   * A batch action over the selected requests `q[i..fim]`, in order: each
   * item passing both guards gets its transition, a success message and an
   * email to its requester; the first item failing a guard adds a warning
   * and ends the batch.
   */
  function Executar(t: Tela, a: Acao, u: Usuario, e: Estado, q: seq<nat>, i: nat, fim: nat): (r: Lote)
    requires NoEstado(e, q) && i <= fim <= |q|
    ensures |r.estado.movs| == |e.movs|
    decreases fim - i
  {
    if i == fim then Lote(e, [], [])
    else
      var m := e.movs[q[i]];
      if Impedido(t, a, u, m) then Lote(e, [Mensagem(Aviso, TextoImpedido(t))], [])
      else if JaFeito(a, m) then Lote(e, [Mensagem(Aviso, TextoJaFeito(a))], [])
      else
        var resto := Executar(t, a, u, Transicao(a, e, q[i], u.pk), q, i + 1, fim);
        Lote(resto.estado, [Mensagem(Info, TextoSucesso(a))] + resto.mensagens, [EmailPara(a, m)] + resto.emails)
  }

  /**
   * Each guard looks at one closed state only: a cancelled request, an
   * approval of a rejected request or a rejection of an accepted one is
   * left as it is, yet the batch reports success and mails its requester.
   */
  lemma ExecutarEncerrada(t: Tela, a: Acao, u: Usuario, e: Estado, pk: nat)
    requires pk < |e.movs| && e.movs[pk].status != Enviada
    requires !JaFeito(a, e.movs[pk]) && !Impedido(t, a, u, e.movs[pk])
    ensures Executar(t, a, u, e, [pk], 0, 1) == Lote(e, [Mensagem(Info, TextoSucesso(a))], [EmailPara(a, e.movs[pk])])
  {
    EstadosFinais(e, pk, u.pk);
    assert Transicao(a, e, pk, u.pk) == e;
  }

  /** The batch action over the whole selection. */
  function ExecutarLote(t: Tela, a: Acao, u: Usuario, e: Estado, q: seq<nat>): Lote
    requires NoEstado(e, q)
  {
    Executar(t, a, u, e, q, 0, |q|)
  }

  /** The batch ended at a guard: one message more than emails. */
  predicate Parou(r: Lote) {
    |r.mensagens| > |r.emails|
  }

  /**
   * The report of a batch over `n` requests: one success message and one
   * email per processed item, at most `n` of them, and at most one
   * warning, which comes last.
   */
  predicate Relatorio(r: Lote, a: Acao, n: nat) {
    && |r.emails| <= n
    && (|r.mensagens| == |r.emails| || (|r.mensagens| == |r.emails| + 1 && r.mensagens[|r.emails|].nivel == Aviso))
    && (forall k :: 0 <= k < |r.emails| ==> r.mensagens[k] == Mensagem(Info, TextoSucesso(a)))
  }

  /** A success in front of a well-formed report of `n` requests gives one of `n + 1`. */
  lemma RelatorioPasso(resto: Lote, a: Acao, email: Email, n: nat)
    requires Relatorio(resto, a, n)
    ensures Relatorio(Lote(resto.estado, [Mensagem(Info, TextoSucesso(a))] + resto.mensagens, [email] + resto.emails), a, n + 1)
  {
    var r := Lote(resto.estado, [Mensagem(Info, TextoSucesso(a))] + resto.mensagens, [email] + resto.emails);
    forall k | 0 <= k < |r.emails| ensures r.mensagens[k] == Mensagem(Info, TextoSucesso(a)) {
      if k > 0 {
        assert r.mensagens[k] == resto.mensagens[k - 1];
      }
    }
  }

  /** Every batch action over `q[i..fim]` produces a well-formed report of `fim - i` requests. */
  lemma {:induction false} ExecutarMensagens(t: Tela, a: Acao, u: Usuario, e: Estado, q: seq<nat>, i: nat, fim: nat)
    requires NoEstado(e, q) && i <= fim <= |q|
    ensures Relatorio(Executar(t, a, u, e, q, i, fim), a, fim - i)
    decreases fim - i
  {
    if i < fim {
      var m := e.movs[q[i]];
      if !Impedido(t, a, u, m) && !JaFeito(a, m) {
        var e2 := Transicao(a, e, q[i], u.pk);
        ExecutarPasso(t, a, u, e, q, i, fim);
        ExecutarMensagens(t, a, u, e2, q, i + 1, fim);
        RelatorioPasso(Executar(t, a, u, e2, q, i + 1, fim), a, EmailPara(a, m), fim - i - 1);
      }
    }
  }

  /** Once the batch has stopped at `k`, the requests after it are never looked at. */
  lemma {:induction false} ExecutarPara(t: Tela, a: Acao, u: Usuario, e: Estado, q: seq<nat>, i: nat, k: nat, fim: nat)
    requires NoEstado(e, q) && i <= k <= fim <= |q|
    requires Parou(Executar(t, a, u, e, q, i, k))
    ensures Executar(t, a, u, e, q, i, fim) == Executar(t, a, u, e, q, i, k)
    decreases k - i
  {
    var m := e.movs[q[i]];
    if !Impedido(t, a, u, m) && !JaFeito(a, m) {
      ExecutarPara(t, a, u, Transicao(a, e, q[i], u.pk), q, i + 1, k, fim);
    }
  }

  /** One item that passes both guards: its transition, then the rest of the batch. */
  lemma ExecutarPasso(t: Tela, a: Acao, u: Usuario, e: Estado, q: seq<nat>, i: nat, fim: nat)
    requires NoEstado(e, q) && i < fim <= |q|
    requires !Impedido(t, a, u, e.movs[q[i]]) && !JaFeito(a, e.movs[q[i]])
    ensures var e2 := Transicao(a, e, q[i], u.pk);
      NoEstado(e2, q)
      && var resto := Executar(t, a, u, e2, q, i + 1, fim);
      Executar(t, a, u, e, q, i, fim)
        == Lote(resto.estado, [Mensagem(Info, TextoSucesso(a))] + resto.mensagens, [EmailPara(a, e.movs[q[i]])] + resto.emails)
  {
  }

  /** A batch action conserves the total held of every asset. */
  lemma {:induction false} ExecutarConserva(t: Tela, a: Acao, u: Usuario, e: Estado, q: seq<nat>, i: nat, fim: nat)
    requires NoEstado(e, q) && i <= fim <= |q|
    ensures forall b: BemId :: Soma(Executar(t, a, u, e, q, i, fim).estado.estoque, b) == Soma(e.estoque, b)
    decreases fim - i
  {
    if i < fim {
      var m := e.movs[q[i]];
      if !Impedido(t, a, u, m) && !JaFeito(a, m) {
        TransicoesConservam(e, q[i], u.pk);
        ExecutarConserva(t, a, u, Transicao(a, e, q[i], u.pk), q, i + 1, fim);
      }
    }
  }

  /** A batch action keeps the tables consistent. */
  lemma {:induction false} ExecutarPreserva(t: Tela, a: Acao, u: Usuario, e: Estado, q: seq<nat>, i: nat, fim: nat)
    requires NoEstado(e, q) && i <= fim <= |q| && Coerente(e)
    ensures Coerente(Executar(t, a, u, e, q, i, fim).estado)
    decreases fim - i
  {
    if i < fim {
      var m := e.movs[q[i]];
      if !Impedido(t, a, u, m) && !JaFeito(a, m) {
        var e2 := Transicao(a, e, q[i], u.pk);
        assert Coerente(e2) by {
          if a == Aprovacao {
            AprovarPreserva(e, q[i], u.pk);
          } else {
            RejeitarPreserva(e, q[i], u.pk);
          }
        }
        assert NoEstado(e2, q);
        ExecutarPreserva(t, a, u, e2, q, i + 1, fim);
        assert Executar(t, a, u, e, q, i, fim).estado == Executar(t, a, u, e2, q, i + 1, fim).estado;
      }
    }
  }

  /**
   * The screens differ for a user outside the operator group approving
   * their own pending request: the movements screen approves it, the
   * requests screen refuses it and changes nothing.
   */
  lemma TelasDiferem(u: Usuario, e: Estado, pk: nat)
    requires pk < |e.movs| && e.movs[pk].status == Enviada
    requires e.movs[pk].solicitante == u.pk && !u.operadorInventario
    ensures ExecutarLote(TelaMovimentacao, Aprovacao, u, e, [pk]).estado.movs[pk].status == Aceita
    ensures ExecutarLote(TelaSolicitacao, Aprovacao, u, e, [pk])
      == Lote(e, [Mensagem(Aviso, TextoImpedido(TelaSolicitacao))], [])
  {
  }

  /** An operator's own request stops the batch before anything changes, on either screen and for either action. */
  lemma OperadorProprio(t: Tela, a: Acao, u: Usuario, e: Estado, q: seq<nat>)
    requires NoEstado(e, q) && q != [] && u.operadorInventario && e.movs[q[0]].solicitante == u.pk
    ensures ExecutarLote(t, a, u, e, q) == Lote(e, [Mensagem(Aviso, TextoImpedido(t))], [])
  {
  }

  /** `get_queryset`: inventory operators see the requests touching their unit, everyone else sees all. */
  predicate Visivel(t: Tela, u: Usuario, m: Mov) {
    !u.operadorInventario
    || (u.unidade.Some? && (m.destino == u.unidade.value || (t == TelaMovimentacao && m.origem == u.unidade.value)))
  }

  /** The primary keys from `desde` on of the requests the user sees, in key order. */
  function Visiveis(t: Tela, u: Usuario, movs: seq<Mov>, desde: nat): (r: seq<nat>)
    decreases |movs| - desde
  {
    if desde >= |movs| then []
    else (if Visivel(t, u, movs[desde]) then [desde] else []) + Visiveis(t, u, movs, desde + 1)
  }

  /** Exactly the visible requests, each once, in increasing key order. */
  lemma {:induction false} VisiveisCorreto(t: Tela, u: Usuario, movs: seq<Mov>, desde: nat)
    ensures var r := Visiveis(t, u, movs, desde);
      && (forall pk :: pk in r <==> desde <= pk < |movs| && Visivel(t, u, movs[pk]))
      && (forall i, j :: 0 <= i < j < |r| ==> r[i] < r[j])
    decreases |movs| - desde
  {
    if desde < |movs| {
      var resto := Visiveis(t, u, movs, desde + 1);
      VisiveisCorreto(t, u, movs, desde + 1);
      assert forall j :: 0 <= j < |resto| ==> resto[j] in resto;
    }
  }

  /** An operator sees on the requests screen a subset of what they see on the movements screen. */
  lemma VisiveisTelas(u: Usuario, movs: seq<Mov>)
    ensures forall pk :: pk in Visiveis(TelaSolicitacao, u, movs, 0) ==> pk in Visiveis(TelaMovimentacao, u, movs, 0)
  {
    VisiveisCorreto(TelaSolicitacao, u, movs, 0);
    VisiveisCorreto(TelaMovimentacao, u, movs, 0);
  }

  /** The fields the admin form edits. */
  datatype Rascunho = Rascunho(bem: BemId, origem: UaId, destino: UaId, quantidade: nat)

  /**
   * Saving an edited request rewrites its form fields and keeps its
   * requester, its status and who acted on it; no other request and no
   * other table changes.
   */
  function Editar(e: Estado, pk: nat, dados: Rascunho): (r: Estado)
    requires pk < |e.movs|
    ensures |r.movs| == |e.movs|
    ensures r.movs[pk].bem == dados.bem && r.movs[pk].origem == dados.origem
      && r.movs[pk].destino == dados.destino && r.movs[pk].quantidade == dados.quantidade
    ensures r.movs[pk].solicitante == e.movs[pk].solicitante && r.movs[pk].status == e.movs[pk].status
      && r.movs[pk].aprovadoPor == e.movs[pk].aprovadoPor && r.movs[pk].rejeitadoPor == e.movs[pk].rejeitadoPor
      && r.movs[pk].canceladoPor == e.movs[pk].canceladoPor
    ensures forall i :: 0 <= i < |e.movs| && i != pk ==> r.movs[i] == e.movs[i]
    ensures r.statusBem == e.statusBem && r.unidadeBem == e.unidadeBem
      && r.estoque == e.estoque && r.historico == e.historico
  {
    var m := e.movs[pk];
    e.(movs := e.movs[pk := m.(bem := dados.bem, origem := dados.origem, destino := dados.destino, quantidade := dados.quantidade)])
  }

  /** The warning that stops a batch at `m`. */
  function TextoParada(t: Tela, a: Acao, u: Usuario, m: Mov): string {
    if Impedido(t, a, u, m) then TextoImpedido(t) else TextoJaFeito(a)
  }

  /**
   * The batch from `i` on, appended to the messages `ms` and emails `es`
   * produced so far, gives `alvo`.
   */
  predicate Completa(t: Tela, a: Acao, u: Usuario, e: Estado, q: seq<nat>, i: nat,
                     ms: seq<Mensagem>, es: seq<Email>, alvo: Lote)
    requires NoEstado(e, q) && i <= |q|
  {
    var resto := Executar(t, a, u, e, q, i, |q|);
    alvo == Lote(resto.estado, ms + resto.mensagens, es + resto.emails)
  }

  /** An item passing both guards moves the batch one step on. */
  lemma CompletaPasso(t: Tela, a: Acao, u: Usuario, e: Estado, q: seq<nat>, i: nat,
                      ms: seq<Mensagem>, es: seq<Email>, alvo: Lote)
    requires NoEstado(e, q) && i < |q| && Completa(t, a, u, e, q, i, ms, es, alvo)
    requires !Impedido(t, a, u, e.movs[q[i]]) && !JaFeito(a, e.movs[q[i]])
    ensures NoEstado(Transicao(a, e, q[i], u.pk), q)
    ensures Completa(t, a, u, Transicao(a, e, q[i], u.pk), q, i + 1,
      ms + [Mensagem(Info, TextoSucesso(a))], es + [EmailPara(a, e.movs[q[i]])], alvo)
  {
    ExecutarPasso(t, a, u, e, q, i, |q|);
    var resto := Executar(t, a, u, Transicao(a, e, q[i], u.pk), q, i + 1, |q|);
    assert ms + ([Mensagem(Info, TextoSucesso(a))] + resto.mensagens)
      == ms + [Mensagem(Info, TextoSucesso(a))] + resto.mensagens;
    assert es + ([EmailPara(a, e.movs[q[i]])] + resto.emails)
      == es + [EmailPara(a, e.movs[q[i]])] + resto.emails;
  }

  /** An item failing a guard ends the batch with its warning. */
  lemma CompletaParada(t: Tela, a: Acao, u: Usuario, e: Estado, q: seq<nat>, i: nat,
                       ms: seq<Mensagem>, es: seq<Email>, alvo: Lote)
    requires NoEstado(e, q) && i < |q| && Completa(t, a, u, e, q, i, ms, es, alvo)
    requires Impedido(t, a, u, e.movs[q[i]]) || JaFeito(a, e.movs[q[i]])
    ensures alvo == Lote(e, ms + [Mensagem(Aviso, TextoParada(t, a, u, e.movs[q[i]]))], es)
  {
    assert es + [] == es;
  }

  /** At the end of the selection nothing is left to add. */
  lemma CompletaFim(t: Tela, a: Acao, u: Usuario, e: Estado, q: seq<nat>, i: nat,
                    ms: seq<Mensagem>, es: seq<Email>, alvo: Lote)
    requires NoEstado(e, q) && i == |q| && Completa(t, a, u, e, q, i, ms, es, alvo)
    ensures alvo == Lote(e, ms, es)
  {
    assert ms + [] == ms && es + [] == es;
  }

  /** One admin screen over the tables, with the messages and emails it has produced. */
  class Admin {
    const tela: Tela
    var estado: Estado
    var mensagens: seq<Mensagem>
    var emails: seq<Email>

    constructor(tela: Tela, estado: Estado)
      ensures this.tela == tela && this.estado == estado && mensagens == [] && emails == []
    {
      this.tela := tela;
      this.estado := estado;
      mensagens := [];
      emails := [];
    }

    /** `aprovar_solicitacao` / `rejeitar_solicitacao` of the screen, over the selected requests. */
    method ExecutarAcao(a: Acao, u: Usuario, queryset: seq<nat>)
      requires NoEstado(estado, queryset)
      modifies this
      ensures var r := ExecutarLote(tela, a, u, old(estado), queryset);
        estado == r.estado && mensagens == old(mensagens) + r.mensagens && emails == old(emails) + r.emails
    {
      var e, ms, es := estado, mensagens, emails;
      ghost var r := Executar(tela, a, u, e, queryset, 0, |queryset|);
      ghost var alvo := Lote(r.estado, ms + r.mensagens, es + r.emails);
      var i := 0;
      while i < |queryset|
        invariant 0 <= i <= |queryset|
        invariant NoEstado(e, queryset)
        invariant Completa(tela, a, u, e, queryset, i, ms, es, alvo)
      {
        var pk := queryset[i];
        var item := e.movs[pk];
        if Impedido(tela, a, u, item) || JaFeito(a, item) {
          CompletaParada(tela, a, u, e, queryset, i, ms, es, alvo);
          ms := ms + [Mensagem(Aviso, TextoParada(tela, a, u, item))];
          break;
        }
        CompletaPasso(tela, a, u, e, queryset, i, ms, es, alvo);
        e := Transicao(a, e, pk, u.pk);
        ms := ms + [Mensagem(Info, TextoSucesso(a))];
        es := es + [EmailPara(a, item)];
        i := i + 1;
      }
      if i == |queryset| {
        CompletaFim(tela, a, u, e, queryset, i, ms, es, alvo);
      }
      estado, mensagens, emails := e, ms, es;
    }

    /**
     * `save_model`: a new request gets the current user as requester; on
     * the movements screen it is refused, and nothing is saved, while the
     * asset has a pending request. An edit keeps the requester.
     */
    method SaveModel(u: Usuario, id: Option<nat>, dados: Rascunho) returns (pk: Option<nat>)
      requires id.Some? ==> id.value < |estado.movs|
      modifies this
      ensures mensagens == old(mensagens) && emails == old(emails)
      ensures id.None? && tela == TelaMovimentacao && TemPendente(old(estado), dados.bem) ==>
        pk.None? && estado == old(estado)
      ensures id.None? && !(tela == TelaMovimentacao && TemPendente(old(estado), dados.bem)) ==>
        pk == Some(|old(estado).movs|)
        && estado == Criar(old(estado), dados.bem, dados.origem, dados.destino, dados.quantidade, u.pk)
      ensures id.Some? ==> pk == id && estado == Editar(old(estado), id.value, dados)
    {
      if id.Some? {
        estado := Editar(estado, id.value, dados);
        pk := id;
      } else if tela == TelaMovimentacao && TemPendente(estado, dados.bem) {
        pk := None;
      } else {
        pk := Some(|estado.movs|);
        estado := Criar(estado, dados.bem, dados.origem, dados.destino, dados.quantidade, u.pk);
      }
    }
  }
}
