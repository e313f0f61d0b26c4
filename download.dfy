/**
 * The CIMBPM document download view: who may fetch a movement's document,
 * the regeneration of a missing file, and the attachment's file name.
 */
module Download {
  import opened Base

  type UaId = nat

  /** The parts of the logged-in user the view reads. */
  datatype Usuario = Usuario(operador: bool, gestor: bool, unidade: Option<UaId>)

  /** Why a 404 is raised. */
  datatype Motivo = MovimentacaoAusente | DocumentoAusente | ErroGeracao

  /** The view's outcomes: the login redirect, a 404, a 403, or the PDF attachment under `nome`. */
  datatype Resposta = Login | NaoEncontrado(motivo: Motivo) | SemPermissao | Arquivo(nome: string)

  /** A movement as the view sees it. */
  datatype Documento = Documento(origem: UaId, destino: UaId, temDocumento: bool, arquivoExiste: bool, numero: string)

  /**
   * An operador who is not a gestor may fetch only documents of movements
   * whose origin or destination is their own unit; everyone else may fetch any.
   */
  predicate Autorizado(u: Usuario, origem: UaId, destino: UaId) {
    !(u.operador && !u.gestor) || u.unidade == Some(origem) || u.unidade == Some(destino)
  }

  /** `f"CIMBPM_{numero.replace('.', '_')}.pdf"`. */
  function NomeArquivo(numero: string): (r: string)
    ensures |r| == |numero| + 11
  {
    "CIMBPM_" + Trocar(numero, '.', '_') + ".pdf"
  }

  /**
   * The view's answer. `regerado` says whether the forced regeneration
   * of a missing file succeeds; that code is not part of this model.
   */
  function Resultado(autenticado: bool, u: Usuario, m: Option<Documento>, regerado: bool): Resposta {
    if !autenticado then Login
    else if m.None? then NaoEncontrado(MovimentacaoAusente)
    else if !m.value.temDocumento then NaoEncontrado(DocumentoAusente)
    else if !Autorizado(u, m.value.origem, m.value.destino) then SemPermissao
    else if !m.value.arquivoExiste && !regerado then NaoEncontrado(ErroGeracao)
    else Arquivo(NomeArquivo(m.value.numero))
  }

  /** A movement without a document is a 404 whoever asks: the check comes before authorization. */
  lemma SemDocumento(u: Usuario, d: Documento, regerado: bool)
    requires !d.temDocumento
    ensures Resultado(true, u, Some(d), regerado) == NaoEncontrado(DocumentoAusente)
  {
  }

  /**
   * For an existing document, access is refused exactly to an operador who
   * is not a gestor and whose unit (if any) is neither the origin nor the destination.
   */
  lemma NegadoSse(u: Usuario, d: Documento, regerado: bool)
    requires d.temDocumento
    ensures Resultado(true, u, Some(d), regerado) == SemPermissao
      <==> u.operador && !u.gestor && u.unidade != Some(d.origem) && u.unidade != Some(d.destino)
  {
  }

  /** A gestor, or any user who is not an operador, is never refused. */
  lemma GestorSempre(u: Usuario, m: Option<Documento>, regerado: bool)
    requires u.gestor || !u.operador
    ensures Resultado(true, u, m, regerado) != SemPermissao
  {
  }

  /** An operador without a unit is refused every existing document. */
  lemma OperadorSemUnidade(d: Documento, regerado: bool)
    requires d.temDocumento
    ensures Resultado(true, Usuario(true, false, None), Some(d), regerado) == SemPermissao
  {
  }

  /** An authorized request gets the file when it exists or is regenerated, and a 404 when regeneration fails. */
  lemma Entrega(u: Usuario, d: Documento, regerado: bool)
    requires d.temDocumento && Autorizado(u, d.origem, d.destino)
    ensures Resultado(true, u, Some(d), regerado).Arquivo? <==> d.arquivoExiste || regerado
    ensures Resultado(true, u, Some(d), regerado).Arquivo? ==>
      Resultado(true, u, Some(d), regerado).nome == NomeArquivo(d.numero)
  {
  }

  /** `Trocar` back with the roles swapped. */
  lemma {:induction false} TrocarVolta(s: string, de: char, para: char)
    requires para !in s
    ensures Trocar(Trocar(s, de, para), para, de) == s
  {
    if s != [] {
      TrocarVolta(s[1..], de, para);
    }
  }

  lemma {:induction false} TrocarSemDe(s: string, de: char, para: char)
    requires de != para
    ensures de !in Trocar(s, de, para)
  {
    if s != [] {
      TrocarSemDe(s[1..], de, para);
    }
  }

  /**
   * The file name holds no dot before its extension, and for a number
   * without underscores (digits and dots) the number is read back from it.
   */
  lemma NomeArquivoVolta(numero: string)
    requires '_' !in numero
    ensures var r := NomeArquivo(numero);
      r[..7] == "CIMBPM_" && r[|r| - 4..] == ".pdf"
      && '.' !in r[7..|r| - 4]
      && Trocar(r[7..|r| - 4], '_', '.') == numero
  {
    var r := NomeArquivo(numero);
    var meio := Trocar(numero, '.', '_');
    assert r[7..|r| - 4] == meio;
    TrocarSemDe(numero, '.', '_');
    TrocarVolta(numero, '.', '_');
  }

  /** A movement record whose document file the view may regenerate. */
  class Movimentacao {
    const origem: UaId
    const destino: UaId
    var temDocumento: bool
    var arquivoExiste: bool
    var numero: string

    constructor(origem: UaId, destino: UaId, temDocumento: bool, arquivoExiste: bool, numero: string)
      ensures this.origem == origem && this.destino == destino
      ensures this.temDocumento == temDocumento && this.arquivoExiste == arquivoExiste && this.numero == numero
    {
      this.origem := origem;
      this.destino := destino;
      this.temDocumento := temDocumento;
      this.arquivoExiste := arquivoExiste;
      this.numero := numero;
    }

    function Estado(): Documento
      reads this
    {
      Documento(origem, destino, temDocumento, arquivoExiste, numero)
    }
  }

  /**
   * `download_documento_cimbpm`: the answer is `Resultado` of the record as
   * it was, and the only change is the file appearing after a successful regeneration.
   */
  method Baixar(autenticado: bool, u: Usuario, m: Movimentacao?, regerado: bool) returns (r: Resposta)
    modifies m
    ensures r == Resultado(autenticado, u, if m == null then None else Some(old(m.Estado())), regerado)
    ensures m != null ==> m.temDocumento == old(m.temDocumento) && m.numero == old(m.numero)
    ensures m != null ==> m.arquivoExiste == (old(m.arquivoExiste) || (r.Arquivo? && regerado))
  {
    if !autenticado {
      return Login;
    }
    if m == null {
      return NaoEncontrado(MovimentacaoAusente);
    }
    if !m.temDocumento {
      return NaoEncontrado(DocumentoAusente);
    }
    if u.operador && !u.gestor {
      var ua := u.unidade;
      if Some(m.origem) != ua && Some(m.destino) != ua {
        return SemPermissao;
      }
    }
    if !m.arquivoExiste {
      if !regerado {
        return NaoEncontrado(ErroGeracao);
      }
      m.arquivoExiste := true;
    }
    r := Arquivo(NomeArquivo(m.numero));
  }
}
