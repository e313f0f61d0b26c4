/**
 * The admin form of a movement request: the ordered checks on the asset,
 * the origin and destination units, the quantity and, when an existing
 * request is edited by an inventory operator, its requester.
 */
module MovimentacaoForm {
  import opened Base

  /** Python's `int(s)` on text: surrounding whitespace, an optional sign, then digits. */
  function PyInt(s: string): (r: Option<int>)
    ensures r.Some? ==> PyStrip(s) != []
  {
    var t := PyStrip(s);
    var negativo := t != [] && t[0] == '-';
    var corpo := if t != [] && (t[0] == '-' || t[0] == '+') then t[1..] else t;
    if corpo != [] && AllDigits(corpo) then Some(if negativo then -(Value(corpo) as int) else Value(corpo))
    else None
  }

  /** A digit string is read as its own value. */
  lemma PyIntDigits(s: string)
    requires s != [] && AllDigits(s)
    ensures PyInt(s) == Some(Value(s) as int)
  {
    PyStripSemBordas(s);
  }

  /** The submitted fields; a missing key is `None`. */
  datatype Pedido = Pedido(
    bem: Option<string>,
    origem: Option<string>,
    destino: Option<string>,
    quantidade: Option<string>)

  /**
   * A Python object as far as identity and equality go: `ref` is what `is`
   * compares, `pk` is the database row it stands for.
   */
  datatype Usuario = Usuario(ref: nat, pk: nat, operadorInventario: bool)

  datatype ErroMov =
    | CampoInvalido
    | ChaveNaoNumerica  // the asset lookup's ValueError, which no `except` catches
    | BemInexistente
    | OrigemSemEstoque
    | OperacaoNaoPermitida
    | QuantidadeInvalida
    | SaldoInsuficiente
    | OutroSolicitante

  /**
   * The fixed message of each check; the first and the third carry the text
   * of the exception caught, and the uncaught error has none.
   */
  function Mensagem(e: ErroMov): Option<string> {
    match e
    case CampoInvalido => None
    case ChaveNaoNumerica => None
    case BemInexistente => None
    case OrigemSemEstoque => Some("Unidade origem não tem quantidade suficiente para movimentação.")
    case OperacaoNaoPermitida => Some("Operação não permitida.")
    case QuantidadeInvalida => Some("Quantidade deve ser válida.")
    case SaldoInsuficiente => Some("Unidade origem não tem quantidade suficiente para movimentação.")
    case OutroSolicitante => Some("Não é permitido alterar uma movimentação solicitada por outro usuário.")
  }

  /**
   * A request that passed every check: the asset and origin keys as the
   * lookups coerced them, the destination as submitted, the quantity and
   * what the origin holds.
   */
  datatype Valido = Valido(bem: int, origem: int, destino: string, quantidade: int, saldoOrigem: int)

  /**
   * How the requester is compared with the current user: `Identidade` is the
   * `is not` of the code, `ChavePrimaria` compares the rows.
   */
  datatype Comparacao = Identidade | ChavePrimaria

  predicate MesmoUsuario(a: Usuario, b: Usuario, c: Comparacao) {
    if c == Identidade then a.ref == b.ref else a.pk == b.pk
  }

  predicate CamposValidos(p: Pedido) {
    p.bem.Some? && p.origem.Some? && p.destino.Some? && p.quantidade.Some?
    && PyInt(p.quantidade.value).Some?
  }

  /**
   * The check sequence of `clean`. `estoque` maps each asset's primary key
   * to the quantity each unit, by primary key, holds of it; `editando` is
   * "the instance already has a primary key"; `solicitante` is the
   * request's requester. The lookups coerce the submitted keys with `int`,
   * as an integer primary key does; the destination is compared with the
   * origin as submitted text.
   */
  function CleanCom(
    p: Pedido, estoque: map<int, map<int, int>>, editando: bool,
    usuario: Usuario, solicitante: Usuario, c: Comparacao): (r: Result<Valido, ErroMov>)
    ensures r == Err(CampoInvalido) <==> !CamposValidos(p)
    ensures r == Err(ChaveNaoNumerica) <==> CamposValidos(p) && PyInt(p.bem.value).None?
    ensures r == Err(BemInexistente) <==>
      CamposValidos(p) && PyInt(p.bem.value).Some? && PyInt(p.bem.value).value !in estoque
    ensures r.Ok? ==>
      CamposValidos(p)
      && Some(r.value.bem) == PyInt(p.bem.value) && r.value.bem in estoque
      && Some(r.value.origem) == PyInt(p.origem.value) && r.value.origem in estoque[r.value.bem]
      && r.value.saldoOrigem == estoque[r.value.bem][r.value.origem]
      && r.value.destino == p.destino.value && p.destino.value != p.origem.value
      && Some(r.value.quantidade) == PyInt(p.quantidade.value)
      && 0 < r.value.quantidade <= r.value.saldoOrigem
      && (editando && usuario.operadorInventario ==> MesmoUsuario(solicitante, usuario, c))
  {
    if !CamposValidos(p) then Err(CampoInvalido)
    else if PyInt(p.bem.value).None? then Err(ChaveNaoNumerica)
    else
      var bem, origemPk, destino := PyInt(p.bem.value).value, PyInt(p.origem.value), p.destino.value;
      var quantidade := PyInt(p.quantidade.value).value;
      if bem !in estoque then Err(BemInexistente)
      else if origemPk.None? || origemPk.value !in estoque[bem] then Err(OrigemSemEstoque)
      else
      var origem := origemPk.value;
      if destino == p.origem.value then Err(OperacaoNaoPermitida)
      else if quantidade <= 0 then Err(QuantidadeInvalida)
      else if estoque[bem][origem] < quantidade then Err(SaldoInsuficiente)
      else if editando && usuario.operadorInventario && !MesmoUsuario(solicitante, usuario, c) then
        Err(OutroSolicitante)
      else Ok(Valido(bem, origem, destino, quantidade, estoque[bem][origem]))
  }

  /** `MovimentacaoBemPatrimonialForm.clean`, as written. */
  function Clean(
    p: Pedido, estoque: map<int, map<int, int>>, editando: bool,
    usuario: Usuario, solicitante: Usuario): (r: Result<Valido, ErroMov>)
  {
    CleanCom(p, estoque, editando, usuario, solicitante, Identidade)
  }

  /** The check sequence with the requester compared by primary key. */
  function CleanCorrigido(
    p: Pedido, estoque: map<int, map<int, int>>, editando: bool,
    usuario: Usuario, solicitante: Usuario): (r: Result<Valido, ErroMov>)
  {
    CleanCom(p, estoque, editando, usuario, solicitante, ChavePrimaria)
  }

  /** The asset key reads as an integer naming a stored asset. */
  predicate BemEncontrado(p: Pedido, estoque: map<int, map<int, int>>) {
    CamposValidos(p) && PyInt(p.bem.value).Some? && PyInt(p.bem.value).value in estoque
  }

  /** The origin key reads as an integer naming a unit with a stock row of the asset. */
  predicate OrigemEncontrada(p: Pedido, estoque: map<int, map<int, int>>)
    requires BemEncontrado(p, estoque)
  {
    PyInt(p.origem.value).Some? && PyInt(p.origem.value).value in estoque[PyInt(p.bem.value).value]
  }

  /** What the origin holds of the asset. */
  function SaldoOrigem(p: Pedido, estoque: map<int, map<int, int>>): int
    requires BemEncontrado(p, estoque) && OrigemEncontrada(p, estoque)
  {
    estoque[PyInt(p.bem.value).value][PyInt(p.origem.value).value]
  }

  /**
   * The order of the checks: a missing stock row at the origin, or an
   * origin that is not a number, is reported whatever the destination and
   * the quantity are, and origin equal to destination is reported whatever
   * the quantity is.
   */
  lemma OrdemDasVerificacoes(
    p: Pedido, estoque: map<int, map<int, int>>, editando: bool,
    usuario: Usuario, solicitante: Usuario, c: Comparacao)
    requires BemEncontrado(p, estoque)
    ensures !OrigemEncontrada(p, estoque) ==>
      CleanCom(p, estoque, editando, usuario, solicitante, c) == Err(OrigemSemEstoque)
    ensures OrigemEncontrada(p, estoque) && p.destino == p.origem ==>
      CleanCom(p, estoque, editando, usuario, solicitante, c) == Err(OperacaoNaoPermitida)
  {
  }

  /**
   * Every well-formed transfer from a unit holding enough, to another unit,
   * by someone allowed to edit it, is accepted: the checks ask for nothing more.
   */
  lemma CleanAceita(
    p: Pedido, estoque: map<int, map<int, int>>, editando: bool,
    usuario: Usuario, solicitante: Usuario, c: Comparacao)
    requires BemEncontrado(p, estoque) && OrigemEncontrada(p, estoque)
    requires p.destino != p.origem
    requires 0 < PyInt(p.quantidade.value).value <= SaldoOrigem(p, estoque)
    requires editando && usuario.operadorInventario ==> MesmoUsuario(solicitante, usuario, c)
    ensures CleanCom(p, estoque, editando, usuario, solicitante, c).Ok?
  {
    assert p.destino.value != p.origem.value;
  }

  /**
   * As written, `request.user` is a lazily evaluated wrapper, never the very
   * object loaded as the request's requester, so the identity test always
   * fails: an operator editing their own request is refused. Compared by
   * primary key, the same edit is accepted.
   */
  lemma OperadorEditandoPropria(
    p: Pedido, estoque: map<int, map<int, int>>, usuario: Usuario, solicitante: Usuario)
    requires BemEncontrado(p, estoque) && OrigemEncontrada(p, estoque)
    requires p.destino != p.origem
    requires 0 < PyInt(p.quantidade.value).value <= SaldoOrigem(p, estoque)
    requires usuario.operadorInventario && solicitante.pk == usuario.pk && solicitante.ref != usuario.ref
    ensures Clean(p, estoque, true, usuario, solicitante) == Err(OutroSolicitante)
    ensures CleanCorrigido(p, estoque, true, usuario, solicitante).Ok?
  {
    assert p.destino.value != p.origem.value;
  }

  /** The values of the digit strings the examples below use. */
  lemma Valores()
    ensures Value("1") == 1 && Value("2") == 2 && Value("10") == 10
    ensures Value("01") == 1 && Value("010") == 10
  {
    assert "1"[..0] == [] && "2"[..0] == [] && "0"[..0] == [];
    assert "10"[..1] == "1" && "01"[..1] == "0" && "010"[..2] == "01";
  }

  lemma LerUm()
    ensures PyInt("1") == Some(1) && PyInt("2") == Some(2)
  {
    Valores();
    PyIntDigits("1");
    PyIntDigits("2");
  }

  lemma LerDez()
    ensures PyInt("10") == Some(10)
  {
    Valores();
    PyIntDigits("10");
  }

  lemma LerZeroUm()
    ensures PyInt("01") == Some(1)
  {
    Valores();
    PyIntDigits("01");
  }

  lemma LerZeroDez()
    ensures PyInt("010") == Some(10)
  {
    Valores();
    PyIntDigits("010");
  }

  /** One concrete instance of the discrepancy: operator 7 moving 1 of the 2 units held at unit 1. */
  lemma OperadorSeteEditando()
    ensures var p := Pedido(Some("10"), Some("1"), Some("2"), Some("1"));
      var estoque := map[10 := map[1 := 2]];
      var operador := Usuario(100, 7, true);
      var carregado := Usuario(101, 7, true);
      Clean(p, estoque, true, operador, carregado) == Err(OutroSolicitante)
      && CleanCorrigido(p, estoque, true, operador, carregado).Ok?
  {
    var p := Pedido(Some("10"), Some("1"), Some("2"), Some("1"));
    LerUm();
    LerDez();
    assert p.destino != p.origem by {
      assert "2"[0] != "1"[0];
    }
    OperadorEditandoPropria(p, map[10 := map[1 := 2]], Usuario(100, 7, true), Usuario(101, 7, true));
  }

  /**
   * The lookups read keys as integers, so "010" names asset 10 and "01"
   * unit 1; the destination, compared as text, is then "different" from
   * the origin even when it names the same unit, and a transfer from unit 1
   * to unit 1 is accepted.
   */
  lemma ChavesComZeros(usuario: Usuario, c: Comparacao)
    ensures var estoque := map[10 := map[1 := 2]];
      CleanCom(Pedido(Some("010"), Some("01"), Some("2"), Some("1")), estoque, false, usuario, usuario, c)
        == Ok(Valido(10, 1, "2", 1, 2))
      && CleanCom(Pedido(Some("10"), Some("1"), Some("01"), Some("1")), estoque, false, usuario, usuario, c)
        == Ok(Valido(10, 1, "01", 1, 2))
      && CleanCom(Pedido(Some("10"), Some("1"), Some("1"), Some("1")), estoque, false, usuario, usuario, c)
        == Err(OperacaoNaoPermitida)
  {
    ChaveBemComZeros(usuario, c);
    DestinoComZeros(usuario, c);
    DestinoIgual(usuario, c);
  }

  lemma ChaveBemComZeros(usuario: Usuario, c: Comparacao)
    ensures CleanCom(Pedido(Some("010"), Some("01"), Some("2"), Some("1")), map[10 := map[1 := 2]], false, usuario, usuario, c)
      == Ok(Valido(10, 1, "2", 1, 2))
  {
    var p := Pedido(Some("010"), Some("01"), Some("2"), Some("1"));
    var estoque := map[10 := map[1 := 2]];
    LerUm();
    LerZeroUm();
    LerZeroDez();
    assert p.destino != p.origem by {
      assert |"2"| != |"01"|;
    }
    assert BemEncontrado(p, estoque) && OrigemEncontrada(p, estoque) && SaldoOrigem(p, estoque) == 2;
    CleanAceita(p, estoque, false, usuario, usuario, c);
  }

  lemma DestinoComZeros(usuario: Usuario, c: Comparacao)
    ensures CleanCom(Pedido(Some("10"), Some("1"), Some("01"), Some("1")), map[10 := map[1 := 2]], false, usuario, usuario, c)
      == Ok(Valido(10, 1, "01", 1, 2))
  {
    LerUm();
    LerDez();
    assert "01" != "1" by {
      assert |"01"| != |"1"|;
    }
  }

  lemma DestinoIgual(usuario: Usuario, c: Comparacao)
    ensures CleanCom(Pedido(Some("10"), Some("1"), Some("1"), Some("1")), map[10 := map[1 := 2]], false, usuario, usuario, c)
      == Err(OperacaoNaoPermitida)
  {
    LerUm();
    LerDez();
  }
}
