/**
 * The admin form of an asset: the unit price as typed with the currency
 * mask, the cross-field rules between "no number", "old format" and the
 * patrimonial number, and the model validation run with the "no number"
 * flag temporarily cleared.
 */
module BemPatrimonialForm {
  import opened Base
  import opened Constantes
  import Mascaras

  // ---------------------------------------------------------------------
  // Decimal parsing
  // ---------------------------------------------------------------------

  /** A decimal number `coeficiente * 10^-casas`, as Python's `Decimal` keeps it. */
  datatype Decimal = Decimal(coeficiente: int, casas: nat)

  /** Position of the first `c` in `s`, or `|s|` when there is none. */
  function IndexOf(s: string, c: char): (r: nat)
    ensures r <= |s| && (r < |s| ==> s[r] == c)
  {
    if s == [] || s[0] == c then 0 else 1 + IndexOf(s[1..], c)
  }

  lemma {:induction false} IndexOfAusente(s: string, c: char)
    requires c !in s
    ensures IndexOf(s, c) == |s|
  {
    if s != [] {
      IndexOfAusente(s[1..], c);
    }
  }

  lemma {:induction false} IndexOfConcat(a: string, b: string, c: char)
    requires c !in a
    ensures IndexOf(a + b, c) == |a| + IndexOf(b, c)
  {
    if a != [] {
      assert (a + b)[1..] == a[1..] + b;
      IndexOfConcat(a[1..], b, c);
    } else {
      assert a + b == b;
    }
  }

  /** An unsigned decimal: digits with at most one decimal point, and at least one digit. */
  function ParseSemSinal(corpo: string): (r: Option<Decimal>)
    ensures r.Some? ==> r.value.coeficiente >= 0
  {
    var i := IndexOf(corpo, '.');
    var inteiros := corpo[..i];
    var fracao := if i < |corpo| then corpo[i + 1..] else [];
    if AllDigits(inteiros) && AllDigits(fracao) && inteiros + fracao != [] then
      Some(Decimal(Value(inteiros) * Pow10(|fracao|) + Value(fracao), |fracao|))
    else
      None
  }

  /** `Decimal(s)` for the plain forms: an optional sign, then an unsigned decimal. */
  function ParseDecimal(s: string): (r: Option<Decimal>)
    ensures r.Some? && r.value.coeficiente < 0 ==> s != [] && s[0] == '-'
  {
    if s != [] && s[0] == '-' then
      match ParseSemSinal(s[1..])
      case None => None
      case Some(d) => Some(d.(coeficiente := -d.coeficiente))
    else if s != [] && s[0] == '+' then ParseSemSinal(s[1..])
    else ParseSemSinal(s)
  }

  /** Digits, a point and digits parse to the number they spell, scaled by the fraction length. */
  lemma {:induction false} ParseDecimalPonto(u: string, c: string)
    requires AllDigits(u) && AllDigits(c) && u != []
    ensures AllDigits(u + c)
    ensures ParseDecimal(u + "." + c) == Some(Decimal(Value(u + c), |c|))
  {
    var corpo := u + "." + c;
    assert corpo[0] == u[0];
    ParseSemSinalPonto(u, c);
  }

  lemma {:induction false} ParseSemSinalPonto(u: string, c: string)
    requires AllDigits(u) && AllDigits(c) && u != []
    ensures AllDigits(u + c)
    ensures ParseSemSinal(u + "." + c) == Some(Decimal(Value(u + c), |c|))
  {
    var corpo := u + "." + c;
    assert IndexOf(corpo, '.') == |u| by {
      NoSepInDigits(u, '.');
      IndexOfConcat(u, "." + c, '.');
      assert corpo == u + ("." + c);
    }
    assert corpo[..|u|] == u && corpo[|u| + 1..] == c;
    assert ParseSemSinal(corpo) == Some(Decimal(Value(u) * Pow10(|c|) + Value(c), |c|));
    ValueConcat(u, c);
  }

  /** A leading minus in front of an unsigned number negates it. */
  lemma ParseDecimalMenos(corpo: string, m: int, k: nat)
    requires corpo != [] && IsDigit(corpo[0]) && ParseDecimal(corpo) == Some(Decimal(m, k))
    ensures ParseDecimal("-" + corpo) == Some(Decimal(-m, k))
  {
    assert ParseSemSinal(corpo) == Some(Decimal(m, k));
    var s := "-" + corpo;
    assert s[0] == '-' && s[1..] == corpo;
  }

  // ---------------------------------------------------------------------
  // clean_valor_unitario
  // ---------------------------------------------------------------------

  datatype ErroValor = Obrigatorio | Negativo | Invalido

  function MensagemValor(e: ErroValor): string {
    match e
    case Obrigatorio => "Informe o valor unitário (obrigatório)."
    case Negativo => "O valor unitário não pode ser negativo."
    case Invalido => "Valor inválido. Use o formato 0,00 ou 0.000,00."
  }

  /**
   * Which error a negative amount ends with: `ComoEscrito` is the code,
   * where the negative-amount error is raised inside the `try` and replaced
   * by the generic one; `Corrigido` lets it through.
   */
  datatype Tratamento = ComoEscrito | Corrigido

  /**
   * The unit price typed in Brazilian notation: blank is required, the
   * thousands dots are dropped and the decimal comma becomes a point.
   */
  function LerValorUnitario(dado: Option<string>, t: Tratamento): (r: Result<Decimal, ErroValor>)
    ensures r.Ok? ==> r.value.coeficiente >= 0
    ensures r == Err(Obrigatorio) <==> PyStrip(dado.GetOr("")) == []
  {
    var raw := PyStrip(dado.GetOr(""));
    if raw == [] then Err(Obrigatorio)
    else
      var norm := Trocar(Remove(raw, '.'), ',', '.');
      match ParseDecimal(norm)
      case None => Err(Invalido)
      case Some(v) =>
        if v.coeficiente < 0 then Err(if t == ComoEscrito then Invalido else Negativo)
        else Ok(v)
  }

  /** `clean_valor_unitario`, as written. */
  function CleanValorUnitario(dado: Option<string>): (r: Result<Decimal, ErroValor>)
    ensures r.Err? ==> r.error != Negativo
  {
    LerValorUnitario(dado, ComoEscrito)
  }

  /**
   * `clean_valor_unitario` with the negative-amount message reaching the user:
   * it is given exactly for well-formed negative amounts.
   */
  function CleanValorUnitarioCorrigido(dado: Option<string>): (r: Result<Decimal, ErroValor>)
    ensures var raw := PyStrip(dado.GetOr(""));
      var v := ParseDecimal(Trocar(Remove(raw, '.'), ',', '.'));
      (r == Err(Negativo) <==> raw != [] && v.Some? && v.value.coeficiente < 0)
      && (r.Ok? <==> raw != [] && v.Some? && v.value.coeficiente >= 0)
  {
    LerValorUnitario(dado, Corrigido)
  }

  /** The server reads back, in cents, exactly the amount the currency mask shows. */
  lemma {:induction false} CleanValorMascara(digits: string, t: Tratamento)
    requires AllDigits(digits)
    ensures LerValorUnitario(Some(Mascaras.FormatBRMoneyFromDigits(digits)), t)
      == Ok(Decimal(Value(digits), 2))
  {
    var r := Mascaras.FormatBRMoneyFromDigits(digits);
    var u, c := MascaraNormalizada(digits);
    ParseDecimalPonto(u, c);
    Mascaras.MoneyShape(digits);
    Mascaras.MoedaSemBordasPy(r);
  }

  /**
   * What the server parses from a masked amount: the thousands dots are gone
   * and the comma is a point; the digits are the normalised ones.
   */
  lemma {:induction false} MascaraNormalizada(digits: string) returns (u: string, c: string)
    requires AllDigits(digits)
    ensures AllDigits(u) && AllDigits(c) && u != [] && |c| == 2
    ensures AllDigits(u + c) && Value(u + c) == Value(digits)
    ensures Trocar(Remove(Mascaras.FormatBRMoneyFromDigits(digits), '.'), ',', '.') == u + "." + c
  {
    var p := Mascaras.NormalizarDigitos(digits);
    u, c := p[..|p| - 2], p[|p| - 2..];
    AllDigitsSlice(p, 0, |p| - 2);
    AllDigitsSlice(p, |p| - 2, |p|);
    assert p == u + c;
    Mascaras.NormalizarCorreto(digits);
    Mascaras.MoneyPartes(digits);
    var r := Mascaras.FormatBRMoneyFromDigits(digits);
    var g := GroupThousands(u, '.');
    assert r == g + "," + c;
    GroupThousandsDigits(u, '.');
    SemPontos(g, c);
    VirgulaParaPonto(u, c);
  }

  lemma {:induction false} SemPontos(g: string, c: string)
    requires AllDigits(c)
    ensures Remove(g + "," + c, '.') == Remove(g, '.') + "," + c
  {
    NoSepInDigits(c, '.');
    RemoveConcat(g + ",", c, '.');
    RemoveConcat(g, ",", '.');
    RemoveAbsent(c, '.');
    assert Remove(",", '.') == ",";
  }

  lemma {:induction false} VirgulaParaPonto(u: string, c: string)
    requires AllDigits(u) && AllDigits(c)
    ensures Trocar(u + "," + c, ',', '.') == u + "." + c
  {
    NoSepInDigits(u, ',');
    NoSepInDigits(c, ',');
    TrocarConcat(u + ",", c, ',', '.');
    TrocarConcat(u, ",", ',', '.');
    TrocarAusente(u, ',', '.');
    TrocarAusente(c, ',', '.');
    assert Trocar(",", ',', '.') == ".";
  }

  /** A leading minus survives the normalisation unchanged. */
  lemma {:induction false} NormalizarMenos(x: string)
    ensures Trocar(Remove("-" + x, '.'), ',', '.') == "-" + Trocar(Remove(x, '.'), ',', '.')
  {
    RemoveConcat("-", x, '.');
    assert Remove("-", '.') == "-";
    TrocarConcat("-", Remove(x, '.'), ',', '.');
    assert Trocar("-", ',', '.') == "-";
  }

  /**
   * A negative amount typed with the mask and a leading minus is refused, but
   * as written the refusal carries the generic "invalid" message.
   */
  lemma {:induction false} CleanValorNegativo(digits: string)
    requires AllDigits(digits) && Value(digits) > 0
    ensures CleanValorUnitario(Some("-" + Mascaras.FormatBRMoneyFromDigits(digits))) == Err(Invalido)
    ensures CleanValorUnitarioCorrigido(Some("-" + Mascaras.FormatBRMoneyFromDigits(digits))) == Err(Negativo)
  {
    LerValorNegativo(digits, ComoEscrito);
    LerValorNegativo(digits, Corrigido);
  }

  lemma {:induction false} LerValorNegativo(digits: string, t: Tratamento)
    requires AllDigits(digits) && Value(digits) > 0
    ensures LerValorUnitario(Some("-" + Mascaras.FormatBRMoneyFromDigits(digits)), t)
      == Err(if t == ComoEscrito then Invalido else Negativo)
  {
    var r := Mascaras.FormatBRMoneyFromDigits(digits);
    assert PyStrip("-" + r) == "-" + r by {
      Mascaras.MoneyShape(digits);
      Mascaras.MoedaSemBordasPy(r);
      MenosSemBordas(r);
    }
    var u, c := MascaraNormalizada(digits);
    assert Trocar(Remove("-" + r, '.'), ',', '.') == "-" + (u + "." + c) by {
      NormalizarMenos(r);
    }
    var corpo := u + "." + c;
    var m: int := Value(u + c);
    assert corpo[0] == u[0];
    ParseDecimalPonto(u, c);
    ParseDecimalMenos(corpo, m, 2);
    assert m == Value(digits);
  }

  /** A leading minus is not whitespace, so stripping keeps it. */
  lemma MenosSemBordas(r: string)
    requires PyStrip(r) == r && r != []
    ensures PyStrip("-" + r) == "-" + r
  {
    PyStripSemBordas(r);
    assert !IsPySpace(r[|r| - 1]);
    PyStripSemBordas("-" + r);
  }

  /** "-1,00": one concrete amount on which the two treatments disagree. */
  lemma CleanValorMenosUm()
    ensures CleanValorUnitario(Some("-1,00")) == Err(Invalido)
    ensures CleanValorUnitarioCorrigido(Some("-1,00")) == Err(Negativo)
  {
    Mascaras.MoneyExemplo100();
    assert "-" + "1,00" == "-1,00";
    assert Value("100") == 100 by {
      assert "100"[..2] == "10" && "10"[..1] == "1" && "1"[..0] == "";
    }
    CleanValorNegativo("100");
  }

  // ---------------------------------------------------------------------
  // clean
  // ---------------------------------------------------------------------

  /** The cleaned fields `clean` reads and writes; a missing status is `None`. */
  datatype Dados = Dados(
    status: Option<StatusBem>,
    semNumeracao: bool,
    formatoAntigo: bool,
    numero: Option<string>)

  datatype ErroClean = AmbosMarcados | NumeroObrigatorio

  /** A primary key that Python counts as set. */
  predicate Persistido(pk: Option<nat>) {
    pk.Some? && pk.value != 0
  }

  /** `numero and str(numero).strip()`: a number that is not blank. */
  predicate NumeroPreenchido(numero: Option<string>) {
    numero.Some? && PyStrip(numero.value) != []
  }

  /**
   * `clean`: the status defaults to "awaiting approval" on creation; the two
   * flags exclude each other; "no number" clears the number and the
   * old-format flag; otherwise a non-blank number is required.
   */
  function Clean(pk: Option<nat>, cleaned: Dados): (r: Result<Dados, ErroClean>)
    ensures r == Err(AmbosMarcados) <==> cleaned.semNumeracao && cleaned.formatoAntigo
    ensures r == Err(NumeroObrigatorio) <==> !cleaned.semNumeracao && !NumeroPreenchido(cleaned.numero)
    ensures r.Ok? ==>
      r.value.semNumeracao == cleaned.semNumeracao && !(r.value.semNumeracao && r.value.formatoAntigo)
    ensures r.Ok? && r.value.semNumeracao ==> r.value.numero.None? && !r.value.formatoAntigo
    ensures r.Ok? && !r.value.semNumeracao ==>
      NumeroPreenchido(r.value.numero) && r.value.numero == cleaned.numero
      && r.value.formatoAntigo == cleaned.formatoAntigo
    ensures r.Ok? && (Persistido(pk) || cleaned.status.Some?) ==> r.value.status == cleaned.status
    ensures r.Ok? && !Persistido(pk) && cleaned.status.None? ==> r.value.status == Some(AguardandoAprovacao)
  {
    var c1 := if !Persistido(pk) && cleaned.status.None? then cleaned.(status := Some(AguardandoAprovacao)) else cleaned;
    var sem := c1.semNumeracao;
    var antigo := c1.formatoAntigo;
    if sem && antigo then Err(AmbosMarcados)
    else
      var c2 := if sem then c1.(numero := None, formatoAntigo := false) else c1;
      if !sem && !NumeroPreenchido(c1.numero) then Err(NumeroObrigatorio)
      else Ok(c2)
  }

  /** Cleaning what `clean` accepted changes nothing. */
  lemma CleanIdempotente(pk: Option<nat>, cleaned: Dados)
    requires Clean(pk, cleaned).Ok?
    ensures Clean(pk, Clean(pk, cleaned).value) == Clean(pk, cleaned)
  {
  }

  // ---------------------------------------------------------------------
  // _post_clean
  // ---------------------------------------------------------------------

  /** The asset being edited, as far as `_post_clean` touches it. */
  class Instancia {
    var pk: Option<nat>
    var semNumeracao: bool

    constructor (pk: Option<nat>, semNumeracao: bool)
      ensures this.pk == pk && this.semNumeracao == semNumeracao
    {
      this.pk := pk;
      this.semNumeracao := semNumeracao;
    }
  }

  class BemPatrimonialAdminForm {
    const instancia: Instancia
    /** `cleaned_data.get("numero_patrimonial")`. */
    var numeroLimpo: Option<string>
    /** The errors the model validation has added to the form. */
    var erros: seq<string>

    constructor (instancia: Instancia, numeroLimpo: Option<string>)
      ensures this.instancia == instancia && this.numeroLimpo == numeroLimpo && erros == []
    {
      this.instancia := instancia;
      this.numeroLimpo := numeroLimpo;
      erros := [];
    }

    /**
     * `_post_clean`: when an existing asset comes with a number, the model
     * validation (`validar`, which sees the instance's flag) runs with
     * "no number" cleared, and the flag is put back afterwards.
     */
    method PostClean(validar: bool -> seq<string>)
      modifies this, instancia
      ensures instancia.pk == old(instancia.pk) && instancia.semNumeracao == old(instancia.semNumeracao)
      ensures numeroLimpo == old(numeroLimpo)
      ensures erros == old(erros) + validar(
        if Persistido(instancia.pk) && numeroLimpo.Some? && numeroLimpo.value != [] then false
        else instancia.semNumeracao)
    {
      if Persistido(instancia.pk) {
        var np := numeroLimpo;
        if np.Some? && np.value != [] {
          var originalSem := instancia.semNumeracao;
          instancia.semNumeracao := false;
          erros := erros + validar(instancia.semNumeracao);
          instancia.semNumeracao := originalSem;
          return;
        }
      }
      erros := erros + validar(instancia.semNumeracao);
    }
  }
}
