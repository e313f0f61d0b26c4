/**
 * The client-side masks of the asset form: the patrimonial-number mask
 * `ddd.ddddddddd-d`, the Brazilian currency mask `1.234,56`, and the
 * validation of the rows of the "multiple assets" mode.
 */
module Mascaras {
  import opened Base

  function Min(a: nat, b: nat): nat {
    if a <= b then a else b
  }

  /** JavaScript's `s.slice(i, j)` for `0 <= i <= j`: bounds past the end are clamped. */
  function Fatia(s: string, i: nat, j: nat): (r: string)
    requires i <= j
  {
    s[Min(i, |s|)..Min(j, |s|)]
  }

  // ---------------------------------------------------------------------
  // onlyDigits
  // ---------------------------------------------------------------------

  /** `onlyDigits(s)`: a missing value counts as the empty string. */
  function OnlyDigits(s: Option<string>): (r: string)
    ensures AllDigits(r) && |r| <= |s.GetOr("")|
  {
    DigitsOnly(s.GetOr(""))
  }

  /** A string is left unchanged exactly when it holds digits only. */
  lemma {:induction false} OnlyDigitsFixo(s: string)
    ensures OnlyDigits(Some(s)) == s <==> AllDigits(s)
  {
    if AllDigits(s) {
      DigitsOnlyOfDigits(s);
    }
  }

  /** Filtering works character by character: it distributes over concatenation. */
  lemma {:induction false} OnlyDigitsConcat(a: string, b: string)
    ensures OnlyDigits(Some(a + b)) == OnlyDigits(Some(a)) + OnlyDigits(Some(b))
    ensures OnlyDigits(Some([])) == [] && OnlyDigits(None) == []
  {
    DigitsOnlyConcat(a, b);
  }

  // ---------------------------------------------------------------------
  // fmt: the patrimonial-number mask
  // ---------------------------------------------------------------------

  /** `fmt(d)`: at most 13 characters, laid out as `ddd`, `ddd.d…` or `ddd.ddddddddd-d`. */
  function Fmt(d: Option<string>): (r: string)
    ensures |r| <= 15
  {
    var t := Fatia(d.GetOr(""), 0, 13);
    var p1, p2, p3 := Fatia(t, 0, 3), Fatia(t, 3, 12), Fatia(t, 12, 13);
    if |t| <= 3 then p1
    else if |t| <= 12 then p1 + "." + p2
    else p1 + "." + p2 + "-" + p3
  }

  /** The pattern `^\d{3}\.\d{9}-\d$` set on the field when the number is in the new format. */
  predicate MascaraCompleta(r: string) {
    |r| == 15 && AllDigits(r[..3]) && r[3] == '.' && AllDigits(r[4..13])
    && r[13] == '-' && IsDigit(r[14])
  }

  /**
   * The layout by length: with `n` the number of digits kept (at most 13),
   * a dot follows the first three digits once there are more than three,
   * a dash precedes the thirteenth, and the digits read back in order are
   * exactly the first `n` digits of the input.
   */
  lemma {:induction false} FmtLayout(d: string)
    requires AllDigits(d)
    ensures var n := Min(13, |d|); var r := Fmt(Some(d));
      |r| == n + (if n <= 3 then 0 else if n <= 12 then 1 else 2)
      && (n > 3 ==> r[3] == '.')
      && (n == 13 ==> r[13] == '-')
      && OnlyDigits(Some(r)) == d[..n]
  {
    var n := Min(13, |d|);
    var t := d[..n];
    AllDigitsSlice(d, 0, n);
    var p1, p2, p3 := Fatia(t, 0, 3), Fatia(t, 3, 12), Fatia(t, 12, 13);
    if n <= 3 {
      assert p1 == t;
      DigitsOnlyOfDigits(t);
    } else if n <= 12 {
      AllDigitsSlice(t, 0, 3);
      AllDigitsSlice(t, 3, n);
      DigitsOnlyOfDigits(p1);
      DigitosSeparados(p1, p2, '.');
      assert p1 + p2 == t;
    } else {
      AllDigitsSlice(t, 0, 3);
      AllDigitsSlice(t, 3, 12);
      AllDigitsSlice(t, 12, 13);
      DigitsOnlyOfDigits(p1);
      DigitosSeparados(p1, p2, '.');
      DigitosSeparados(p1 + "." + p2, p3, '-');
      assert p1 + p2 + p3 == t;
    }
  }

  /** Filtering digits drops a separator placed between two digit strings. */
  lemma {:induction false} DigitosSeparados(a: string, b: string, sep: char)
    requires !IsDigit(sep) && AllDigits(b)
    ensures DigitsOnly(a + [sep] + b) == DigitsOnly(a) + b
  {
    var x := a + [sep];
    DigitsOnlyConcat(x, b);
    DigitsOnlyConcat(a, [sep]);
    assert DigitsOnly([sep]) == [] by {
      assert [sep][1..] == [];
    }
    DigitsOnlyOfDigits(b);
  }

  /** Thirteen or more digits are masked into the full `ddd.ddddddddd-d` pattern. */
  lemma {:induction false} FmtMascaraCompleta(d: string)
    requires AllDigits(d) && |d| >= 13
    ensures MascaraCompleta(Fmt(Some(d)))
  {
    var t := d[..13];
    var r := Fmt(Some(d));
    assert r == t[..3] + "." + t[3..12] + "-" + t[12..13];
    assert r[..3] == t[..3] && r[4..13] == t[3..12] && r[14] == t[12];
    AllDigitsSlice(d, 0, 3);
    AllDigitsSlice(d, 3, 12);
  }

  /**
   * Re-masking is stable: the input handler sets the field to
   * `fmt(onlyDigits(value))`, and applying it to its own output changes nothing.
   */
  lemma {:induction false} FmtEstavel(x: Option<string>)
    ensures var m := Fmt(Some(OnlyDigits(x)));
      Fmt(Some(OnlyDigits(Some(m)))) == m
  {
    var d := OnlyDigits(x);
    var m := Fmt(Some(d));
    var n := Min(13, |d|);
    FmtLayout(d);
    assert OnlyDigits(Some(m)) == d[..n];
    assert Fatia(d[..n], 0, 13) == Fatia(d, 0, 13);
  }

  // ---------------------------------------------------------------------
  // formatBRMoneyFromDigits: the currency mask
  // ---------------------------------------------------------------------

  /**
   * The digit string the currency mask renders: empty becomes "0", leading
   * zeros are dropped (all zeros become "0"), and the result is left-padded
   * with zeros to three digits, so that there are always cents and a unit.
   */
  function NormalizarDigitos(digits: string): (p: string)
    requires AllDigits(digits)
    ensures AllDigits(p) && |p| >= 3
  {
    var d0 := if digits == [] then "0" else digits;
    var d1 := if LStripZeros(d0) == [] then "0" else LStripZeros(d0);
    var d2 := if |d1| == 1 then "0" + d1 else d1;
    if |d2| == 2 then "0" + d2 else d2
  }

  /** `formatBRMoneyFromDigits(digits)`: grouped units, a comma, two cents digits. */
  function FormatBRMoneyFromDigits(digits: string): (r: string)
    requires AllDigits(digits)
  {
    var p := NormalizarDigitos(digits);
    GroupThousands(p[..|p| - 2], '.') + "," + p[|p| - 2..]
  }

  /** The pattern `^\d{1,3}(\.\d{3})*,\d{2}$` the field is checked against on load. */
  predicate MoedaBR(r: string) {
    |r| >= 4 && r[|r| - 3] == ',' && AllDigits(r[|r| - 2..]) && WellGrouped(r[..|r| - 3], '.')
  }

  /**
   * The normalised digits denote the same amount in cents, have at least
   * three digits and no leading zero beyond those three: this fixes them.
   */
  lemma {:induction false} NormalizarCorreto(digits: string)
    requires AllDigits(digits)
    ensures var p := NormalizarDigitos(digits);
      Value(p) == Value(digits) && (|p| > 3 ==> p[0] != '0')
  {
    var d0 := if digits == [] then "0" else digits;
    var s := LStripZeros(d0);
    LStripZerosShape(d0);
    LStripZerosValue(d0);
    assert Value(d0) == Value(digits) by {
      if digits == [] {
        assert Value("0") == 0;
      }
    }
    var d1 := if s == [] then "0" else s;
    assert Value(d1) == Value(digits) by {
      if s == [] {
        assert Value("0") == 0;
      }
    }
    ZFillValue(d1, 3);
    assert NormalizarDigitos(digits) == ZFill(d1, 3);
  }

  /** Normalising a normalised string changes nothing. */
  lemma {:induction false} NormalizarIdempotente(digits: string)
    requires AllDigits(digits)
    ensures NormalizarDigitos(NormalizarDigitos(digits)) == NormalizarDigitos(digits)
  {
    var p := NormalizarDigitos(digits);
    var q := NormalizarDigitos(p);
    NormalizarCorreto(digits);
    NormalizarCorreto(p);
    if |q| != |p| {
      // Both have at least three digits, and the longer one has no leading zero,
      // so it denotes at least 10^(length-1), more than the shorter one can.
      var (lo, hi) := if |q| < |p| then (q, p) else (p, q);
      ValuePositive(hi);
      ValueBound(lo);
      ValueLeading(hi);
      assert false;
    }
    ValueInjective(q, p);
  }

  /** A digit string with a nonzero first digit of length `n` is at least `10^(n-1)`. */
  lemma {:induction false} ValueLeading(s: string)
    requires AllDigits(s) && s != [] && s[0] != '0'
    ensures Value(s) >= Pow10(|s| - 1)
  {
    if |s| > 1 {
      var p := s[..|s| - 1];
      assert p[0] == s[0];
      ValueLeading(p);
      assert Value(s) >= Value(p) * 10;
    } else {
      assert s[..0] == [];
    }
  }

  /** No input leads to anything but `0,00` when it holds no nonzero digit. */
  lemma {:induction false} MoneyZero(digits: string)
    requires AllDigits(digits) && forall i :: 0 <= i < |digits| ==> digits[i] == '0'
    ensures FormatBRMoneyFromDigits(digits) == "0,00"
  {
    var d0 := if digits == [] then "0" else digits;
    LStripZerosShape(d0);
    var s := LStripZeros(d0);
    if s != [] {
      assert false;
    }
    assert NormalizarDigitos(digits) == "000";
    assert "000"[..1] == "0" && "000"[1..] == "00";
  }

  /** The output always matches the currency pattern. */
  lemma {:induction false} MoneyShape(digits: string)
    requires AllDigits(digits)
    ensures MoedaBR(FormatBRMoneyFromDigits(digits))
  {
    var p := NormalizarDigitos(digits);
    var u, c := p[..|p| - 2], p[|p| - 2..];
    AllDigitsSlice(p, 0, |p| - 2);
    AllDigitsSlice(p, |p| - 2, |p|);
    GroupThousandsShape(u, '.');
    var g := GroupThousands(u, '.');
    var r := g + "," + c;
    assert r[..|r| - 3] == g && r[|r| - 2..] == c;
  }

  /** The digits of the output, read in order, are the normalised input. */
  lemma {:induction false} MoneyDigits(digits: string)
    requires AllDigits(digits)
    ensures OnlyDigits(Some(FormatBRMoneyFromDigits(digits))) == NormalizarDigitos(digits)
  {
    var p := NormalizarDigitos(digits);
    var u, c := p[..|p| - 2], p[|p| - 2..];
    AllDigitsSlice(p, 0, |p| - 2);
    AllDigitsSlice(p, |p| - 2, |p|);
    var g := GroupThousands(u, '.');
    GroupThousandsOnlyDigits(u, '.');
    DigitsOnlyConcat(g + ",", c);
    DigitsOnlyConcat(g, ",");
    DigitsOnlyOfDigits(c);
    assert DigitsOnly(",") == [];
    assert u + c == p;
  }

  /** Where the units and the cents of the normalised digits end up in the output. */
  lemma {:induction false} MoneyPartes(digits: string)
    requires AllDigits(digits)
    ensures var p := NormalizarDigitos(digits); var r := FormatBRMoneyFromDigits(digits);
      |r| >= 4 && r[..|r| - 3] == GroupThousands(p[..|p| - 2], '.') && r[|r| - 2..] == p[|p| - 2..]
  {
    var p := NormalizarDigitos(digits);
    var g, c := GroupThousands(p[..|p| - 2], '.'), p[|p| - 2..];
    var r := g + "," + c;
    assert r[..|r| - 3] == g && r[|r| - 2..] == c;
  }

  /** The output shows the amount in cents that the typed digits denote. */
  lemma {:induction false} MoneyValor(digits: string)
    requires AllDigits(digits)
    ensures var r := FormatBRMoneyFromDigits(digits);
      |r| >= 4 && AllDigits(Remove(r[..|r| - 3], '.')) && AllDigits(r[|r| - 2..])
      && Value(Remove(r[..|r| - 3], '.')) * 100 + Value(r[|r| - 2..]) == Value(digits)
  {
    var p := NormalizarDigitos(digits);
    var u, c := p[..|p| - 2], p[|p| - 2..];
    AllDigitsSlice(p, 0, |p| - 2);
    AllDigitsSlice(p, |p| - 2, |p|);
    MoneyPartes(digits);
    assert p == u + c;
    ValorAgrupado(u, c);
    NormalizarCorreto(digits);
  }

  /** Units grouped with dots, followed by two cents digits, keep their value in cents. */
  lemma {:induction false} ValorAgrupado(u: string, c: string)
    requires AllDigits(u) && AllDigits(c) && |c| == 2
    ensures AllDigits(Remove(GroupThousands(u, '.'), '.'))
    ensures Value(Remove(GroupThousands(u, '.'), '.')) * 100 + Value(c) == Value(u + c)
  {
    GroupThousandsDigits(u, '.');
    ValueConcat(u, c);
  }

  /**
   * The input and blur handlers set the field to
   * `formatBRMoneyFromDigits(digits of value)`; doing so to their own output
   * changes nothing.
   */
  lemma {:induction false} MoneyEstavel(digits: string)
    requires AllDigits(digits)
    ensures var r := FormatBRMoneyFromDigits(digits);
      FormatBRMoneyFromDigits(OnlyDigits(Some(r))) == r
  {
    MoneyDigits(digits);
    NormalizarIdempotente(digits);
  }

  /**
   * The load-time fix-up: a non-blank trimmed value that does not match the
   * currency pattern is replaced by the mask of its digits; anything else is
   * left as it is.
   */
  function InicializarValor(valor: string): (r: string) {
    var raw := JsTrim(valor);
    if raw != [] && !MoedaBR(raw) then FormatBRMoneyFromDigits(DigitsOnly(raw)) else valor
  }

  /** After loading, the field is blank or, once trimmed, a well-formed amount. */
  lemma {:induction false} InicializarValorCorreto(valor: string)
    ensures var r := InicializarValor(valor);
      JsTrim(r) == [] || MoedaBR(JsTrim(r))
  {
    var raw := JsTrim(valor);
    if raw != [] && !MoedaBR(raw) {
      var r := FormatBRMoneyFromDigits(DigitsOnly(raw));
      MoneyShape(DigitsOnly(raw));
      MoedaSemBordas(r);
    }
  }

  /** A masked amount is already in its loaded form. */
  lemma {:induction false} InicializarMascarado(digits: string)
    requires AllDigits(digits)
    ensures var r := FormatBRMoneyFromDigits(digits); InicializarValor(r) == r
  {
    var r := FormatBRMoneyFromDigits(digits);
    MoneyShape(digits);
    MoedaSemBordas(r);
  }

  /** An amount starts and ends with a digit, so trimming leaves it alone. */
  lemma {:induction false} MoedaSemBordas(r: string)
    requires MoedaBR(r)
    ensures JsTrim(r) == r
  {
    WellGroupedHead(r[..|r| - 3], '.');
    assert r[0] == r[..|r| - 3][0];
    assert r[|r| - 1] == r[|r| - 2..][1];
  }

  /** An amount also has no Python whitespace at either end. */
  lemma {:induction false} MoedaSemBordasPy(r: string)
    requires MoedaBR(r)
    ensures PyStrip(r) == r
  {
    WellGroupedHead(r[..|r| - 3], '.');
    assert r[0] == r[..|r| - 3][0];
    assert r[|r| - 1] == r[|r| - 2..][1];
    PyStripSemBordas(r);
  }

  /** One hundred cents are shown as "1,00". */
  lemma MoneyExemplo100()
    ensures FormatBRMoneyFromDigits("100") == "1,00"
  {
    assert LStripZeros("100") == "100";
    assert NormalizarDigitos("100") == "100";
    assert "100"[..1] == "1" && "100"[1..] == "00";
  }

  // ---------------------------------------------------------------------
  // validateMultiRows
  // ---------------------------------------------------------------------

  /** One row of the multiple-assets table: the number typed and the "sem numeração" box. */
  datatype Linha = Linha(numero: string, sem: bool)

  datatype ErroLinha = SemLinhas | NumeroAusente(linha: nat)

  /** The message shown for each error; rows are numbered from 1. */
  function Mensagem(e: ErroLinha): string {
    match e
    case SemLinhas => "Adicione ao menos uma linha no modo Múltiplos Bens."
    case NumeroAusente(i) =>
      "Linha " + NatToString(i) + ": Informe o Nº Patrimonial ou marque \"Sem numeração\"."
  }

  /** A row needs attention when its box is unchecked and its trimmed number is blank. */
  predicate LinhaInvalida(l: Linha) {
    !l.sem && JsTrim(l.numero) == []
  }

  /** The errors the first `n` rows produce, in row order. */
  function ErrosLinhas(rows: seq<Linha>, n: nat): seq<ErroLinha>
    requires n <= |rows|
  {
    if n == 0 then []
    else ErrosLinhas(rows, n - 1) + (if LinhaInvalida(rows[n - 1]) then [NumeroAusente(n)] else [])
  }

  function ErrosEsperados(rows: seq<Linha>): seq<ErroLinha> {
    (if rows == [] then [SemLinhas] else []) + ErrosLinhas(rows, |rows|)
  }

  /**
   * `validateMultiRows()`: collects the errors in row order, marks each row
   * as in error or not, and reports whether the table is valid.
   */
  method ValidateMultiRows(rows: seq<Linha>) returns (errors: seq<ErroLinha>, marcadas: seq<bool>, ok: bool)
    ensures errors == ErrosEsperados(rows)
    ensures |marcadas| == |rows| && forall i :: 0 <= i < |rows| ==> marcadas[i] == LinhaInvalida(rows[i])
    ensures ok <==> errors == []
  {
    errors := [];
    if |rows| == 0 {
      errors := errors + [SemLinhas];
    }
    marcadas := [];
    var i := 0;
    while i < |rows|
      invariant 0 <= i <= |rows|
      invariant errors == (if rows == [] then [SemLinhas] else []) + ErrosLinhas(rows, i)
      invariant |marcadas| == i && forall k :: 0 <= k < i ==> marcadas[k] == LinhaInvalida(rows[k])
    {
      var idx := i + 1;
      var npVal := JsTrim(rows[i].numero);
      var semVal := rows[i].sem;
      if !semVal && npVal == [] {
        errors := errors + [NumeroAusente(idx)];
        marcadas := marcadas + [true];
      } else {
        marcadas := marcadas + [false];
      }
      i := i + 1;
    }
    ok := |errors| == 0;
  }

  /**
   * Every error names a row, from 1 up to `n`, that needs attention, and
   * every such row is named.
   */
  lemma {:induction false} ErrosLinhasCorreto(rows: seq<Linha>, n: nat, e: ErroLinha)
    requires n <= |rows|
    ensures e in ErrosLinhas(rows, n) <==>
      (e.NumeroAusente? && 1 <= e.linha <= n && LinhaInvalida(rows[e.linha - 1]))
  {
    if n > 0 {
      ErrosLinhasCorreto(rows, n - 1, e);
    }
  }

  /** Each row is named at most once, and rows are named in increasing order. */
  lemma {:induction false} ErrosLinhasOrdenados(rows: seq<Linha>, n: nat)
    requires n <= |rows|
    ensures forall i, j :: 0 <= i < j < |ErrosLinhas(rows, n)| ==>
      ErrosLinhas(rows, n)[i].NumeroAusente? && ErrosLinhas(rows, n)[j].NumeroAusente?
      && ErrosLinhas(rows, n)[i].linha < ErrosLinhas(rows, n)[j].linha
  {
    if n > 0 {
      ErrosLinhasOrdenados(rows, n - 1);
      var a := ErrosLinhas(rows, n - 1);
      var r := ErrosLinhas(rows, n);
      assert r == a + (if LinhaInvalida(rows[n - 1]) then [NumeroAusente(n)] else []);
      forall i | 0 <= i < |a| ensures a[i].NumeroAusente? && a[i].linha < n {
        ErrosLinhasCorreto(rows, n - 1, a[i]);
      }
      forall i, j | 0 <= i < j < |r|
        ensures r[i].NumeroAusente? && r[j].NumeroAusente? && r[i].linha < r[j].linha
      {
        assert r[i] == a[i];
        if j < |a| {
          assert r[j] == a[j];
        } else {
          assert r[j] == NumeroAusente(n);
        }
      }
    } else {
      assert ErrosLinhas(rows, n) == [];
    }
  }

  /** The table is valid exactly when it has rows and none of them needs attention. */
  lemma {:induction false} ValidoSse(rows: seq<Linha>)
    ensures ErrosEsperados(rows) == [] <==> rows != [] && forall i :: 0 <= i < |rows| ==> !LinhaInvalida(rows[i])
  {
    if rows != [] {
      assert ErrosEsperados(rows) == ErrosLinhas(rows, |rows|);
      if ErrosEsperados(rows) == [] {
        forall i | 0 <= i < |rows| ensures !LinhaInvalida(rows[i]) {
          ErrosLinhasCorreto(rows, |rows|, NumeroAusente(i + 1));
        }
      } else {
        ErrosLinhasCorreto(rows, |rows|, ErrosEsperados(rows)[0]);
      }
    }
  }
}
