/**
 * Document-number rules of the CIMBPM transfer document: the three-digit
 * unit code, the year-scoped sequence number, Brazilian money formatting,
 * the ordering of the assets listed in the document and the user name shown
 * on it.
 */
module Cimbpm {
  import opened Base

  // ---------------------------------------------------------------------
  // Unit code: extrair_codigo_ua
  // ---------------------------------------------------------------------

  /** Python's `s.split(".")[-1]`: the text after the last dot. */
  function UltimoGrupo(s: string): (r: string)
    ensures '.' !in r
    ensures |r| <= |s|
  {
    if s == [] then []
    else if s[|s| - 1] == '.' then []
    else UltimoGrupo(s[..|s| - 1]) + [s[|s| - 1]]
  }

  /** The last group is a suffix of the code, preceded by a dot unless it is the whole code. */
  lemma {:induction false} UltimoGrupoEhSufixo(s: string)
    ensures var r := UltimoGrupo(s);
      r == s[|s| - |r|..] && (|r| < |s| ==> s[|s| - |r| - 1] == '.')
  {
    if s != [] && s[|s| - 1] != '.' {
      var p := s[..|s| - 1];
      UltimoGrupoEhSufixo(p);
      var r := UltimoGrupo(s);
      assert r == UltimoGrupo(p) + [s[|s| - 1]];
      assert s == p + [s[|s| - 1]];
    }
  }

  /** A code without dots is its own last group. */
  lemma {:induction false} UltimoGrupoSemPonto(s: string)
    requires '.' !in s
    ensures UltimoGrupo(s) == s
  {
    if s != [] {
      var p := s[..|s| - 1];
      assert '.' !in p by {
        forall i | 0 <= i < |p| ensures p[i] != '.' { assert p[i] == s[i]; }
      }
      UltimoGrupoSemPonto(p);
      assert s == p + [s[|s| - 1]];
    }
  }

  /**
   * `(d.lstrip("0") or "0").zfill(3)[-3:]`: a digit string cut or
   * left-padded to exactly three digits.
   */
  function TresDigitos(d: string): (r: string)
    requires AllDigits(d)
    ensures |r| == 3 && AllDigits(r)
  {
    var ultimo := LStripZeros(d);
    var u := if ultimo == [] then "0" else ultimo;
    var z := ZFill(u, 3);
    AllDigitsSlice(z, |z| - 3, |z|);
    z[|z| - 3..]
  }

  lemma TresDigitosValor(d: string)
    requires AllDigits(d)
    ensures Value(TresDigitos(d)) == Value(d) % 1000
  {
    var ultimo := LStripZeros(d);
    var u := if ultimo == [] then "0" else ultimo;
    var z := ZFill(u, 3);
    assert TresDigitos(d) == z[|z| - 3..];
    calc {
      Value(TresDigitos(d));
      { SuffixValue(z, 3); }
      Value(z) % Pow10(3);
      { ZFillValue(u, 3); ZeroOuValor(d); }
      Value(d) % Pow10(3);
    }
    assert Pow10(3) == 1000;
  }

  /** `d.lstrip("0") or "0"` keeps the value. */
  lemma ZeroOuValor(d: string)
    requires AllDigits(d)
    ensures var ultimo := LStripZeros(d);
      Value(if ultimo == [] then "0" else ultimo) == Value(d)
  {
    LStripZerosValue(d);
    assert "0" == Zeros(1);
    ZerosValue(1);
  }

  /**
   * The three-digit code of an administrative unit: the digits of the last
   * dot-separated group (of the whole code when it has no dot), without
   * leading zeros, left-padded to three and cut to the last three.
   */
  function ExtrairCodigoUa(codigo: string): (r: string)
    ensures |r| == 3 && AllDigits(r)
  {
    var apenas := DigitsOnly(codigo);
    if apenas == [] then "000"
    else TresDigitos(if '.' in codigo then DigitsOnly(UltimoGrupo(codigo)) else apenas)
  }

  /** A code without any digit gives "000", as "" and "ABC" do. */
  lemma ExtrairCodigoUaSemDigitos(codigo: string)
    requires DigitsOnly(codigo) == []
    ensures ExtrairCodigoUa(codigo) == "000"
  {
  }

  /** The code denotes the last group's digits modulo 1000. */
  lemma ExtrairCodigoUaValor(codigo: string)
    ensures Value(ExtrairCodigoUa(codigo)) == Value(DigitsOnly(UltimoGrupo(codigo))) % 1000
  {
    var g := UltimoGrupo(codigo);
    if DigitsOnly(codigo) == [] {
      assert ExtrairCodigoUa(codigo) == "000";
      UltimoGrupoSemDigitos(codigo);
      assert Value(DigitsOnly(g)) == 0;
      assert "000" == Zeros(3);
      ZerosValue(3);
    } else if '.' in codigo {
      assert ExtrairCodigoUa(codigo) == TresDigitos(DigitsOnly(g));
      TresDigitosValor(DigitsOnly(g));
    } else {
      UltimoGrupoSemPonto(codigo);
      assert ExtrairCodigoUa(codigo) == TresDigitos(DigitsOnly(g));
      TresDigitosValor(DigitsOnly(g));
    }
  }

  lemma UltimoGrupoSemDigitos(codigo: string)
    requires DigitsOnly(codigo) == []
    ensures DigitsOnly(UltimoGrupo(codigo)) == []
  {
    var g := UltimoGrupo(codigo);
    UltimoGrupoEhSufixo(codigo);
    var k := |codigo| - |g|;
    var sufixo := codigo[k..];
    assert g == sufixo;
    forall i | 0 <= i < |g| ensures !IsDigit(g[i]) {
      assert sufixo[i] == codigo[k + i];
      SemDigitoEm(codigo, k + i);
    }
    DigitsOnlyNoDigit(g);
  }

  /** A text that keeps no digit has none at any position. */
  lemma {:induction false} SemDigitoEm(s: string, i: nat)
    requires DigitsOnly(s) == [] && i < |s|
    ensures !IsDigit(s[i])
  {
    if i > 0 {
      SemDigitoEm(s[1..], i - 1);
    }
  }


  /** Everything up to the last dot is irrelevant: "01.16.10.379" has the code of "379". */
  lemma ExtrairCodigoUaUltimoGrupo(prefixo: string, grupo: string)
    requires '.' !in grupo
    ensures ExtrairCodigoUa(prefixo + "." + grupo) == ExtrairCodigoUa(grupo)
  {
    var s := prefixo + "." + grupo;
    UltimoGrupoSufixo(prefixo, grupo);
    ExtrairCodigoUaValor(s);
    ExtrairCodigoUaValor(grupo);
    ValueInjective(ExtrairCodigoUa(s), ExtrairCodigoUa(grupo));
  }

  lemma {:induction false} UltimoGrupoSufixo(prefixo: string, grupo: string)
    requires '.' !in grupo
    ensures UltimoGrupo(prefixo + "." + grupo) == grupo == UltimoGrupo(grupo)
  {
    UltimoGrupoSemPonto(grupo);
    UltimoGrupoPonto(prefixo, grupo);
  }

  lemma {:induction false} UltimoGrupoPonto(prefixo: string, grupo: string)
    requires '.' !in grupo
    ensures UltimoGrupo(prefixo + "." + grupo) == grupo
  {
    var s := prefixo + "." + grupo;
    if grupo == [] {
      assert s[|s| - 1] == '.';
    } else {
      var g' := grupo[..|grupo| - 1];
      assert '.' !in g' by {
        forall i | 0 <= i < |g'| ensures g'[i] != '.' { assert g'[i] == grupo[i]; }
      }
      assert s[..|s| - 1] == prefixo + "." + g';
      assert s[|s| - 1] == grupo[|grupo| - 1];
      UltimoGrupoPonto(prefixo, g');
      assert grupo == g' + [grupo[|grupo| - 1]];
    }
  }

  // ---------------------------------------------------------------------
  // Money: formatar_moeda_brasileira
  // ---------------------------------------------------------------------

  function Abs(x: int): nat {
    if x < 0 then -x else x
  }

  /**
   * `f"R$ {valor:,.2f}"` with `,` and `.` swapped, for an amount already at
   * two decimal places, given in cents.
   */
  function FormatarMoedaBrasileira(centavos: int): (r: string)
  {
    var a := Abs(centavos);
    "R$ " + (if centavos < 0 then "-" else "") + ParteInteira(a) + "," + Centavos(a)
  }

  /** The whole units of an amount in cents, grouped in thousands with `.`. */
  function ParteInteira(a: nat): string {
    GroupThousands(NatToString(a / 100), '.')
  }

  /** The two decimal places of an amount in cents. */
  function Centavos(a: nat): string {
    PadNat(a % 100, 2)
  }

  /**
   * `r` is `R$ `, then `k - 3` further characters, the integer part
   * without superfluous zeros in `\d{1,3}(\.\d{3})*` form, a comma and two
   * decimals, and it denotes `a` cents.
   */
  predicate TextoMoeda(r: string, k: nat, a: nat) {
    3 <= k && |r| >= k + 4 && r[..3] == "R$ "
    && r[|r| - 3] == ',' && AllDigits(r[|r| - 2..])
    && WellGrouped(r[k..|r| - 3], '.')
    && AllDigits(Remove(r[k..|r| - 3], '.'))
    && (|Remove(r[k..|r| - 3], '.')| > 1 ==> Remove(r[k..|r| - 3], '.')[0] != '0')
    && Value(Remove(r[k..|r| - 3], '.')) * 100 + Value(r[|r| - 2..]) == a
  }

  /**
   * The text has the money shape and denotes the amount's absolute value,
   * with a minus sign after `R$ ` exactly for negative amounts.
   */
  lemma FormatarMoedaBrasileiraForma(centavos: int)
    ensures var r := FormatarMoedaBrasileira(centavos);
      TextoMoeda(r, if centavos < 0 then 4 else 3, Abs(centavos))
      && (centavos < 0 <==> r[3] == '-')
  {
    var a := Abs(centavos);
    var r := FormatarMoedaBrasileira(centavos);
    if centavos < 0 {
      assert r == "R$ -" + ParteInteira(a) + "," + Centavos(a);
      MoedaTexto("R$ -", a);
    } else {
      assert r == "R$ " + ParteInteira(a) + "," + Centavos(a);
      MoedaTexto("R$ ", a);
    }
  }

  /** The digits and grouping of the parts carry over to the assembled text. */
  lemma MoedaTexto(prefixo: string, a: nat)
    requires prefixo == "R$ -" || prefixo == "R$ "
    ensures var r := prefixo + ParteInteira(a) + "," + Centavos(a);
      TextoMoeda(r, |prefixo|, a) && (prefixo == "R$ -" <==> r[3] == '-')
  {
    var g, c := ParteInteira(a), Centavos(a);
    MoedaPartes(a);
    MoedaFatias(prefixo, g, c);
    var r := prefixo + g + "," + c;
    assert r[..3] == prefixo[..3];
    assert prefixo == "R$ " ==> r[3] == g[0];
  }

  /** The integer part and the cents of a non-negative amount in cents. */
  lemma MoedaPartes(a: nat)
    ensures var g := ParteInteira(a);
      var c := Centavos(a);
      WellGrouped(g, '.') && IsDigit(g[0])
      && AllDigits(Remove(g, '.'))
      && (|Remove(g, '.')| > 1 ==> Remove(g, '.')[0] != '0')
      && |c| == 2 && AllDigits(c)
      && Value(Remove(g, '.')) * 100 + Value(c) == a
  {
    var n := NatToString(a / 100);
    var g := GroupThousands(n, '.');
    PadNatLength(a % 100, 2);
    GroupThousandsShape(n, '.');
    GroupThousandsDigits(n, '.');
    WellGroupedHead(g, '.');
  }

  /** Where the parts of `prefixo + g + "," + c` sit. */
  lemma MoedaFatias(prefixo: string, g: string, c: string)
    requires |c| == 2 && g != []
    ensures var r := prefixo + g + "," + c;
      |r| == |prefixo| + |g| + 3
      && r[..|prefixo|] == prefixo && r[|prefixo|] == g[0]
      && r[|prefixo|..|r| - 3] == g && r[|r| - 3] == ',' && r[|r| - 2..] == c
  {
  }

  // ---------------------------------------------------------------------
  // Assets of a movement: obter_bens_movimentacao
  // ---------------------------------------------------------------------

  datatype Bem = Bem(id: nat, numeroPatrimonial: Option<string>)

  /** A movement's item rows and the single asset of the older one-asset layout. */
  datatype Movimentacao = Movimentacao(itens: seq<Bem>, bemPatrimonial: Option<Bem>)

  /** The sort key `b.numero_patrimonial or ""`. */
  function Chave(b: Bem): string {
    b.numeroPatrimonial.GetOr("")
  }

  /** Python's `<` on strings: lexicographic on code points. */
  predicate Menor(a: string, b: string) {
    if a == [] then b != []
    else if b == [] then false
    else if a[0] != b[0] then a[0] < b[0]
    else Menor(a[1..], b[1..])
  }

  lemma {:induction false} MenorAssimetrico(a: string, b: string)
    requires Menor(a, b)
    ensures !Menor(b, a)
  {
    if a != [] && b != [] && a[0] == b[0] {
      MenorAssimetrico(a[1..], b[1..]);
    }
  }

  predicate Ordenada(s: seq<Bem>) {
    forall i :: 0 < i < |s| ==> !Menor(Chave(s[i]), Chave(s[i - 1]))
  }

  /** Inserts `x` before the first element whose key is not smaller than its own. */
  function Insere(x: Bem, t: seq<Bem>): (r: seq<Bem>)
    ensures |r| == |t| + 1
    ensures r[0] == x || (t != [] && r[0] == t[0])
  {
    if t == [] then [x]
    else if Menor(Chave(t[0]), Chave(x)) then [t[0]] + Insere(x, t[1..])
    else [x] + t
  }

  /** Stable insertion sort by `Chave`, the behaviour of Python's `sorted`. */
  function Ordena(s: seq<Bem>): (r: seq<Bem>)
    ensures |r| == |s|
  {
    if s == [] then [] else Insere(s[0], Ordena(s[1..]))
  }

  lemma {:induction false} InsereOrdenada(x: Bem, t: seq<Bem>)
    requires Ordenada(t)
    ensures Ordenada(Insere(x, t))
  {
    if t != [] && Menor(Chave(t[0]), Chave(x)) {
      InsereOrdenada(x, t[1..]);
      var r := Insere(x, t);
      assert r == [t[0]] + Insere(x, t[1..]);
      if r[1] == x {
        MenorAssimetrico(Chave(t[0]), Chave(x));
      }
    }
  }

  lemma {:induction false} OrdenaOrdenada(s: seq<Bem>)
    ensures Ordenada(Ordena(s))
  {
    if s != [] {
      OrdenaOrdenada(s[1..]);
      InsereOrdenada(s[0], Ordena(s[1..]));
    }
  }

  lemma {:induction false} OrdenaPermutacao(s: seq<Bem>)
    ensures multiset(Ordena(s)) == multiset(s)
  {
    if s != [] {
      OrdenaPermutacao(s[1..]);
      InsertPermutacao(s[0], Ordena(s[1..]));
      assert s == [s[0]] + s[1..];
    }
  }

  lemma {:induction false} InsertPermutacao(x: Bem, t: seq<Bem>)
    ensures multiset(Insere(x, t)) == multiset([x]) + multiset(t)
  {
    if t != [] && Menor(Chave(t[0]), Chave(x)) {
      InsertPermutacao(x, t[1..]);
      assert t == [t[0]] + t[1..];
    }
  }

  /** The elements of `s` whose key is `k`, in order. */
  function ComChave(s: seq<Bem>, k: string): (r: seq<Bem>)
    ensures |r| <= |s|
  {
    if s == [] then [] else (if Chave(s[0]) == k then [s[0]] else []) + ComChave(s[1..], k)
  }

  lemma {:induction false} MenorIrreflexivo(a: string)
    ensures !Menor(a, a)
  {
    if a != [] {
      MenorIrreflexivo(a[1..]);
    }
  }

  lemma {:induction false} InsereEstavel(x: Bem, t: seq<Bem>, k: string)
    ensures ComChave(Insere(x, t), k) == (if Chave(x) == k then [x] else []) + ComChave(t, k)
  {
    if t != [] {
      var r := Insere(x, t);
      if Menor(Chave(t[0]), Chave(x)) {
        InsereEstavel(x, t[1..], k);
        assert r[0] == t[0] && r[1..] == Insere(x, t[1..]);
        MenorIrreflexivo(Chave(x));
        assert !(Chave(x) == k && Chave(t[0]) == k);
      } else {
        assert r[0] == x && r[1..] == t;
      }
    }
  }

  /** Assets with equal keys keep their relative order: the sort is stable. */
  lemma {:induction false} OrdenaEstavel(s: seq<Bem>, k: string)
    ensures ComChave(Ordena(s), k) == ComChave(s, k)
  {
    if s != [] {
      OrdenaEstavel(s[1..], k);
      InsereEstavel(s[0], Ordena(s[1..]), k);
    }
  }

  /**
   * The movement's item assets, or its single older-layout asset when it
   * has no items, sorted by patrimonial number (a missing number as "").
   */
  function ObterBensMovimentacao(m: Movimentacao): (r: seq<Bem>)
    ensures Ordenada(r)
    ensures m.itens != [] ==> multiset(r) == multiset(m.itens)
    ensures m.itens == [] && m.bemPatrimonial.Some? ==> r == [m.bemPatrimonial.value]
    ensures m.itens == [] && m.bemPatrimonial.None? ==> r == []
  {
    var bens := if m.itens == [] && m.bemPatrimonial.Some? then [m.bemPatrimonial.value] else m.itens;
    OrdenaOrdenada(bens);
    OrdenaPermutacao(bens);
    Ordena(bens)
  }

  // ---------------------------------------------------------------------
  // User name: obter_nome_usuario
  // ---------------------------------------------------------------------

  datatype Usuario = Usuario(nome: Option<string>, username: string)

  /** The user's name when it is set and non-empty, otherwise the login name. */
  function ObterNomeUsuario(u: Usuario): (r: string)
    ensures u.nome.Some? && u.nome.value != [] ==> r == u.nome.value
    ensures u.nome.None? || u.nome.value == [] ==> r == u.username
  {
    if u.nome.Some? && u.nome.value != [] then u.nome.value else u.username
  }

  // ---------------------------------------------------------------------
  // Document number: gerar_numero_cimbpm
  // ---------------------------------------------------------------------

  /** Python's `s.split(".")`. */
  function Split(s: string): (r: seq<string>)
    ensures |r| >= 1
  {
    if s == [] then [""]
    else
      var resto := Split(s[1..]);
      if s[0] == '.' then [""] + resto else [[s[0]] + resto[0]] + resto[1..]
  }

  lemma {:induction false} SplitSemPonto(s: string)
    requires '.' !in s
    ensures Split(s) == [s]
  {
    if s != [] {
      assert '.' !in s[1..] by {
        forall i | 0 <= i < |s[1..]| ensures s[1..][i] != '.' { assert s[1..][i] == s[i + 1]; }
      }
      SplitSemPonto(s[1..]);
      assert s == [s[0]] + s[1..];
    }
  }

  lemma {:induction false} SplitConcat(a: string, b: string)
    requires '.' !in a
    ensures Split(a + "." + b) == [a] + Split(b)
  {
    if a == [] {
      assert a + "." + b == "." + b;
      assert ("." + b)[1..] == b;
    } else {
      var s := a + "." + b;
      assert '.' !in a[1..] by {
        forall i | 0 <= i < |a[1..]| ensures a[1..][i] != '.' { assert a[1..][i] == a[i + 1]; }
      }
      assert s[1..] == a[1..] + "." + b;
      SplitConcat(a[1..], b);
      assert a == [a[0]] + a[1..];
    }
  }

  lemma DigitosSemPonto(s: string)
    requires AllDigits(s)
    ensures '.' !in s
  {
    assert forall i :: 0 <= i < |s| ==> s[i] != '.';
  }

  /** Python's `f"{n:07d}"`-style padding, with the sign taking one of the places. */
  function PadInt(n: int, width: nat): (r: string)
  {
    if n < 0 then "-" + PadNat(-n, if width >= 1 then width - 1 else 0) else PadNat(n, width)
  }

  /** The text the year filter looks for at the end of a number. */
  function SufixoAno(ano: nat): string {
    "." + NatToString(ano)
  }

  /** `f"{origem}.{destino}.{seq:07d}.{ano}"` with both unit codes extracted. */
  function Montar(origem: string, destino: string, sequencial: int, ano: nat): string {
    ExtrairCodigoUa(origem) + "." + ExtrairCodigoUa(destino) + "." + PadInt(sequencial, 7) + SufixoAno(ano)
  }

  /** How the sequence is read back from an existing number. */
  datatype Leitura =
    | Substr7       // `Cast(Substr(numero, 9, 7), Integer)`, as the query is written
    | CampoInteiro  // the whole third dot-separated field

  /** PostgreSQL's `substr(s, inicio, n)` with a 1-based start, for `inicio >= 1`. */
  function Substr(s: string, inicio: nat, n: nat): (r: string)
    requires inicio >= 1
    ensures |r| <= n
  {
    if |s| < inicio then [] else s[inicio - 1..if |s| < inicio - 1 + n then |s| else inicio - 1 + n]
  }

  /** The blanks PostgreSQL's integer input skips around a number. */
  predicate IsCSpace(c: char) {
    c == ' ' || ('\t' <= c <= '\r')
  }

  function TrimC(s: string): (r: string)
    ensures |r| <= |s|
    ensures AllDigits(s) ==> r == s
  {
    if s != [] && IsCSpace(s[0]) then TrimC(s[1..])
    else if s != [] && IsCSpace(s[|s| - 1]) then TrimC(s[..|s| - 1])
    else s
  }

  /** PostgreSQL's text-to-integer cast; `None` is the error that aborts the query. */
  function PgCastInteger(t: string): (r: Option<int>)
    ensures r.Some? ==> -2147483648 <= r.value <= 2147483647
  {
    var s := TrimC(t);
    if s == [] then None
    else
      var corpo := if s[0] == '-' || s[0] == '+' then s[1..] else s;
      if corpo == [] || !AllDigits(corpo) then None
      else
        var v := if s[0] == '-' then -(Value(corpo) as int) else Value(corpo) as int;
        if -2147483648 <= v <= 2147483647 then Some(v) else None
  }

  lemma PgCastIntegerDigits(t: string)
    requires AllDigits(t) && t != [] && Value(t) <= 2147483647
    ensures PgCastInteger(t) == Some(Value(t))
  {
  }

  /** The sequence number read from an existing document number. */
  function Ler(l: Leitura, numero: string): Option<int> {
    match l
    case Substr7 => PgCastInteger(Substr(numero, 9, 7))
    case CampoInteiro =>
      var campos := Split(numero);
      if |campos| >= 3 && campos[2] != [] && AllDigits(campos[2]) then Some(Value(campos[2])) else None
  }

  predicate DoAno(numero: string, ano: nat) {
    EndsWith(numero, SufixoAno(ano))
  }

  /** Result of the `Max(...)` aggregation: an error, or the maximum (`None` for no rows). */
  datatype Agregado = ErroDeConversao | Maximo(valor: Option<int>)

  /** What the aggregation sees of one existing number: whether it is of the year, and its sequence as read. */
  datatype Lido = Lido(doAno: bool, valor: Option<int>)

  function Lidos(existentes: seq<string>, ano: nat, l: Leitura): (r: seq<Lido>)
    ensures |r| == |existentes|
    ensures forall i :: 0 <= i < |r| ==> r[i] == Lido(DoAno(existentes[i], ano), Ler(l, existentes[i]))
  {
    seq(|existentes|, i requires 0 <= i < |existentes| => Lido(DoAno(existentes[i], ano), Ler(l, existentes[i])))
  }

  /** The maximum over the readings of the year; an unreadable one aborts. */
  function Maior(xs: seq<Lido>): Agregado {
    if xs == [] then Maximo(None)
    else
      var resto := Maior(xs[1..]);
      if !xs[0].doAno then resto
      else
        match xs[0].valor
        case None => ErroDeConversao
        case Some(v) =>
          match resto
          case ErroDeConversao => ErroDeConversao
          case Maximo(m) => Maximo(Some(if m.Some? && m.value > v then m.value else v))
  }

  /** The maximum sequence over the numbers of the year; any unreadable one aborts. */
  function UltimoSequencial(existentes: seq<string>, ano: nat, l: Leitura): Agregado {
    Maior(Lidos(existentes, ano, l))
  }

  /** Every number of the year has a readable sequence. */
  predicate Legiveis(existentes: seq<string>, ano: nat, l: Leitura) {
    forall i :: 0 <= i < |existentes| && DoAno(existentes[i], ano) ==> Ler(l, existentes[i]).Some?
  }

  /** No number belongs to the year. */
  predicate NenhumDoAno(existentes: seq<string>, ano: nat) {
    forall i :: 0 <= i < |existentes| ==> !DoAno(existentes[i], ano)
  }

  predicate TodosLegiveis(xs: seq<Lido>) {
    forall i :: 0 <= i < |xs| && xs[i].doAno ==> xs[i].valor.Some?
  }

  lemma {:induction false} MaiorErro(xs: seq<Lido>)
    ensures Maior(xs).ErroDeConversao? <==> !TodosLegiveis(xs)
  {
    if xs != [] {
      MaiorErro(xs[1..]);
      if !TodosLegiveis(xs[1..]) {
        var j :| 0 <= j < |xs[1..]| && xs[1..][j].doAno && xs[1..][j].valor.None?;
        assert xs[j + 1] == xs[1..][j];
      }
      assert forall i :: 1 <= i < |xs| ==> xs[i] == xs[1..][i - 1];
    }
  }

  lemma {:induction false} MaiorAusente(xs: seq<Lido>)
    requires TodosLegiveis(xs)
    ensures Maior(xs).Maximo?
    ensures Maior(xs).valor.None? <==> forall i :: 0 <= i < |xs| ==> !xs[i].doAno
  {
    if xs != [] {
      assert forall i :: 1 <= i < |xs| ==> xs[i] == xs[1..][i - 1];
      MaiorAusente(xs[1..]);
    }
  }

  lemma {:induction false} MaiorCota(xs: seq<Lido>, i: nat)
    requires TodosLegiveis(xs) && i < |xs| && xs[i].doAno
    ensures Maior(xs).Maximo? && Maior(xs).valor.Some? && xs[i].valor.value <= Maior(xs).valor.value
  {
    assert TodosLegiveis(xs[1..]) by {
      assert forall k :: 1 <= k < |xs| ==> xs[k] == xs[1..][k - 1];
    }
    MaiorAusente(xs[1..]);
    if i > 0 {
      assert xs[1..][i - 1] == xs[i];
      MaiorCota(xs[1..], i - 1);
    }
  }

  lemma {:induction false} MaiorAtingido(xs: seq<Lido>)
    requires TodosLegiveis(xs) && Maior(xs).Maximo? && Maior(xs).valor.Some?
    ensures exists i :: 0 <= i < |xs| && xs[i].doAno && xs[i].valor == Maior(xs).valor
  {
    assert TodosLegiveis(xs[1..]) by {
      assert forall k :: 1 <= k < |xs| ==> xs[k] == xs[1..][k - 1];
    }
    MaiorAusente(xs[1..]);
    var m := Maior(xs[1..]).valor;
    if xs[0].doAno && (m.None? || m.value <= xs[0].valor.value) {
      assert xs[0].valor == Maior(xs).valor;
    } else {
      MaiorAtingido(xs[1..]);
      var j :| 0 <= j < |xs[1..]| && xs[1..][j].doAno && xs[1..][j].valor == m;
      assert xs[j + 1] == xs[1..][j];
    }
  }

  /** The aggregation fails exactly when some number of the year is unreadable. */
  lemma UltimoSequencialErro(existentes: seq<string>, ano: nat, l: Leitura)
    ensures UltimoSequencial(existentes, ano, l).ErroDeConversao? <==> !Legiveis(existentes, ano, l)
  {
    var xs := Lidos(existentes, ano, l);
    MaiorErro(xs);
    assert TodosLegiveis(xs) <==> Legiveis(existentes, ano, l);
  }

  /** With every number of the year readable, the aggregation is a maximum, absent exactly when the year has no number. */
  lemma UltimoSequencialAusente(existentes: seq<string>, ano: nat, l: Leitura)
    requires Legiveis(existentes, ano, l)
    ensures UltimoSequencial(existentes, ano, l).Maximo?
    ensures UltimoSequencial(existentes, ano, l).valor.None? <==> NenhumDoAno(existentes, ano)
  {
    var xs := Lidos(existentes, ano, l);
    MaiorAusente(xs);
    assert (forall i :: 0 <= i < |xs| ==> !xs[i].doAno) <==> NenhumDoAno(existentes, ano);
  }

  /** The aggregation bounds the sequence of every number of the year. */
  lemma UltimoSequencialCota(existentes: seq<string>, ano: nat, l: Leitura, i: nat)
    requires Legiveis(existentes, ano, l)
    requires i < |existentes| && DoAno(existentes[i], ano)
    ensures UltimoSequencial(existentes, ano, l).Maximo?
    ensures UltimoSequencial(existentes, ano, l).valor.Some?
    ensures Ler(l, existentes[i]).value <= UltimoSequencial(existentes, ano, l).valor.value
  {
    var xs := Lidos(existentes, ano, l);
    assert xs[i] == Lido(DoAno(existentes[i], ano), Ler(l, existentes[i]));
    MaiorCota(xs, i);
  }

  /** Number `i` belongs to the year and its sequence reads as `m`. */
  predicate Atinge(existentes: seq<string>, ano: nat, l: Leitura, i: int, m: Option<int>) {
    0 <= i < |existentes| && DoAno(existentes[i], ano) && Ler(l, existentes[i]) == m
  }

  /** A present maximum is the sequence of some number of the year. */
  lemma UltimoSequencialAtingido(existentes: seq<string>, ano: nat, l: Leitura)
    requires Legiveis(existentes, ano, l)
    requires UltimoSequencial(existentes, ano, l).Maximo?
    requires UltimoSequencial(existentes, ano, l).valor.Some?
    ensures exists i :: Atinge(existentes, ano, l, i, UltimoSequencial(existentes, ano, l).valor)
  {
    var xs := Lidos(existentes, ano, l);
    MaiorAtingido(xs);
    var j :| 0 <= j < |xs| && xs[j].doAno && xs[j].valor == Maior(xs).valor;
    assert Atinge(existentes, ano, l, j, UltimoSequencial(existentes, ano, l).valor);
  }

  /**
   * When every number of the year is readable, the aggregation is their
   * maximum: absent when there is none, otherwise an upper bound that one
   * of them attains.
   */
  lemma UltimoSequencialMaximo(existentes: seq<string>, ano: nat, l: Leitura)
    requires Legiveis(existentes, ano, l)
    ensures var r := UltimoSequencial(existentes, ano, l);
      r.Maximo? && (r.valor.None? <==> NenhumDoAno(existentes, ano))
      && (forall i :: 0 <= i < |existentes| && DoAno(existentes[i], ano) ==>
            r.valor.Some? && Ler(l, existentes[i]).value <= r.valor.value)
      && (r.valor.Some? ==>
            exists i :: 0 <= i < |existentes| && DoAno(existentes[i], ano) && Ler(l, existentes[i]) == r.valor)
  {
    UltimoSequencialAusente(existentes, ano, l);
    forall i | 0 <= i < |existentes| && DoAno(existentes[i], ano)
      ensures UltimoSequencial(existentes, ano, l).valor.Some?
      ensures Ler(l, existentes[i]).value <= UltimoSequencial(existentes, ano, l).valor.value
    {
      UltimoSequencialCota(existentes, ano, l, i);
    }
    if UltimoSequencial(existentes, ano, l).valor.Some? {
      UltimoSequencialAtingido(existentes, ano, l);
      var j :| Atinge(existentes, ano, l, j, UltimoSequencial(existentes, ano, l).valor);
    }
  }

  /** A sequence read from the whole field is never negative. */
  lemma LerCampoInteiroNatural(numero: string)
    requires Ler(CampoInteiro, numero).Some?
    ensures Ler(CampoInteiro, numero).value >= 0
  {
  }

  /**
   * The number as the source computes it: the sequence is read back with
   * `Substr(numero, 9, 7)`, which sees only the first seven digits of the
   * sequence field.
   */
  function GerarNumeroCimbpmOriginal(origem: string, destino: string, ano: nat, existentes: seq<string>): (r: Option<string>)
  {
    match UltimoSequencial(existentes, ano, Substr7)
    case ErroDeConversao => None
    case Maximo(m) => Some(Montar(origem, destino, m.GetOr(0) + 1, ano))
  }

  /**
   * The number as intended: one more than the largest sequence among the
   * numbers of the same year (1 when there is none), read from the whole
   * sequence field; `None` when an existing number of the year has no
   * readable sequence.
   */
  function GerarNumeroCimbpm(origem: string, destino: string, ano: nat, existentes: seq<string>): (r: Option<string>)
    ensures r.Some? <==> Legiveis(existentes, ano, CampoInteiro)
  {
    UltimoSequencialErro(existentes, ano, CampoInteiro);
    match UltimoSequencial(existentes, ano, CampoInteiro)
    case ErroDeConversao => None
    case Maximo(m) => Some(Montar(origem, destino, m.GetOr(0) + 1, ano))
  }

  /** A number built for a year belongs to that year. */
  lemma MontarDoAno(origem: string, destino: string, sequencial: nat, ano: nat)
    ensures DoAno(Montar(origem, destino, sequencial, ano), ano)
  {
    var s := Montar(origem, destino, sequencial, ano);
    assert s == (ExtrairCodigoUa(origem) + "." + ExtrairCodigoUa(destino) + "." + PadNat(sequencial, 7)) + SufixoAno(ano);
  }

  /** The sequence of a number built from the parts, and its four fields. */
  lemma MontarCampos(origem: string, destino: string, sequencial: nat, ano: nat)
    ensures Split(Montar(origem, destino, sequencial, ano))
      == [ExtrairCodigoUa(origem), ExtrairCodigoUa(destino), PadNat(sequencial, 7), NatToString(ano)]
    ensures Ler(CampoInteiro, Montar(origem, destino, sequencial, ano)) == Some(sequencial)
    ensures DoAno(Montar(origem, destino, sequencial, ano), ano)
  {
    var p := PadNat(sequencial, 7);
    var s := Montar(origem, destino, sequencial, ano);
    MontarSplit(ExtrairCodigoUa(origem), ExtrairCodigoUa(destino), p, NatToString(ano));
    assert s == ExtrairCodigoUa(origem) + "." + ExtrairCodigoUa(destino) + "." + p + "." + NatToString(ano);
    assert Split(s)[2] == p;
    assert s == (ExtrairCodigoUa(origem) + "." + ExtrairCodigoUa(destino) + "." + p) + SufixoAno(ano);
  }

  /** Four digit strings joined by dots split back into themselves. */
  lemma MontarSplit(o: string, d: string, p: string, a: string)
    requires AllDigits(o) && AllDigits(d) && AllDigits(p) && AllDigits(a)
    ensures Split(o + "." + d + "." + p + "." + a) == [o, d, p, a]
  {
    DigitosSemPonto(o);
    DigitosSemPonto(d);
    DigitosSemPonto(p);
    DigitosSemPonto(a);
    assert o + "." + d + "." + p + "." + a == o + "." + (d + "." + (p + "." + a));
    SplitConcat(o, d + "." + (p + "." + a));
    SplitConcat(d, p + "." + a);
    SplitConcat(p, a);
    SplitSemPonto(a);
  }

  /** The year filter is the only thing that selects numbers: other years are ignored. */
  lemma GerarNumeroCimbpmOutroAno(origem: string, destino: string, ano: nat, existentes: seq<string>, outro: string)
    requires !DoAno(outro, ano)
    ensures GerarNumeroCimbpm(origem, destino, ano, existentes + [outro])
      == GerarNumeroCimbpm(origem, destino, ano, existentes)
  {
    AgregadoOutroAno(existentes, ano, outro);
  }

  lemma AgregadoOutroAno(existentes: seq<string>, ano: nat, outro: string)
    requires !DoAno(outro, ano)
    ensures UltimoSequencial(existentes + [outro], ano, CampoInteiro)
      == UltimoSequencial(existentes, ano, CampoInteiro)
  {
    var xs := Lidos(existentes, ano, CampoInteiro);
    var ys := Lidos(existentes + [outro], ano, CampoInteiro);
    assert ys == xs + [Lido(false, Ler(CampoInteiro, outro))];
    MaiorSemAno(xs, Lido(false, Ler(CampoInteiro, outro)));
  }

  /** A reading from another year changes nothing. */
  lemma {:induction false} MaiorSemAno(xs: seq<Lido>, x: Lido)
    requires !x.doAno
    ensures Maior(xs + [x]) == Maior(xs)
  {
    if xs == [] {
      assert [x][1..] == [];
    } else {
      assert (xs + [x])[1..] == xs[1..] + [x];
      MaiorSemAno(xs[1..], x);
    }
  }


  /**
   * The new number: the unit codes of origin and destination, then one more
   * than the year's largest sequence, then the year; a year without numbers
   * starts again at 1, and the origin and destination play no part in the
   * sequence.
   */
  lemma GerarNumeroCimbpmSequencia(origem: string, destino: string, ano: nat, existentes: seq<string>)
    requires Legiveis(existentes, ano, CampoInteiro)
    ensures var r := GerarNumeroCimbpm(origem, destino, ano, existentes).value;
      Ler(CampoInteiro, r).Some? && DoAno(r, ano)
      && var sequencial := Ler(CampoInteiro, r).value;
      sequencial >= 1
      && Split(r) == [ExtrairCodigoUa(origem), ExtrairCodigoUa(destino), PadNat(sequencial, 7), NatToString(ano)]
      && (forall i :: 0 <= i < |existentes| && DoAno(existentes[i], ano) ==>
            Ler(CampoInteiro, existentes[i]).value < sequencial)
      && (NenhumDoAno(existentes, ano) ==> sequencial == 1)
      && (!NenhumDoAno(existentes, ano) ==>
            exists i :: 0 <= i < |existentes| && DoAno(existentes[i], ano)
              && Ler(CampoInteiro, existentes[i]).value + 1 == sequencial)
  {
    UltimoSequencialMaximo(existentes, ano, CampoInteiro);
    var m := UltimoSequencial(existentes, ano, CampoInteiro).valor;
    if m.Some? {
      var j :| 0 <= j < |existentes| && DoAno(existentes[j], ano) && Ler(CampoInteiro, existentes[j]) == m;
      LerCampoInteiroNatural(existentes[j]);
    }
    var sequencial: nat := m.GetOr(0) + 1;
    MontarCampos(origem, destino, sequencial, ano);
  }

  /** The new number is not among the existing ones. */
  lemma GerarNumeroCimbpmUnico(origem: string, destino: string, ano: nat, existentes: seq<string>)
    requires Legiveis(existentes, ano, CampoInteiro)
    ensures GerarNumeroCimbpm(origem, destino, ano, existentes).value !in existentes
  {
    var r := GerarNumeroCimbpm(origem, destino, ano, existentes).value;
    GerarNumeroCimbpmSequencia(origem, destino, ano, existentes);
    forall i | 0 <= i < |existentes| ensures existentes[i] != r {
      if DoAno(existentes[i], ano) {
        assert Ler(CampoInteiro, existentes[i]) != Ler(CampoInteiro, r);
      }
    }
  }

  /** The first seven characters of the sequence field are what `Substr(numero, 9, 7)` reads. */
  lemma SubstrMontar(origem: string, destino: string, sequencial: nat, ano: nat)
    ensures Substr(Montar(origem, destino, sequencial, ano), 9, 7) == PadNat(sequencial, 7)[..7]
  {
    var o, d, p := ExtrairCodigoUa(origem), ExtrairCodigoUa(destino), PadNat(sequencial, 7);
    var n := Montar(origem, destino, sequencial, ano);
    assert n == (o + "." + d + ".") + p + SufixoAno(ano);
    assert n[8..15] == p[..7];
  }

  /** A number below 10^k and at least 10^(k-1) is written with k digits. */
  lemma NatToStringDigitos(n: nat, k: nat)
    requires k >= 1 && Pow10(k - 1) <= n < Pow10(k)
    ensures |NatToString(n)| == k
  {
    NatToStringLength(n, k);
    if |NatToString(n)| < k {
      ValueBound(NatToString(n));
      Pow10Mono(|NatToString(n)|, k - 1);
    }
  }

  /**
   * With the sequence read through `Substr(numero, 9, 7)`, the year's
   * 10,000,000th number is generated twice: once after number 9,999,999 and
   * again when both already exist, because the eight-digit sequence is read
   * back as 1,000,000.
   */
  lemma GerarNumeroCimbpmOriginalDuplica(origem: string, destino: string, ano: nat)
    ensures var n1 := Montar(origem, destino, 9999999, ano);
      var n2 := Montar(origem, destino, 10000000, ano);
      GerarNumeroCimbpmOriginal(origem, destino, ano, [n1]) == Some(n2)
      && GerarNumeroCimbpmOriginal(origem, destino, ano, [n1, n2]) == Some(n2)
  {
    OriginalAposUltimoDeSete(origem, destino, ano);
    OriginalRepeteOitoDigitos(origem, destino, ano);
  }

  lemma Pow10SeteOito()
    ensures Pow10(7) == 10000000 && Pow10(8) == 100000000
  {
    assert Pow10(2) == 100;
    assert Pow10(4) == 10000;
    assert Pow10(6) == 1000000;
  }

  /** After number 9,999,999 the source generates number 10,000,000. */
  lemma OriginalAposUltimoDeSete(origem: string, destino: string, ano: nat)
    ensures GerarNumeroCimbpmOriginal(origem, destino, ano, [Montar(origem, destino, 9999999, ano)])
      == Some(Montar(origem, destino, 10000000, ano))
  {
    var n1 := Montar(origem, destino, 9999999, ano);
    Pow10SeteOito();
    LerOriginalSeteDigitos(origem, destino, 9999999, ano);
    MontarDoAno(origem, destino, 9999999, ano);
    UltimoSequencialUm(n1, ano, Substr7);
  }

  /** With numbers 9,999,999 and 10,000,000 both present, the source generates 10,000,000 again. */
  lemma OriginalRepeteOitoDigitos(origem: string, destino: string, ano: nat)
    ensures var n1 := Montar(origem, destino, 9999999, ano);
      var n2 := Montar(origem, destino, 10000000, ano);
      GerarNumeroCimbpmOriginal(origem, destino, ano, [n1, n2]) == Some(n2)
  {
    var n1 := Montar(origem, destino, 9999999, ano);
    var n2 := Montar(origem, destino, 10000000, ano);
    OriginalLidosAposSete(origem, destino, ano);
    GerarOriginalApos(origem, destino, ano, [n1, n2], 9999999);
  }

  /** Number 10,000,000 is read back as 1,000,000, so 9,999,999 stays the last sequence. */
  lemma OriginalLidosAposSete(origem: string, destino: string, ano: nat)
    ensures UltimoSequencial([Montar(origem, destino, 9999999, ano), Montar(origem, destino, 10000000, ano)], ano, Substr7)
      == Maximo(Some(9999999))
  {
    Pow10SeteOito();
    LerOriginalSeteDigitos(origem, destino, 9999999, ano);
    LerOriginalOitoDigitos(origem, destino, 10000000, ano);
    MontarDoAno(origem, destino, 9999999, ano);
    MontarDoAno(origem, destino, 10000000, ano);
    UltimoSequencialDois(Montar(origem, destino, 9999999, ano), Montar(origem, destino, 10000000, ano), ano, Substr7, 9999999, 1000000);
  }

  /** The source's number follows the last sequence read back. */
  lemma GerarOriginalApos(origem: string, destino: string, ano: nat, existentes: seq<string>, m: int)
    requires UltimoSequencial(existentes, ano, Substr7) == Maximo(Some(m))
    ensures GerarNumeroCimbpmOriginal(origem, destino, ano, existentes) == Some(Montar(origem, destino, m + 1, ano))
  {
  }

  /** Two numbers of the year, the first read as the larger sequence: its sequence is the last one. */
  lemma UltimoSequencialDois(n1: string, n2: string, ano: nat, l: Leitura, p: int, q: int)
    requires DoAno(n1, ano) && DoAno(n2, ano)
    requires Ler(l, n1) == Some(p) && Ler(l, n2) == Some(q) && q <= p
    ensures UltimoSequencial([n1, n2], ano, l) == Maximo(Some(p))
  {
    var xs := Lidos([n1, n2], ano, l);
    assert xs == [Lido(true, Some(p)), Lido(true, Some(q))];
    MaiorDois(p, q);
  }

  /** Two readings of the year, the first the larger: it is the maximum. */
  lemma MaiorDois(p: int, q: int)
    requires q <= p
    ensures Maior([Lido(true, Some(p)), Lido(true, Some(q))]) == Maximo(Some(p))
  {
    var xs := [Lido(true, Some(p)), Lido(true, Some(q))];
    assert xs[1..] == [Lido(true, Some(q))];
    assert xs[1..][1..] == [];
    assert Maior(xs[1..][1..]) == Maximo(None);
    assert Maior(xs[1..]) == Maximo(Some(q));
  }

  lemma UltimoSequencialUm(n: string, ano: nat, l: Leitura)
    requires DoAno(n, ano) && Ler(l, n).Some?
    ensures UltimoSequencial([n], ano, l) == Maximo(Ler(l, n))
  {
    var xs := Lidos([n], ano, l);
    assert xs == [Lido(true, Ler(l, n))];
    assert xs[1..] == [];
    assert Maior(xs[1..]) == Maximo(None);
    assert Maior(xs) == Maximo(Ler(l, n));
  }


  /** A sequence of at most seven digits is read back whole. */
  lemma LerOriginalSeteDigitos(origem: string, destino: string, sequencial: nat, ano: nat)
    requires sequencial < Pow10(7)
    ensures Ler(Substr7, Montar(origem, destino, sequencial, ano)) == Some(sequencial)
  {
    var p := PadNat(sequencial, 7);
    PadNatLength(sequencial, 7);
    assert p[..7] == p;
    SubstrMontar(origem, destino, sequencial, ano);
    assert Pow10(7) == 10000000;
    PgCastIntegerDigits(p);
  }

  /** A sequence of eight digits loses its last digit when read back. */
  lemma LerOriginalOitoDigitos(origem: string, destino: string, sequencial: nat, ano: nat)
    requires Pow10(7) <= sequencial < Pow10(8)
    ensures Ler(Substr7, Montar(origem, destino, sequencial, ano)) == Some(sequencial / 10)
  {
    var p := PadNat(sequencial, 7);
    NatToStringDigitos(sequencial, 8);
    assert p == NatToString(sequencial);
    ValueDropLast(p);
    assert p[..|p| - 1] == p[..7];
    AllDigitsSlice(p, 0, 7);
    SubstrMontar(origem, destino, sequencial, ano);
    assert Pow10(8) == 100000000;
    PgCastIntegerDigits(p[..7]);
  }
}
