/**
 * The number-extraction heuristic of the asset admin: it looks for a
 * patrimonial number at the end or at the start of an asset's free-text
 * name or description, classifies it as the current `ddd.ddddddddd-d`
 * format or an older one, and a batch action writes the outcome into the
 * assets that have no number yet.
 */
module ExtracaoNumeros {
  import opened Base

  // ---------------------------------------------------------------------
  // Character classes and patterns
  // ---------------------------------------------------------------------

  /** `[A-Za-zÁ-ú]`: ASCII letters and the Latin-1 range from U+00C1 to U+00FA. */
  predicate IsAlpha(c: char) {
    ('A' <= c <= 'Z') || ('a' <= c <= 'z') || ('\U{C1}' <= c <= '\U{FA}')
  }

  /** `ALPHA_RE.search(s)` finds something. */
  predicate TemLetra(s: string) {
    exists i :: 0 <= i < |s| && IsAlpha(s[i])
  }

  /** `\d{3}\.\d{9}-\d` on exactly fifteen characters. */
  predicate Padrao15(t: string) {
    |t| == 15 && AllDigits(t[..3]) && t[3] == '.' && AllDigits(t[4..13]) && t[13] == '-' && IsDigit(t[14])
  }

  /** `NEW_PATTERN_STRICT.match(t)`: Python's `$` also accepts one final newline. */
  predicate NewPatternStrict(t: string) {
    Padrao15(t) || (|t| == 16 && t[15] == '\n' && Padrao15(t[..15]))
  }

  // ---------------------------------------------------------------------
  // _coerce_to_new
  // ---------------------------------------------------------------------

  /** Thirteen digits laid out as `ddd.ddddddddd-d`. */
  function Formatar13(d: string): (r: string)
    requires |d| == 13
  {
    d[..3] + "." + d[3..12] + "-" + d[12..]
  }

  /** The digits of `s` in the current format when there are exactly thirteen of them. */
  function CoerceToNew(s: string): (r: Option<string>)
    ensures r.Some? <==> |DigitsOnly(s)| == 13
  {
    var d := DigitsOnly(s);
    if |d| == 13 then Some(Formatar13(d)) else None
  }

  /** The coerced number matches the strict pattern and keeps exactly the digits it came from. */
  lemma CoerceToNewCorreto(s: string)
    requires CoerceToNew(s).Some?
    ensures Padrao15(CoerceToNew(s).value)
    ensures DigitsOnly(CoerceToNew(s).value) == DigitsOnly(s)
  {
    var d := DigitsOnly(s);
    Formatar13Correto(d);
  }

  lemma Formatar13Correto(d: string)
    requires |d| == 13 && AllDigits(d)
    ensures Padrao15(Formatar13(d)) && DigitsOnly(Formatar13(d)) == d
  {
    Formatar13Padrao(d);
    Formatar13Digitos(d);
  }

  lemma Formatar13Padrao(d: string)
    requires |d| == 13 && AllDigits(d)
    ensures Padrao15(Formatar13(d))
  {
    var r := Formatar13(d);
    assert r[..3] == d[..3] && r[4..13] == d[3..12] && r[14] == d[12];
    AllDigitsSlice(d, 0, 3);
    AllDigitsSlice(d, 3, 12);
  }

  lemma Formatar13Digitos(d: string)
    requires |d| == 13 && AllDigits(d)
    ensures DigitsOnly(Formatar13(d)) == d
  {
    var a, b, c := d[..3], d[3..12], d[12..];
    assert Formatar13(d) == a + "." + b + "-" + c;
    assert DigitsOnly(a) == a && DigitsOnly(b) == b && DigitsOnly(c) == c by {
      AllDigitsSlice(d, 0, 3);
      AllDigitsSlice(d, 3, 12);
      AllDigitsSlice(d, 12, 13);
      DigitsOnlyOfDigits(a);
      DigitsOnlyOfDigits(b);
      DigitsOnlyOfDigits(c);
    }
    assert DigitsOnly(a + ".") == a by {
      assert DigitsOnly(".") == [];
      DigitsOnlyConcat(a, ".");
    }
    assert DigitsOnly(a + "." + b) == a + b by {
      DigitsOnlyConcat(a + ".", b);
    }
    assert DigitsOnly(a + "." + b + "-") == a + b by {
      assert DigitsOnly("-") == [];
      DigitsOnlyConcat(a + "." + b, "-");
    }
    assert DigitsOnly(a + "." + b + "-" + c) == a + b + c by {
      DigitsOnlyConcat(a + "." + b + "-", c);
    }
    assert d == a + b + c;
  }


  // ---------------------------------------------------------------------
  // _classify_token
  // ---------------------------------------------------------------------

  datatype Classe = PadraoAtual | PadraoAnterior | SemNumero

  /** The classification and the normalised value of a candidate token. */
  function ClassifyToken(token: string): (Classe, Option<string>) {
    if token == [] || TemLetra(token) then (SemNumero, None)
    else if NewPatternStrict(token) then (PadraoAtual, Some(token))
    else
      match CoerceToNew(token)
      case Some(c) => (PadraoAtual, Some(c))
      case None => (PadraoAnterior, Some(token))
  }

  /**
   * Exactly the empty or letter-bearing tokens have no number; a current
   * number matches the strict pattern and keeps the token's digits; an
   * older one is the token itself, which neither matches the pattern nor
   * has thirteen digits.
   */
  lemma ClassifyTokenCorreto(token: string)
    ensures var (cls, valor) := ClassifyToken(token);
      (cls == SemNumero <==> token == [] || TemLetra(token))
      && (cls == SemNumero ==> valor == None)
      && (cls == PadraoAtual ==>
            valor.Some? && NewPatternStrict(valor.value) && DigitsOnly(valor.value) == DigitsOnly(token))
      && (cls == PadraoAtual && NewPatternStrict(token) ==> valor == Some(token))
      && (cls == PadraoAnterior <==>
            (token != [] && !TemLetra(token) && !NewPatternStrict(token) && |DigitsOnly(token)| != 13))
      && (cls == PadraoAnterior ==> valor == Some(token))
  {
    if token != [] && !TemLetra(token) && !NewPatternStrict(token) && CoerceToNew(token).Some? {
      CoerceToNewCorreto(token);
    }
  }

  // ---------------------------------------------------------------------
  // _first_token
  // ---------------------------------------------------------------------

  /** A token found in a text: the token, its start and its end (`None` when absent). */
  datatype Token = Token(tok: Option<string>, inicio: Option<nat>, fim: Option<nat>)

  const NenhumToken := Token(None, None, None)

  predicate Separador(c: char) {
    c == ' ' || c == '/'
  }

  /** Index of the first `' '` or `'/'`, or the length when there is none. */
  function FimDoToken(t: string): (fim: nat)
    ensures fim <= |t|
    ensures fim < |t| ==> Separador(t[fim])
    ensures forall i :: 0 <= i < fim ==> !Separador(t[i])
  {
    if t == [] || Separador(t[0]) then 0 else 1 + FimDoToken(t[1..])
  }

  /** The first separator is the only index with those properties. */
  lemma FimDoTokenUnico(t: string, fim: nat)
    requires fim <= |t| && (fim < |t| ==> Separador(t[fim]))
    requires forall i :: 0 <= i < fim ==> !Separador(t[i])
    ensures fim == FimDoToken(t)
  {
    var f := FimDoToken(t);
    if f < fim {
      assert false;
    } else if fim < f {
      assert false;
    }
  }

  /**
   * The leading token of a text: the text is left-stripped, the token runs
   * up to the first `' '` or `'/'`, loses any trailing `'/'` and is
   * stripped; the end is an index into the left-stripped text.
   */
  function PrimeiroToken(text: string): Token {
    var t := PyLStrip(text);
    if t == [] then NenhumToken
    else
      var fim := FimDoToken(t);
      var tok := PyStrip(RStripChar(t[..fim], '/'));
      Token(if tok != [] then Some(tok) else None, if tok != [] then Some(0) else None, Some(fim))
  }

  /** `_first_token`: the scan for the first separator is the source's loop. */
  method FirstToken(text: string) returns (r: Token)
    ensures r == PrimeiroToken(text)
  {
    var t := PyLStrip(text);
    if t == [] {
      return NenhumToken;
    }
    var fim := |t|;
    var i := 0;
    while i < |t|
      invariant 0 <= i <= |t|
      invariant forall j :: 0 <= j < i ==> !Separador(t[j])
    {
      if t[i] == ' ' || t[i] == '/' {
        fim := i;
        break;
      }
      i := i + 1;
    }
    FimDoTokenUnico(t, fim);
    var tok := PyStrip(RStripChar(t[..fim], '/'));
    r := Token(if tok != [] then Some(tok) else None, if tok != [] then Some(0) else None, Some(fim));
  }

  /**
   * Blank text has no token; otherwise a token holds no `' '` and no `'/'`,
   * is not blank at either end, starts the left-stripped text, and ends
   * before its first separator.
   */
  lemma PrimeiroTokenCorreto(text: string)
    ensures var r := PrimeiroToken(text);
      var t := PyLStrip(text);
      (t == [] ==> r == NenhumToken)
      && (r.tok.Some? ==>
            r.inicio == Some(0) && r.fim.Some?
            && r.tok.value != [] && |r.tok.value| <= r.fim.value
            && r.tok.value == t[..|r.tok.value|]
            && (forall i :: 0 <= i < |r.tok.value| ==> !Separador(r.tok.value[i]))
            && !IsPySpace(r.tok.value[0]) && !IsPySpace(r.tok.value[|r.tok.value| - 1]))
      && (r.tok.None? ==> r.inicio.None?)
  {
    var t := PyLStrip(text);
    if t != [] {
      var fim := FimDoToken(t);
      var x := RStripChar(t[..fim], '/');
      RStripCharPrefixo(t[..fim], '/');
      var tok := PyStrip(x);
      if tok != [] {
        PyStripInicio(x);
        assert x == t[..|x|];
        assert tok == t[..|tok|];
      }
    }
  }

  lemma {:induction false} RStripCharPrefixo(s: string, c: char)
    ensures RStripChar(s, c) == s[..|RStripChar(s, c)|]
  {
    if s != [] && s[|s| - 1] == c {
      RStripCharPrefixo(s[..|s| - 1], c);
    }
  }

  /** Stripping a text that starts with a non-blank keeps a prefix of it. */
  lemma PyStripInicio(s: string)
    requires s != [] && !IsPySpace(s[0])
    ensures PyStrip(s) == s[..|PyStrip(s)|]
  {
    assert PyLStrip(s) == s;
    PyRStripShape(s);
  }

  // ---------------------------------------------------------------------
  // _last_numericish_token
  // ---------------------------------------------------------------------

  /** `[0-9\.\-\s/]`. */
  predicate NumericoIsh(c: char) {
    IsDigit(c) || c == '.' || c == '-' || IsPySpace(c) || c == '/'
  }

  predicate TodosNumericoIsh(s: string) {
    forall i :: 0 <= i < |s| ==> NumericoIsh(s[i])
  }

  /**
   * Where a match of `[0-9][0-9\.\-\s/]*[0-9]` that reaches the last
   * character of `base` can start, at `i` or later: a digit, followed by
   * numeric-ish characters, with at least one character after it.
   */
  predicate PodeIniciar(base: string, i: nat)
    requires base != []
  {
    i + 1 < |base| && IsDigit(base[i]) && TodosNumericoIsh(base[i + 1..|base| - 1])
  }

  /** The leftmost start from `i` on, which is where `re.search` reports the match. */
  function InicioNumerico(base: string, i: nat): (r: Option<nat>)
    requires base != [] && i <= |base|
    ensures r.Some? ==> i <= r.value && PodeIniciar(base, r.value)
    ensures forall j :: i <= j < (if r.Some? then r.value else |base|) ==> !PodeIniciar(base, j)
    decreases |base| - i
  {
    if i + 1 >= |base| then None
    else if PodeIniciar(base, i) then Some(i)
    else InicioNumerico(base, i + 1)
  }

  /**
   * `_last_numericish_token`: the text is stripped; the regular expression
   * `([0-9][0-9\.\-\s/]*[0-9])\s*$` can only end at the last character,
   * which must be a digit; the group runs from the leftmost possible start
   * to the end. Letter-bearing tokens are refused.
   */
  function UltimoTokenNumerico(text: string): Token {
    var base := PyStrip(text);
    if base == [] || !IsDigit(base[|base| - 1]) then NenhumToken
    else
      match InicioNumerico(base, 0)
      case None => NenhumToken
      case Some(i) =>
        var tok := PyStrip(RStripChar(base[i..], '/'));
        if tok == [] || TemLetra(tok) then NenhumToken
        else Token(Some(tok), Some(i), Some(|base|))
  }

  /**
   * A token found at the end is the whole tail of the stripped text from
   * the leftmost possible start: no letters, at least two characters,
   * starting and ending with a digit, only numeric-ish characters; no
   * earlier start was possible.
   */
  lemma UltimoTokenNumericoCorreto(text: string)
    ensures var r := UltimoTokenNumerico(text);
      var base := PyStrip(text);
      r.tok.Some? ==>
        r.inicio.Some? && r.fim == Some(|base|) && r.inicio.value + 1 < |base|
        && r.tok.value == base[r.inicio.value..]
        && !TemLetra(r.tok.value) && |r.tok.value| >= 2
        && IsDigit(r.tok.value[0]) && IsDigit(r.tok.value[|r.tok.value| - 1])
        && TodosNumericoIsh(r.tok.value)
        && forall j :: 0 <= j < r.inicio.value ==> !PodeIniciar(base, j)
  {
    var base := PyStrip(text);
    if base != [] && IsDigit(base[|base| - 1]) && InicioNumerico(base, 0).Some? {
      GrupoNumerico(base, InicioNumerico(base, 0).value);
    }
  }

  /** The group from a possible start is unchanged by the clean-up and numeric-ish throughout. */
  lemma GrupoNumerico(base: string, i: nat)
    requires base != [] && IsDigit(base[|base| - 1]) && PodeIniciar(base, i)
    ensures PyStrip(RStripChar(base[i..], '/')) == base[i..]
    ensures TodosNumericoIsh(base[i..])
  {
    var g := base[i..];
    assert g[|g| - 1] == base[|base| - 1];
    assert RStripChar(g, '/') == g;
    PyStripSemBordas(g);
    forall k | 0 <= k < |g| ensures NumericoIsh(g[k]) {
      if 0 < k < |g| - 1 {
        assert g[k] == base[i + 1..|base| - 1][k - 1];
      }
    }
  }

  // ---------------------------------------------------------------------
  // _extract
  // ---------------------------------------------------------------------

  /** Where the number was found. */
  datatype Fonte = NomeFim | DescricaoFim | NomeInicio | DescricaoInicio

  /** `(numero, classificacao, nome_sugerido, fonte, posicao, match_bruto, aplicar_auto)`. */
  datatype Extracao = Extracao(
    numero: Option<string>,
    classe: Classe,
    nomeSugerido: string,
    fonte: Option<Fonte>,
    posicao: Option<nat>,
    bruto: Option<string>,
    aplicarAuto: bool)

  function NadaEncontrado(nome: string): Extracao {
    Extracao(None, SemNumero, nome, None, None, None, false)
  }

  /** The length of the run of whitespace at the front of `s`. */
  function RunEspacos(s: string): (n: nat)
    ensures n <= |s|
    ensures forall i :: 0 <= i < n ==> IsPySpace(s[i])
    ensures n < |s| ==> !IsPySpace(s[n])
  {
    if s != [] && IsPySpace(s[0]) then 1 + RunEspacos(s[1..]) else 0
  }

  /** `re.sub(r"\s{2,}", " ", s)`: every run of two or more blanks becomes one space. */
  function Colapsar(s: string): (r: string)
    ensures s != [] && !IsPySpace(s[0]) ==> r != [] && r[0] == s[0]
    ensures s != [] && IsPySpace(s[0]) ==> r != [] && IsPySpace(r[0])
    decreases |s|
  {
    if s == [] then []
    else
      var n := RunEspacos(s);
      if n >= 2 then " " + Colapsar(s[n..]) else [s[0]] + Colapsar(s[1..])
  }

  /** After collapsing, no two blanks are adjacent. */
  lemma {:induction false} ColapsarSemEspacosDuplos(s: string)
    ensures var r := Colapsar(s);
      forall i :: 0 <= i < |r| - 1 ==> !(IsPySpace(r[i]) && IsPySpace(r[i + 1]))
    decreases |s|
  {
    if s != [] {
      var n := RunEspacos(s);
      var r := Colapsar(s);
      if n >= 2 {
        ColapsarSemEspacosDuplos(s[n..]);
        assert r == " " + Colapsar(s[n..]);
        assert s[n..] != [] ==> !IsPySpace(s[n..][0]);
      } else {
        ColapsarSemEspacosDuplos(s[1..]);
        assert r == [s[0]] + Colapsar(s[1..]);
        if n == 1 && s[1..] != [] {
          assert !IsPySpace(s[1..][0]);
        }
      }
    }
  }

  /** `re.sub(r"\s{2,}", " ", s).strip() or fallback`. */
  function Sugestao(s: string, fallback: string): string {
    var x := PyStrip(Colapsar(s));
    if x != [] then x else fallback
  }

  /** How the name in front of a number found at the end is cut. */
  datatype Corte =
    | ComoEscrito  // `nome[:a]`, with `a` an index into the stripped name
    | Corrigido    // the stripped name cut at `a`

  /** The part of the name in front of a number that starts at index `a` of the stripped name. */
  function Antes(nome: string, a: nat, corte: Corte): string {
    match corte
    case ComoEscrito => if a <= |nome| then nome[..a] else nome
    case Corrigido => if a <= |PyStrip(nome)| then PyStrip(nome)[..a] else PyStrip(nome)
  }

  /** The characters `" /-_;\t"` that `lstrip` removes after a leading token. */
  const Pontuacao: set<char> := {' ', '/', '-', '_', ';', '\t'}

  /**
   * `_extract`. A name that starts with a non-digit is searched only at its
   * end and then at the end of the description; any other name at its
   * start and then at the start of the description.
   */
  function ExtrairCom(nome: string, descricao: string, corte: Corte): (r: Extracao) {
    if nome != [] && !IsDigit(nome[0]) then
      var fimNome := UltimoTokenNumerico(nome);
      if fimNome.tok.Some? then
        var tok := fimNome.tok.value;
        var a := fimNome.inicio.value;
        var (cls, normalizado) := ClassifyToken(tok);
        Extracao(Some(normalizado.GetOr(tok)), cls, Sugestao(PyStrip(Antes(nome, a, corte)), nome), Some(NomeFim), Some(a), Some(tok), true)
      else
        var fimDesc := UltimoTokenNumerico(descricao);
        if fimDesc.tok.Some? then
          var tok := fimDesc.tok.value;
          var (cls, normalizado) := ClassifyToken(tok);
          Extracao(Some(normalizado.GetOr(tok)), cls, nome, Some(DescricaoFim), fimDesc.inicio, Some(tok), true)
        else NadaEncontrado(nome)
    else
      var inicioNome := PrimeiroToken(nome);
      if inicioNome.tok.Some? && !TemLetra(inicioNome.tok.value) then
        var tok := inicioNome.tok.value;
        var (cls, normalizado) := ClassifyToken(tok);
        var b := inicioNome.fim.value;
        var resto := LStripChars(if b <= |nome| then nome[b..] else [], Pontuacao);
        Extracao(Some(normalizado.GetOr(tok)), cls, Sugestao(resto, nome), Some(NomeInicio), Some(0), Some(tok), true)
      else
        var inicioDesc := PrimeiroToken(descricao);
        if inicioDesc.tok.Some? && !TemLetra(inicioDesc.tok.value) then
          var tok := inicioDesc.tok.value;
          var (cls, normalizado) := ClassifyToken(tok);
          Extracao(Some(normalizado.GetOr(tok)), cls, nome, Some(DescricaoInicio), Some(0), Some(tok), true)
        else NadaEncontrado(nome)
  }

  /** The extraction as the source writes it. */
  function ExtractOriginal(nome: string, descricao: string): Extracao {
    ExtrairCom(nome, descricao, ComoEscrito)
  }

  /** The extraction with the name cut where the number starts in the stripped name. */
  function Extract(nome: string, descricao: string): Extracao {
    ExtrairCom(nome, descricao, Corrigido)
  }

  /**
   * Nothing found means no number, SEM_NUMERO and the name unchanged;
   * something found means automatic application with a number and a class
   * other than SEM_NUMERO. Names starting with a non-digit are searched at
   * the ends only, other names at the starts only.
   */
  lemma ExtractCorreto(nome: string, descricao: string, corte: Corte)
    ensures var r := ExtrairCom(nome, descricao, corte);
      (!r.aplicarAuto ==> r == NadaEncontrado(nome))
      && (r.aplicarAuto ==> r.numero.Some? && r.bruto.Some? && r.classe != SemNumero && r.fonte.Some?)
      && (r.fonte.Some? <==> r.aplicarAuto)
      && (nome != [] && !IsDigit(nome[0]) ==> r.fonte != Some(NomeInicio) && r.fonte != Some(DescricaoInicio))
      && (nome == [] || IsDigit(nome[0]) ==> r.fonte != Some(NomeFim) && r.fonte != Some(DescricaoFim))
      && (r.fonte == Some(DescricaoFim) || r.fonte == Some(DescricaoInicio) ==> r.nomeSugerido == nome)
  {
    if nome != [] && !IsDigit(nome[0]) {
      var fimNome := UltimoTokenNumerico(nome);
      UltimoTokenNumericoCorreto(nome);
      UltimoTokenNumericoCorreto(descricao);
      if fimNome.tok.Some? {
        ClassifyTokenCorreto(fimNome.tok.value);
      } else if UltimoTokenNumerico(descricao).tok.Some? {
        ClassifyTokenCorreto(UltimoTokenNumerico(descricao).tok.value);
      }
    } else {
      var inicioNome := PrimeiroToken(nome);
      PrimeiroTokenCorreto(nome);
      if inicioNome.tok.Some? && !TemLetra(inicioNome.tok.value) {
        ClassifyTokenCorreto(inicioNome.tok.value);
      } else if PrimeiroToken(descricao).tok.Some? && !TemLetra(PrimeiroToken(descricao).tok.value) {
        PrimeiroTokenCorreto(descricao);
        ClassifyTokenCorreto(PrimeiroToken(descricao).tok.value);
      }
    }
  }

  /**
   * With the cut made in the stripped name, blanks in front of a name do
   * not change the suggested name, as long as something is left of it.
   */
  lemma ExtractEspacosIniciais(ws: string, nome: string, descricao: string)
    requires AllPySpace(ws) && ws != []
    requires nome != [] && !IsDigit(nome[0]) && !IsPySpace(nome[0])
    requires Extract(nome, descricao).fonte == Some(NomeFim)
    requires Extract(nome, descricao).nomeSugerido != nome
    ensures Extract(ws + nome, descricao).fonte == Some(NomeFim)
    ensures Extract(ws + nome, descricao).nomeSugerido == Extract(nome, descricao).nomeSugerido
  {
    var completo := ws + nome;
    assert PyStrip(completo) == PyStrip(nome) by {
      PyLStripSpacePrefix(ws, nome);
    }
    assert UltimoTokenNumerico(completo) == UltimoTokenNumerico(nome);
    assert completo[0] == ws[0] && !IsDigit(ws[0]);
    var t := UltimoTokenNumerico(nome);
    assert t.tok.Some?;
    var i := t.inicio.value;
    var x := Sugestao(PyStrip(Antes(nome, i, Corrigido)), nome);
    assert Extract(nome, descricao).nomeSugerido == x;
    assert Antes(completo, i, Corrigido) == Antes(nome, i, Corrigido);
    assert Sugestao(PyStrip(Antes(nome, i, Corrigido)), completo) == x;
  }

  predicate Palavra(w: string) {
    w != [] && forall i :: 0 <= i < |w| ==> IsAlpha(w[i])
  }

  /** A letter is neither blank nor a digit. */
  lemma LetraNaoEspaco(c: char)
    requires IsAlpha(c)
    ensures !IsPySpace(c) && !IsDigit(c)
  {
  }

  /** A word has no blank at either end. */
  lemma PalavraBordas(w: string)
    requires Palavra(w)
    ensures !IsPySpace(w[0]) && !IsPySpace(w[|w| - 1]) && !IsDigit(w[0])
  {
    LetraNaoEspaco(w[0]);
    LetraNaoEspaco(w[|w| - 1]);
  }

  /**
   * A name made of blanks, a word, a space and a number of two or more
   * digits: its stripped form is the word, the space and the number, and
   * the number is found at the end, right after the space.
   */
  lemma {:induction false} UltimoTokenPalavraNumero(ws: string, w: string, n: string)
    requires AllPySpace(ws) && Palavra(w) && AllDigits(n) && |n| >= 2
    ensures PyStrip(ws + w + " " + n) == w + " " + n
    ensures UltimoTokenNumerico(ws + w + " " + n) == Token(Some(n), Some(|w| + 1), Some(|w + " " + n|))
  {
    var text := ws + w + " " + n;
    var base := w + " " + n;
    StripPalavraNumero(ws, w, n);
    assert PyStrip(text) == base;
    InicioPalavraNumero(w, n);
    assert PyStrip(RStripChar(base[|w| + 1..], '/')) == n;
    UltimoTokenNumericoEm(text, |w| + 1);
  }

  lemma {:induction false} StripPalavraNumero(ws: string, w: string, n: string)
    requires AllPySpace(ws) && Palavra(w) && AllDigits(n) && |n| >= 2
    ensures PyStrip(ws + w + " " + n) == w + " " + n
  {
    var base := w + " " + n;
    assert ws + w + " " + n == ws + base;
    PyLStripSpacePrefix(ws, base);
    PalavraBordas(w);
    assert base[0] == w[0];
    assert PyLStrip(base) == base;
    assert base[|base| - 1] == n[|n| - 1];
    PyStripSemBordas(base);
  }

  /** In a word, a space and a number, the number is found right after the space. */
  lemma {:induction false} InicioPalavraNumero(w: string, n: string)
    requires Palavra(w) && AllDigits(n) && |n| >= 2
    ensures var base := w + " " + n;
      IsDigit(base[|base| - 1])
      && InicioNumerico(base, 0) == Some(|w| + 1)
      && PyStrip(RStripChar(base[|w| + 1..], '/')) == n
      && !TemLetra(n)
  {
    var base := w + " " + n;
    var i := |w| + 1;
    assert base[|base| - 1] == n[|n| - 1];
    assert PodeIniciar(base, i) by {
      assert base[i] == n[0];
      assert base[i + 1..|base| - 1] == n[1..|n| - 1];
    }
    forall j | 0 <= j < i ensures !PodeIniciar(base, j) {
      if j < |w| {
        LetraNaoEspaco(w[j]);
        assert base[j] == w[j];
      } else {
        assert base[j] == ' ';
      }
    }
    InicioNumericoUnico(base, i);
    GrupoNumerico(base, i);
    var pre := w + " ";
    assert base == pre + n && |pre| == i;
    assert base[i..] == n;
    assert !TemLetra(n) by {
      forall k | 0 <= k < |n| ensures !IsAlpha(n[k]) {
        assert IsDigit(n[k]);
      }
    }
  }

  /** One unfolding of the search at the end, once its start is known. */
  lemma UltimoTokenNumericoEm(text: string, i: nat)
    requires PyStrip(text) != [] && IsDigit(PyStrip(text)[|PyStrip(text)| - 1])
    requires InicioNumerico(PyStrip(text), 0) == Some(i)
    requires var tok := PyStrip(RStripChar(PyStrip(text)[i..], '/')); tok != [] && !TemLetra(tok)
    ensures UltimoTokenNumerico(text)
      == Token(Some(PyStrip(RStripChar(PyStrip(text)[i..], '/'))), Some(i), Some(|PyStrip(text)|))
  {
  }

  /** The leftmost possible start is the one the search reports. */
  lemma InicioNumericoUnico(base: string, i: nat)
    requires base != [] && PodeIniciar(base, i)
    requires forall j :: 0 <= j < i ==> !PodeIniciar(base, j)
    ensures InicioNumerico(base, 0) == Some(i)
  {
    var r := InicioNumerico(base, 0);
    if r.None? {
      assert false;
    } else if r.value < i {
      assert false;
    } else if r.value > i {
      assert false;
    }
  }

  /** A single word of letters is its own suggested name. */
  lemma SugestaoPalavra(w: string, fallback: string)
    requires Palavra(w)
    ensures Sugestao(PyStrip(w), fallback) == w
  {
    PalavraBordas(w);
    PyStripSemBordas(w);
    ColapsarPalavra(w);
  }

  lemma {:induction false} ColapsarPalavra(w: string)
    requires forall i :: 0 <= i < |w| ==> IsAlpha(w[i])
    ensures Colapsar(w) == w
    decreases |w|
  {
    if w != [] {
      LetraNaoEspaco(w[0]);
      assert RunEspacos(w) == 0;
      ColapsarPalavra(w[1..]);
      assert w == [w[0]] + w[1..];
    }
  }

  /**
   * As the source writes it, blanks in front of a name cost the suggested
   * name as many characters as there are blanks, less one: the number's
   * index `|w| + 1` is counted in the stripped name but used to cut the
   * unstripped one. "  MESA 12" is suggested as "MES" instead of "MESA".
   */
  lemma ExtractOriginalCorta(ws: string, w: string, n: string, descricao: string)
    requires AllPySpace(ws) && 2 <= |ws| <= |w| && Palavra(w) && AllDigits(n) && |n| >= 2
    ensures ExtractOriginal(ws + w + " " + n, descricao).nomeSugerido == w[..|w| + 1 - |ws|]
    ensures w[..|w| + 1 - |ws|] != w
    ensures Extract(ws + w + " " + n, descricao).nomeSugerido == w
  {
    CortaComoEscrito(ws, w, n, descricao);
    CortaCorrigido(ws, w, n, descricao);
    assert |w[..|w| + 1 - |ws|]| < |w|;
  }

  lemma CortaComoEscrito(ws: string, w: string, n: string, descricao: string)
    requires AllPySpace(ws) && 2 <= |ws| <= |w| && Palavra(w) && AllDigits(n) && |n| >= 2
    ensures ExtractOriginal(ws + w + " " + n, descricao).nomeSugerido == w[..|w| + 1 - |ws|]
  {
    var nome := ws + w + " " + n;
    UltimoTokenPalavraNumero(ws, w, n);
    AntesComoEscrito(ws, w, n);
    assert nome[0] == ws[0];
    SugeridoNoFim(nome, descricao, ComoEscrito, |w| + 1, w[..|w| + 1 - |ws|]);
  }

  lemma CortaCorrigido(ws: string, w: string, n: string, descricao: string)
    requires AllPySpace(ws) && ws != [] && Palavra(w) && AllDigits(n) && |n| >= 2
    ensures Extract(ws + w + " " + n, descricao).nomeSugerido == w
  {
    var nome := ws + w + " " + n;
    UltimoTokenPalavraNumero(ws, w, n);
    AntesCorrigido(w, n);
    assert nome[0] == ws[0];
    SugeridoNoFim(nome, descricao, Corrigido, |w| + 1, w);
  }


  /** The suggested name when the number is found at the end of the name. */
  /** A name with a final number found at `i` is suggested as what `Antes` keeps, stripped. */
  lemma SugeridoNoFim(nome: string, descricao: string, corte: Corte, i: nat, x: string)
    requires nome != [] && !IsDigit(nome[0])
    requires UltimoTokenNumerico(nome).tok.Some? && UltimoTokenNumerico(nome).inicio == Some(i)
    requires Sugestao(PyStrip(Antes(nome, i, corte)), nome) == x
    ensures ExtrairCom(nome, descricao, corte).nomeSugerido == x
  {
    ExtrairNomeFim(nome, descricao, corte);
  }

  lemma ExtrairNomeFim(nome: string, descricao: string, corte: Corte)
    requires nome != [] && !IsDigit(nome[0]) && UltimoTokenNumerico(nome).tok.Some?
    ensures ExtrairCom(nome, descricao, corte).nomeSugerido
      == Sugestao(PyStrip(Antes(nome, UltimoTokenNumerico(nome).inicio.value, corte)), nome)
  {
    UltimoTokenNumericoCorreto(nome);
  }

  lemma {:induction false} AntesComoEscrito(ws: string, w: string, n: string)
    requires AllPySpace(ws) && 2 <= |ws| <= |w| && Palavra(w)
    ensures Sugestao(PyStrip(Antes(ws + w + " " + n, |w| + 1, ComoEscrito)), ws + w + " " + n) == w[..|w| + 1 - |ws|]
  {
    var x := w[..|w| + 1 - |ws|];
    assert Antes(ws + w + " " + n, |w| + 1, ComoEscrito) == ws + x by {
      assert (ws + w + " " + n)[..|w| + 1] == ws + x;
    }
    assert Palavra(x);
    assert PyStrip(ws + x) == x by {
      PalavraBordas(x);
      PyLStripSpacePrefix(ws, x);
      assert PyLStrip(x) == x;
      PyStripSemBordas(x);
    }
    SugestaoPalavra(x, ws + w + " " + n);
  }

  lemma {:induction false} AntesCorrigido(w: string, n: string)
    requires Palavra(w) && AllDigits(n) && |n| >= 2
    ensures forall ws :: AllPySpace(ws) && PyStrip(ws + w + " " + n) == w + " " + n ==>
      Sugestao(PyStrip(Antes(ws + w + " " + n, |w| + 1, Corrigido)), ws + w + " " + n) == w
  {
    var y := (w + " " + n)[..|w| + 1];
    assert y == w + " ";
    assert PyLStrip(y) == y;
    assert PyRStrip(y) == PyRStrip(w);
    PyStripSemBordas(w);
    forall ws | AllPySpace(ws) && PyStrip(ws + w + " " + n) == w + " " + n
      ensures Sugestao(PyStrip(Antes(ws + w + " " + n, |w| + 1, Corrigido)), ws + w + " " + n) == w
    {
      SugestaoPalavra(w, ws + w + " " + n);
    }
  }

  /** The blanks-in-front case on the name "  MESA 12": the source suggests "MES". */
  lemma ExtractOriginalMesa()
    ensures ExtractOriginal("  MESA 12", "").nomeSugerido == "MES"
  {
    MesaPartes();
    ExtractOriginalCorta("  ", "MESA", "12", "");
    assert "MESA"[..3] == "MES";
  }

  /** The same name with the cut taken in the stripped name: "MESA". */
  lemma ExtractMesa()
    ensures Extract("  MESA 12", "").nomeSugerido == "MESA"
  {
    MesaPartes();
    ExtractOriginalCorta("  ", "MESA", "12", "");
  }

  lemma MesaPartes()
    ensures "  MESA 12" == "  " + "MESA" + " " + "12"
    ensures AllPySpace("  ") && Palavra("MESA") && AllDigits("12")
  {
  }


  // ---------------------------------------------------------------------
  // aplicar_extracao_numero
  // ---------------------------------------------------------------------

  /** The asset fields the batch action reads and writes. */
  datatype BemRegistro = BemRegistro(
    nome: string,
    descricao: string,
    numero: Option<string>,
    formatoAntigo: bool,
    semNumeracao: bool)

  /** `numero_patrimonial` is null or empty. */
  predicate NumeroVazio(b: BemRegistro) {
    b.numero.None? || b.numero == Some("")
  }

  /** What happened to one asset: saved, refused by validation, or skipped. */
  datatype Desfecho = Atualizado | Falhou | Ignorado

  /** The fields the extraction writes into an asset before it is validated. */
  function Alteracao(b: BemRegistro, e: Extracao): BemRegistro {
    var comNumero := match e.classe
      case PadraoAtual => b.(numero := e.numero, formatoAntigo := false, semNumeracao := false)
      case PadraoAnterior => b.(numero := e.numero, formatoAntigo := true, semNumeracao := false)
      case SemNumero => b.(semNumeracao := true);
    if e.nomeSugerido != [] && e.nomeSugerido != b.nome then comNumero.(nome := e.nomeSugerido) else comNumero
  }

  /**
   * The body of the loop for one asset: the stored asset afterwards and
   * the outcome, with the name cut as `corte` says (`ComoEscrito` is the
   * action as the source runs it). `valida` stands for `full_clean`; a
   * refused asset is not saved, so its stored fields stay as they were.
   */
  function Processar(b: BemRegistro, valida: BemRegistro -> bool, corte: Corte): (BemRegistro, Desfecho) {
    Aplicar(b, ExtrairCom(b.nome, b.descricao, corte), valida)
  }

  /** The loop body for one asset once its extraction `e` is known. */
  function Aplicar(b: BemRegistro, e: Extracao, valida: BemRegistro -> bool): (BemRegistro, Desfecho) {
    if !e.aplicarAuto then
      if e.classe == SemNumero || e.numero.None? || e.numero == Some("") then
        var novo := b.(semNumeracao := true);
        if valida(novo) then (novo, Atualizado) else (b, Falhou)
      else (b, Ignorado)
    else
      var novo := Alteracao(b, e);
      if valida(novo) then (novo, Atualizado) else (b, Falhou)
  }

  /**
   * Every asset is either saved or counted as an error, never skipped; an
   * error leaves it as it was; the description is never changed; a saved
   * asset passed validation, and it carries the extracted number with the
   * format flag of its class, or is marked as having no number when
   * nothing was found.
   */
  lemma ProcessarCorreto(b: BemRegistro, valida: BemRegistro -> bool, corte: Corte)
    ensures var (novo, desfecho) := Processar(b, valida, corte);
      var e := ExtrairCom(b.nome, b.descricao, corte);
      desfecho != Ignorado
      && (desfecho == Falhou ==> novo == b)
      && novo.descricao == b.descricao
      && (desfecho == Atualizado ==> valida(novo))
      && (desfecho == Atualizado && !e.aplicarAuto ==> novo == b.(semNumeracao := true))
      && (desfecho == Atualizado && e.aplicarAuto ==>
            novo.numero == e.numero && novo.numero.Some? && !novo.semNumeracao
            && (novo.formatoAntigo <==> e.classe == PadraoAnterior))
  {
    ExtractCorreto(b.nome, b.descricao, corte);
  }

  /** Each processed asset increments exactly one of the two counters, whichever the cut. */
  lemma ProcessarNuncaIgnora(b: BemRegistro, valida: BemRegistro -> bool, corte: Corte)
    ensures Processar(b, valida, corte).1 == Atualizado || Processar(b, valida, corte).1 == Falhou
  {
    ProcessarCorreto(b, valida, corte);
  }

  /**
   * The action saves the name `_extract` suggests: with the cut as
   * written, "  MESA 12" is stored as "MES"; with the corrected cut, as
   * "MESA". Either way the same number is stored with it.
   */
  lemma ProcessarMesa(valida: BemRegistro -> bool)
    requires forall x :: valida(x)
    ensures var b := BemRegistro("  MESA 12", "", None, false, false);
      Processar(b, valida, ComoEscrito).1 == Atualizado
      && Processar(b, valida, ComoEscrito).0.nome == "MES"
      && Processar(b, valida, Corrigido).0.nome == "MESA"
      && Processar(b, valida, ComoEscrito).0.numero == Processar(b, valida, Corrigido).0.numero
  {
    var b := BemRegistro("  MESA 12", "", None, false, false);
    ExtractOriginalMesa();
    ExtractMesa();
    assert "MES" != b.nome && "MESA" != b.nome by {
      assert |"MES"| != |b.nome| && |"MESA"| != |b.nome|;
    }
    ProcessarSugerido(b, valida, ComoEscrito, "MES");
    ProcessarSugerido(b, valida, Corrigido, "MESA");
    CorteSoNoNome(b.nome, b.descricao);
  }

  /** A suggested name other than the stored one is what a validated asset is saved with. */
  lemma ProcessarSugerido(b: BemRegistro, valida: BemRegistro -> bool, corte: Corte, nome: string)
    requires forall x :: valida(x)
    requires ExtrairCom(b.nome, b.descricao, corte).nomeSugerido == nome && nome != [] && nome != b.nome
    ensures Processar(b, valida, corte).1 == Atualizado && Processar(b, valida, corte).0.nome == nome
    ensures Processar(b, valida, corte).0.numero == ExtrairCom(b.nome, b.descricao, corte).numero
  {
    ExtractCorreto(b.nome, b.descricao, corte);
  }

  /** The cut changes the suggested name and nothing else of the extraction. */
  lemma CorteSoNoNome(nome: string, descricao: string)
    ensures ExtractOriginal(nome, descricao)
      == Extract(nome, descricao).(nomeSugerido := ExtractOriginal(nome, descricao).nomeSugerido)
  {
  }

  /** An extractor whose "nothing to apply" always comes with SEM_NUMERO, as `_extract`'s does. */
  predicate Coerente(extrair: (string, string) -> Extracao, bens: seq<BemRegistro>) {
    forall k :: 0 <= k < |bens| ==>
      extrair(bens[k].nome, bens[k].descricao).aplicarAuto
      || extrair(bens[k].nome, bens[k].descricao).classe == SemNumero
  }

  /** `_extract` is coherent with either cut. */
  lemma ExtractCoerente(bens: seq<BemRegistro>)
    ensures Coerente(ExtractOriginal, bens)
    ensures Coerente(Extract, bens)
  {
    forall k | 0 <= k < |bens|
      ensures ExtractOriginal(bens[k].nome, bens[k].descricao).aplicarAuto
        || ExtractOriginal(bens[k].nome, bens[k].descricao).classe == SemNumero
      ensures Extract(bens[k].nome, bens[k].descricao).aplicarAuto
        || Extract(bens[k].nome, bens[k].descricao).classe == SemNumero
    {
      ExtractCorreto(bens[k].nome, bens[k].descricao, ComoEscrito);
      ExtractCorreto(bens[k].nome, bens[k].descricao, Corrigido);
    }
  }

  /** The loop body for one asset, with the extraction done by `extrair`. */
  function Passo(b: BemRegistro, extrair: (string, string) -> Extracao, valida: BemRegistro -> bool): (BemRegistro, Desfecho) {
    Aplicar(b, extrair(b.nome, b.descricao), valida)
  }

  /** The assets of the selection whose number is null or empty. */
  function Candidatos(bens: seq<BemRegistro>, selecionados: set<nat>): set<nat> {
    set k | k in selecionados && k < |bens| && NumeroVazio(bens[k])
  }

  /** The candidates whose processing ends in `d`. */
  function ComDesfecho(bens: seq<BemRegistro>, ks: set<nat>, extrair: (string, string) -> Extracao,
                       valida: BemRegistro -> bool, d: Desfecho): set<nat> {
    set k | k in ks && k < |bens| && Passo(bens[k], extrair, valida).1 == d
  }

  /** The messages the action leaves for the user. */
  datatype Mensagem = SemPermissao | Resumo(atualizados: nat, erros: nat)

  /** How the action answers. */
  datatype Resposta = Negado | Confirmacao(candidatos: set<nat>) | Aplicado(atualizados: nat, erros: nat)

  /** The stored assets, indexed by primary key, and the messages shown to the user. */
  class Acervo {
    var bens: seq<BemRegistro>
    var mensagens: seq<Mensagem>

    constructor(bens: seq<BemRegistro>)
      ensures this.bens == bens && mensagens == []
    {
      this.bens := bens;
      mensagens := [];
    }

    /**
     * `aplicar_extracao_numero`: refused with a message for a user who is
     * not an asset manager; without the confirmation it only lists the
     * candidates; once confirmed, every candidate is processed and counted
     * as updated or as an error, and the counts are reported. The
     * extraction is `_extract` as written, cut included, so the names saved
     * are the ones the source saves (ProcessarMesa).
     */
    method AplicarExtracaoNumero(ehGestor: bool, confirmado: bool, selecionados: set<nat>, valida: BemRegistro -> bool)
      returns (r: Resposta)
      modifies this
      ensures !ehGestor ==> bens == old(bens) && r == Negado && mensagens == old(mensagens) + [SemPermissao]
      ensures ehGestor && !confirmado ==>
        bens == old(bens) && mensagens == old(mensagens) && r == Confirmacao(Candidatos(old(bens), selecionados))
      ensures ehGestor && confirmado ==>
        var candidatos := Candidatos(old(bens), selecionados);
        |bens| == |old(bens)|
        && (forall k :: 0 <= k < |bens| ==>
              bens[k] == if k in candidatos then Processar(old(bens)[k], valida, ComoEscrito).0 else old(bens)[k])
        && r == Aplicado(|ComDesfecho(old(bens), candidatos, ExtractOriginal, valida, Atualizado)|,
                         |ComDesfecho(old(bens), candidatos, ExtractOriginal, valida, Falhou)|)
        && r.atualizados + r.erros == |candidatos|
        && mensagens == old(mensagens) + [Resumo(r.atualizados, r.erros)]
    {
      if !ehGestor {
        mensagens := mensagens + [SemPermissao];
        return Negado;
      }
      var candidatos := Candidatos(bens, selecionados);
      if !confirmado {
        return Confirmacao(candidatos);
      }
      var atualizados, erros := ProcessarCandidatos(candidatos, ExtractOriginal, valida);
      ExtractCoerente(old(bens));
      ContagemCandidatos(old(bens), selecionados, ExtractOriginal, valida);
      mensagens := mensagens + [Resumo(atualizados, erros)];
      r := Aplicado(atualizados, erros);
    }

    /**
     * The confirmed loop over the candidates, counting the outcomes. The
     * assets are visited in key order; each asset's outcome depends on
     * that asset alone.
     */
    method ProcessarCandidatos(candidatos: set<nat>, extrair: (string, string) -> Extracao, valida: BemRegistro -> bool)
      returns (atualizados: nat, erros: nat)
      modifies this
      ensures mensagens == old(mensagens) && |bens| == |old(bens)|
      ensures bens == Processados(old(bens), candidatos, extrair, valida, |bens|)
      ensures atualizados == Contagem(old(bens), candidatos, extrair, valida, Atualizado, |bens|)
      ensures erros == Contagem(old(bens), candidatos, extrair, valida, Falhou, |bens|)
    {
      ghost var inicial := bens;
      var atuais := bens;
      atualizados, erros := 0, 0;
      var i := 0;
      while i < |atuais|
        invariant i <= |atuais| == |inicial|
        invariant atuais == Processados(inicial, candidatos, extrair, valida, i)
        invariant mensagens == old(mensagens) && bens == inicial
        invariant atualizados == Contagem(inicial, candidatos, extrair, valida, Atualizado, i)
        invariant erros == Contagem(inicial, candidatos, extrair, valida, Falhou, i)
      {
        ContagemPasso(inicial, candidatos, extrair, valida, Atualizado, i);
        ContagemPasso(inicial, candidatos, extrair, valida, Falhou, i);
        ProcessadosPasso(inicial, candidatos, extrair, valida, i);
        if i in candidatos {
          var resultado := Passo(atuais[i], extrair, valida);
          atuais := atuais[i := resultado.0];
          if resultado.1 == Atualizado {
            atualizados := atualizados + 1;
          } else if resultado.1 == Falhou {
            erros := erros + 1;
          }
        }
        i := i + 1;
      }
      bens := atuais;
    }
  }

  /** The assets after the candidates below `n` have been processed, each on its own. */
  function Processados(bens: seq<BemRegistro>, candidatos: set<nat>, extrair: (string, string) -> Extracao,
                       valida: BemRegistro -> bool, n: nat): (r: seq<BemRegistro>)
    ensures |r| == |bens|
  {
    seq(|bens|, k requires 0 <= k < |bens| =>
      if k < n && k in candidatos then Passo(bens[k], extrair, valida).0 else bens[k])
  }

  /** Processing asset `i` changes that asset alone, using its original value. */
  lemma ProcessadosPasso(bens: seq<BemRegistro>, candidatos: set<nat>, extrair: (string, string) -> Extracao,
                         valida: BemRegistro -> bool, i: nat)
    requires i < |bens|
    ensures var p := Processados(bens, candidatos, extrair, valida, i);
      p[i] == bens[i]
      && Processados(bens, candidatos, extrair, valida, i + 1)
        == if i in candidatos then p[i := Passo(bens[i], extrair, valida).0] else p
  {
  }

  /** How many of the candidates below `n` end in `d`. */
  function Contagem(bens: seq<BemRegistro>, candidatos: set<nat>, extrair: (string, string) -> Extracao,
                    valida: BemRegistro -> bool, d: Desfecho, n: nat): nat
    requires n <= |bens|
  {
    if n == 0 then 0
    else
      var conta := if n - 1 in candidatos && Passo(bens[n - 1], extrair, valida).1 == d then 1 else 0;
      Contagem(bens, candidatos, extrair, valida, d, n - 1) + conta
  }

  lemma ContagemPasso(bens: seq<BemRegistro>, candidatos: set<nat>, extrair: (string, string) -> Extracao,
                      valida: BemRegistro -> bool, d: Desfecho, i: nat)
    requires i < |bens|
    ensures Contagem(bens, candidatos, extrair, valida, d, i + 1)
      == Contagem(bens, candidatos, extrair, valida, d, i) + (if i in candidatos && Passo(bens[i], extrair, valida).1 == d then 1 else 0)
  {
  }

  /** The candidates below `n`. */
  function Abaixo(ks: set<nat>, n: nat): set<nat> {
    set k | k in ks && k < n
  }

  /**
   * The loop's counters are the number of candidates below `n` ending in
   * each outcome, and together they count every candidate below `n`.
   */
  lemma ContagemAbaixo(bens: seq<BemRegistro>, candidatos: set<nat>, extrair: (string, string) -> Extracao,
                       valida: BemRegistro -> bool, n: nat)
    requires n <= |bens| && Coerente(extrair, bens)
    ensures Contagem(bens, candidatos, extrair, valida, Atualizado, n)
      == |Abaixo(ComDesfecho(bens, candidatos, extrair, valida, Atualizado), n)|
    ensures Contagem(bens, candidatos, extrair, valida, Falhou, n)
      == |Abaixo(ComDesfecho(bens, candidatos, extrair, valida, Falhou), n)|
    ensures Contagem(bens, candidatos, extrair, valida, Atualizado, n)
      + Contagem(bens, candidatos, extrair, valida, Falhou, n)
      == |Abaixo(candidatos, n)|
  {
    ContagemDesfecho(bens, candidatos, extrair, valida, Atualizado, n);
    ContagemDesfecho(bens, candidatos, extrair, valida, Falhou, n);
    ContagemSoma(bens, candidatos, extrair, valida, n);
  }

  /** The counter of one outcome is the number of candidates below `n` with that outcome. */
  lemma {:induction false} ContagemDesfecho(bens: seq<BemRegistro>, candidatos: set<nat>, extrair: (string, string) -> Extracao,
                                            valida: BemRegistro -> bool, d: Desfecho, n: nat)
    requires n <= |bens|
    ensures Contagem(bens, candidatos, extrair, valida, d, n)
      == |Abaixo(ComDesfecho(bens, candidatos, extrair, valida, d), n)|
  {
    if n > 0 {
      ContagemDesfecho(bens, candidatos, extrair, valida, d, n - 1);
      AbaixoPasso(ComDesfecho(bens, candidatos, extrair, valida, d), n);
    }
  }

  /** With a coherent extraction the two counters together count every candidate below `n`. */
  lemma {:induction false} ContagemSoma(bens: seq<BemRegistro>, candidatos: set<nat>, extrair: (string, string) -> Extracao,
                                        valida: BemRegistro -> bool, n: nat)
    requires n <= |bens| && Coerente(extrair, bens)
    ensures Contagem(bens, candidatos, extrair, valida, Atualizado, n)
      + Contagem(bens, candidatos, extrair, valida, Falhou, n)
      == |Abaixo(candidatos, n)|
  {
    if n > 0 {
      ContagemSoma(bens, candidatos, extrair, valida, n - 1);
      AplicarNuncaIgnora(bens[n - 1], extrair(bens[n - 1].nome, bens[n - 1].descricao), valida);
      AbaixoPasso(candidatos, n);
    }
  }


  /** With a coherent extraction, an asset is always saved or counted as an error. */
  lemma AplicarNuncaIgnora(b: BemRegistro, e: Extracao, valida: BemRegistro -> bool)
    requires e.aplicarAuto || e.classe == SemNumero
    ensures Aplicar(b, e, valida).1 == Atualizado || Aplicar(b, e, valida).1 == Falhou
  {
  }

  lemma AbaixoPasso(ks: set<nat>, n: nat)
    requires n > 0
    ensures |Abaixo(ks, n)| == |Abaixo(ks, n - 1)| + if n - 1 in ks then 1 else 0
  {
    if n - 1 in ks {
      assert Abaixo(ks, n) == Abaixo(ks, n - 1) + {n - 1};
    } else {
      assert Abaixo(ks, n) == Abaixo(ks, n - 1);
    }
  }

  /** Over all the stored assets, the counters are the sizes of the outcome sets and add up to the candidates. */
  lemma ContagemCandidatos(bens: seq<BemRegistro>, selecionados: set<nat>, extrair: (string, string) -> Extracao,
                           valida: BemRegistro -> bool)
    requires Coerente(extrair, bens)
    ensures var candidatos := Candidatos(bens, selecionados);
      Contagem(bens, candidatos, extrair, valida, Atualizado, |bens|)
        == |ComDesfecho(bens, candidatos, extrair, valida, Atualizado)|
      && Contagem(bens, candidatos, extrair, valida, Falhou, |bens|)
        == |ComDesfecho(bens, candidatos, extrair, valida, Falhou)|
      && Contagem(bens, candidatos, extrair, valida, Atualizado, |bens|)
        + Contagem(bens, candidatos, extrair, valida, Falhou, |bens|)
        == |candidatos|
  {
    var candidatos := Candidatos(bens, selecionados);
    ContagemAbaixo(bens, candidatos, extrair, valida, |bens|);
    assert Abaixo(candidatos, |bens|) == candidatos;
    assert Abaixo(ComDesfecho(bens, candidatos, extrair, valida, Atualizado), |bens|)
      == ComDesfecho(bens, candidatos, extrair, valida, Atualizado);
    assert Abaixo(ComDesfecho(bens, candidatos, extrair, valida, Falhou), |bens|)
      == ComDesfecho(bens, candidatos, extrair, valida, Falhou);
  }
}
