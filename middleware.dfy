/**
 * The forced-password-change middleware: which admin requests are sent to
 * the password-change page, and the one-shot session flag that asks for it.
 */
module Middleware {
  import opened Base

  /** The admin site's path segment. */
  const AdminSegmento := "admin"
  /** The admin site prefix, `/admin/`. */
  const AdminPrefix := "/" + AdminSegmento + "/"
  /** Where `reverse("password_change")` points: the admin site's password-change page. */
  const TrocaSenha := "/admin/password-change/"
  /** The session key set at the first admin login. */
  const Flag := "force_pw_change_first_admin"

  /**
   * What the middleware reads from a request: whether a user is attached
   * and authenticated, the path, the full path with its query string, and
   * the user's `must_change_password` flag (false when absent).
   */
  datatype Requisicao = Requisicao(autenticado: bool, path: string, fullPath: string, deveTrocar: bool)

  /** Pass the request on, or redirect to `local`. */
  datatype Resposta = Seguir | Redirecionar(local: string)

  predicate StartsWith(s: string, prefix: string) {
    |prefix| <= |s| && s[..|prefix|] == prefix
  }

  // ---------------------------------------------------------------------
  // urlencode({"next": …})
  // ---------------------------------------------------------------------

  /** Characters `quote_plus` leaves alone: letters, digits and `_.-~`. */
  predicate Seguro(c: char) {
    ('A' <= c <= 'Z') || ('a' <= c <= 'z') || IsDigit(c) || c == '_' || c == '.' || c == '-' || c == '~'
  }

  const Hex := "0123456789ABCDEF"

  /** `%XX` for one byte, upper-case hexadecimal. */
  function PorCento(b: nat): (r: string)
    requires b < 256
    ensures |r| == 3 && r[0] == '%'
  {
    ['%', Hex[b / 16], Hex[b % 16]]
  }

  /** The UTF-8 bytes of a character. */
  function Utf8(c: char): (r: seq<nat>)
    ensures 1 <= |r| <= 4 && forall i :: 0 <= i < |r| ==> r[i] < 256
  {
    var n := c as int;
    if n < 0x80 then [n]
    else if n < 0x800 then [0xC0 + n / 64, 0x80 + n % 64]
    else if n < 0x10000 then [0xE0 + n / 4096, 0x80 + (n / 64) % 64, 0x80 + n % 64]
    else [0xF0 + n / 262144, 0x80 + (n / 4096) % 64, 0x80 + (n / 64) % 64, 0x80 + n % 64]
  }

  function PorCentoBytes(bs: seq<nat>): string
    requires forall i :: 0 <= i < |bs| ==> bs[i] < 256
  {
    if bs == [] then "" else PorCento(bs[0]) + PorCentoBytes(bs[1..])
  }

  function QuoteChar(c: char): string {
    if Seguro(c) then [c]
    else if c == ' ' then "+"
    else PorCentoBytes(Utf8(c))
  }

  /** `quote_plus(s, safe='')`, as `urlencode` applies it to a value. */
  function QuotePlus(s: string): string {
    if s == [] then "" else QuoteChar(s[0]) + QuotePlus(s[1..])
  }

  /** The characters an encoded value may hold. */
  predicate Codificado(c: char) {
    Seguro(c) || c == '%' || c == '+'
  }

  lemma PorCentoBytesCodificado(bs: seq<nat>)
    requires forall i :: 0 <= i < |bs| ==> bs[i] < 256
    ensures forall i :: 0 <= i < |PorCentoBytes(bs)| ==> Codificado(PorCentoBytes(bs)[i])
  {
  }

  /**
   * An encoded value holds only letters, digits, `_.-~`, `%` and `+`: no
   * `&`, `=`, `#`, `?` or `/`, so the whole path is one query value.
   */
  lemma {:induction false} QuotePlusCodificado(s: string)
    ensures forall i :: 0 <= i < |QuotePlus(s)| ==> Codificado(QuotePlus(s)[i])
  {
    if s != [] {
      QuotePlusCodificado(s[1..]);
      if !Seguro(s[0]) && s[0] != ' ' {
        PorCentoBytesCodificado(Utf8(s[0]));
      }
    }
  }

  function ValorHex(c: char): Option<nat> {
    if IsDigit(c) then Some(DigitValue(c))
    else if 'A' <= c <= 'F' then Some(c as int - 'A' as int + 10)
    else None
  }

  /** `unquote_plus` on text whose escapes are single ASCII bytes. */
  function UnquotePlus(s: string): string
    decreases |s|
  {
    if s == [] then ""
    else if s[0] == '+' then " " + UnquotePlus(s[1..])
    else if s[0] == '%' && |s| >= 3 && ValorHex(s[1]).Some? && ValorHex(s[2]).Some?
            && 16 * ValorHex(s[1]).value + ValorHex(s[2]).value < 128
    then [(16 * ValorHex(s[1]).value + ValorHex(s[2]).value) as char] + UnquotePlus(s[3..])
    else [s[0]] + UnquotePlus(s[1..])
  }

  predicate Ascii(s: string) {
    forall i :: 0 <= i < |s| ==> s[i] as int < 128
  }

  lemma UnquotePorCento(n: nat, resto: string)
    requires n < 128
    ensures UnquotePlus(PorCento(n) + resto) == [n as char] + UnquotePlus(resto)
  {
    var q := PorCento(n) + resto;
    assert ValorHex(Hex[n / 16]) == Some(n / 16);
    assert ValorHex(Hex[n % 16]) == Some(n % 16);
    assert q[3..] == resto;
  }

  lemma UnquoteChar(c: char, resto: string)
    requires c as int < 128
    ensures UnquotePlus(QuoteChar(c) + resto) == [c] + UnquotePlus(resto)
  {
    if !Seguro(c) && c != ' ' {
      assert Utf8(c) == [c as int];
      assert PorCentoBytes([c as int]) == PorCento(c as int) + "";
      assert QuoteChar(c) == PorCento(c as int);
      UnquotePorCento(c as int, resto);
    }
  }

  /** For an ASCII path, decoding the `next` value gives the path back. */
  lemma {:induction false} QuotePlusVolta(s: string)
    requires Ascii(s)
    ensures UnquotePlus(QuotePlus(s)) == s
  {
    if s != [] {
      UnquoteChar(s[0], QuotePlus(s[1..]));
      QuotePlusVolta(s[1..]);
    }
  }

  lemma {:induction false} QuotePlusConcat(a: string, b: string)
    ensures QuotePlus(a + b) == QuotePlus(a) + QuotePlus(b)
  {
    if a != [] {
      assert (a + b)[1..] == a[1..] + b;
      QuotePlusConcat(a[1..], b);
    } else {
      assert a + b == b;
    }
  }

  /** A value made of safe characters only is left as it is. */
  lemma {:induction false} QuotePlusSeguro(s: string)
    requires forall i :: 0 <= i < |s| ==> Seguro(s[i])
    ensures QuotePlus(s) == s
  {
    if s != [] {
      QuotePlusSeguro(s[1..]);
    }
  }

  lemma QuotePlusBarra()
    ensures QuotePlus("/") == "%2F"
  {
    assert "/"[1..] == "";
    assert Utf8('/') == [47];
    assert PorCentoBytes([47]) == PorCento(47) + "";
  }

  /** A path of one safe segment between slashes is encoded with both slashes escaped. */
  lemma QuotePlusSegmento(seg: string)
    requires forall i :: 0 <= i < |seg| ==> Seguro(seg[i])
    ensures QuotePlus("/" + seg + "/") == "%2F" + seg + "%2F"
  {
    QuotePlusConcat("/" + seg, "/");
    QuotePlusConcat("/", seg);
    QuotePlusSeguro(seg);
    QuotePlusBarra();
  }

  /** The path of the test request, `/admin/`, is encoded as `%2Fadmin%2F`. */
  lemma QuotePlusAdmin()
    ensures QuotePlus(AdminPrefix) == "%2F" + AdminSegmento + "%2F"
  {
    forall i | 0 <= i < |AdminSegmento| ensures Seguro(AdminSegmento[i]) {
      assert 'a' <= AdminSegmento[i] <= 'z';
    }
    QuotePlusSegmento(AdminSegmento);
  }




  /** The redirect target: the password-change page with `next` set to the full path. */
  function Destino(fullPath: string): string {
    TrocaSenha + "?next=" + QuotePlus(fullPath)
  }

  // ---------------------------------------------------------------------
  // The decision
  // ---------------------------------------------------------------------

  /** The request falls under the middleware: an authenticated user on an admin path. */
  predicate Vigiado(req: Requisicao) {
    req.autenticado && StartsWith(req.path, AdminPrefix)
  }

  /** The session flag is read (and consumed) only here. */
  predicate LeFlag(req: Requisicao) {
    Vigiado(req) && !StartsWith(req.path, TrocaSenha)
  }

  /** Whether the session holds a truthy value under `Flag`. */
  predicate FlagAtiva(sessao: map<string, bool>) {
    Flag in sessao && sessao[Flag]
  }

  /** The response to `req` given the session. */
  function Decidir(req: Requisicao, sessao: map<string, bool>): Resposta {
    if LeFlag(req) && (FlagAtiva(sessao) || req.deveTrocar) then Redirecionar(Destino(req.fullPath))
    else Seguir
  }

  /** The session after the call: the flag is popped when it fired, and only then. */
  function SessaoApos(req: Requisicao, sessao: map<string, bool>): map<string, bool> {
    if LeFlag(req) && FlagAtiva(sessao) then sessao - {Flag} else sessao
  }

  /** Requests from anonymous users, and paths outside the admin, are passed on and the session is left alone. */
  lemma ForaDoAdmin(req: Requisicao, sessao: map<string, bool>)
    requires !Vigiado(req)
    ensures Decidir(req, sessao) == Seguir && SessaoApos(req, sessao) == sessao
  {
  }

  /** The password-change page itself is always reachable, so the redirect cannot loop. */
  lemma TrocaSenhaLivre(req: Requisicao, sessao: map<string, bool>)
    requires StartsWith(req.path, TrocaSenha)
    ensures Decidir(req, sessao) == Seguir && SessaoApos(req, sessao) == sessao
  {
  }

  /** The redirect target is never caught again: it lies under the password-change page. */
  lemma DestinoLivre(fullPath: string)
    ensures StartsWith(Destino(fullPath), TrocaSenha)
  {
    assert Destino(fullPath)[..|TrocaSenha|] == TrocaSenha;
  }

  /** The request is redirected exactly when the flag is up or the user must change the password. */
  lemma Redireciona(req: Requisicao, sessao: map<string, bool>)
    requires LeFlag(req)
    ensures Decidir(req, sessao).Redirecionar? <==> FlagAtiva(sessao) || req.deveTrocar
    ensures Decidir(req, sessao).Redirecionar? ==> Decidir(req, sessao).local == Destino(req.fullPath)
  {
  }

  /**
   * The flag fires once: after any call, the same request is passed on
   * unless the user itself must change the password.
   */
  lemma UmaVez(req: Requisicao, sessao: map<string, bool>)
    requires !req.deveTrocar
    ensures Decidir(req, SessaoApos(req, sessao)) == Seguir
  {
  }

  /** Nothing else in the session is touched. */
  lemma SessaoPreservada(req: Requisicao, sessao: map<string, bool>, k: string)
    requires k != Flag
    ensures k in SessaoApos(req, sessao) <==> k in sessao
    ensures k in sessao ==> SessaoApos(req, sessao)[k] == sessao[k]
  {
  }

  /** A request's session. */
  class Sessao {
    var dados: map<string, bool>

    constructor(dados: map<string, bool>)
      ensures this.dados == dados
    {
      this.dados := dados;
    }
  }

  /** `ForcePasswordChangeMiddleware.__call__`. */
  method Chamar(req: Requisicao, sessao: Sessao) returns (resp: Resposta)
    modifies sessao
    ensures resp == Decidir(req, old(sessao.dados))
    ensures sessao.dados == SessaoApos(req, old(sessao.dados))
  {
    if req.autenticado && StartsWith(req.path, AdminPrefix) {
      if StartsWith(req.path, TrocaSenha) {
        return Seguir;
      }
      if Flag in sessao.dados && sessao.dados[Flag] {
        sessao.dados := sessao.dados - {Flag};
        return Redirecionar(Destino(req.fullPath));
      }
      if req.deveTrocar {
        return Redirecionar(Destino(req.fullPath));
      }
    }
    return Seguir;
  }
}
