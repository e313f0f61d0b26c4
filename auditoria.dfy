/**
 * The audit helpers: the text an attribute value is recorded as, and the
 * per-field diff between two versions of an object.
 */
module Auditoria {
  import opened Base

  /**
   * An attribute value as far as its text goes: `None`, a model instance
   * (its primary key, `None` while unsaved, and its `str()`), or any other
   * value, given by its `str()`.
   */
  datatype Valor = Nulo | Instancia(pk: Option<nat>, texto: string) | Outro(texto: string)

  /** `f"{pk}"`. */
  function PkTexto(pk: Option<nat>): string {
    if pk.None? then "None" else NatToString(pk.value)
  }

  /** `repr_value`. */
  function ReprValue(v: Valor): string {
    match v
    case Nulo => ""
    case Instancia(pk, texto) => PkTexto(pk) + " - " + texto
    case Outro(texto) => texto
  }

  lemma PkTextoInjetivo(p1: Option<nat>, p2: Option<nat>)
    requires PkTexto(p1) == PkTexto(p2)
    ensures p1 == p2
  {
    if p1.Some? && p2.Some? {
      assert Value(NatToString(p1.value)) == p1.value;
    }
  }

  /**
   * Two instances with the same `str()` are recorded differently when
   * their primary keys differ, and the same when they agree.
   */
  lemma ReprInstancia(p1: Option<nat>, p2: Option<nat>, texto: string)
    ensures ReprValue(Instancia(p1, texto)) == ReprValue(Instancia(p2, texto)) <==> p1 == p2
  {
    var a, b := PkTexto(p1) + " - ", PkTexto(p2) + " - ";
    if ReprValue(Instancia(p1, texto)) == ReprValue(Instancia(p2, texto)) {
      assert a + texto == b + texto;
      assert |a| == |b|;
      assert a == (a + texto)[..|a|];
      assert PkTexto(p1) == a[..|a| - 3] == b[..|b| - 3] == PkTexto(p2);
      PkTextoInjetivo(p1, p2);
    }
  }

  /** `None` and the empty text are recorded alike, so a change between them is not a change. */
  lemma NuloComoVazio()
    ensures ReprValue(Nulo) == ReprValue(Outro(""))
  {
  }

  /** An object's attributes by name. */
  type Objeto = map<string, Valor>

  /** `getattr(obj, f, None)`. */
  function Atributo(o: Objeto, f: string): Valor {
    if f in o then o[f] else Nulo
  }

  predicate Alterado(original: Objeto, atualizado: Objeto, f: string) {
    ReprValue(Atributo(original, f)) != ReprValue(Atributo(atualizado, f))
  }

  /** `[f for f in fields if f in set(only)]`. */
  function Filtrar(campos: seq<string>, only: seq<string>): (r: seq<string>)
    ensures forall f :: f in r <==> f in campos && f in only
  {
    if campos == [] then []
    else (if campos[0] in only then [campos[0]] else []) + Filtrar(campos[1..], only)
  }

  /** `set(ignore or [])`. */
  function Ignorados(ignore: Option<seq<string>>): set<string> {
    if ignore.Some? then set f | f in ignore.value else {}
  }

  /** The changes found over the fields `campos`, skipping `ign`. */
  function MudancasEm(original: Objeto, atualizado: Objeto, campos: seq<string>, ign: set<string>): map<string, (string, string)> {
    map f | f in campos && f !in ign && Alterado(original, atualizado, f)
      :: (ReprValue(Atributo(original, f)), ReprValue(Atributo(atualizado, f)))
  }

  /** Scanning one more field adds at most that field. */
  lemma MudancasEmPasso(original: Objeto, atualizado: Objeto, campos: seq<string>, f: string, ign: set<string>)
    ensures MudancasEm(original, atualizado, campos + [f], ign)
      == if f !in ign && Alterado(original, atualizado, f)
         then MudancasEm(original, atualizado, campos, ign)[f := (ReprValue(Atributo(original, f)), ReprValue(Atributo(atualizado, f)))]
         else MudancasEm(original, atualizado, campos, ign)
  {
    assert forall g :: g in campos + [f] <==> g in campos || g == f;
  }

  /** What `dict_changes` returns. */
  function Mudancas(
    original: Objeto, atualizado: Objeto, fields: seq<string>,
    only: Option<seq<string>>, ignore: Option<seq<string>>): map<string, (string, string)>
  {
    var campos := if only.Some? then Filtrar(fields, only.value) else fields;
    MudancasEm(original, atualizado, campos, Ignorados(ignore))
  }

  /** A field is considered when it is listed, allowed by `only` when given, and not ignored. */
  predicate Considerado(f: string, fields: seq<string>, only: Option<seq<string>>, ignore: Option<seq<string>>) {
    f in fields && (only.None? || f in only.value) && (ignore.None? || f !in ignore.value)
  }

  /**
   * The keys are exactly the considered fields whose recorded texts differ,
   * each mapped to its old and new text.
   */
  lemma MudancasCorreto(
    original: Objeto, atualizado: Objeto, fields: seq<string>,
    only: Option<seq<string>>, ignore: Option<seq<string>>, f: string)
    ensures f in Mudancas(original, atualizado, fields, only, ignore)
      <==> Considerado(f, fields, only, ignore) && Alterado(original, atualizado, f)
    ensures f in Mudancas(original, atualizado, fields, only, ignore) ==>
      Mudancas(original, atualizado, fields, only, ignore)[f]
        == (ReprValue(Atributo(original, f)), ReprValue(Atributo(atualizado, f)))
  {
  }

  /** Comparing an object with itself finds no change. */
  lemma MudancasProprio(o: Objeto, fields: seq<string>, only: Option<seq<string>>, ignore: Option<seq<string>>)
    ensures Mudancas(o, o, fields, only, ignore) == map[]
  {
  }

  /** A field missing from both objects reads as `None` on both sides and is never a change. */
  lemma MudancasAusente(
    original: Objeto, atualizado: Objeto, fields: seq<string>,
    only: Option<seq<string>>, ignore: Option<seq<string>>, f: string)
    requires f !in original && f !in atualizado
    ensures f !in Mudancas(original, atualizado, fields, only, ignore)
  {
  }

  /** `dict_changes`: the fields are scanned in order and each change is stored. */
  method DictChanges(
    original: Objeto, atualizado: Objeto, fields: seq<string>,
    only: Option<seq<string>>, ignore: Option<seq<string>>) returns (changes: map<string, (string, string)>)
    ensures changes == Mudancas(original, atualizado, fields, only, ignore)
  {
    var ign := Ignorados(ignore);
    var campos := fields;
    if only.Some? {
      campos := Filtrar(fields, only.value);
    }
    changes := map[];
    var i := 0;
    while i < |campos|
      invariant 0 <= i <= |campos|
      invariant changes == MudancasEm(original, atualizado, campos[..i], ign)
    {
      var f := campos[i];
      assert campos[..i + 1] == campos[..i] + [f];
      MudancasEmPasso(original, atualizado, campos[..i], f, ign);
      ghost var proximo := MudancasEm(original, atualizado, campos[..i + 1], ign);
      if f !in ign {
        var antigo := ReprValue(Atributo(original, f));
        var novo := ReprValue(Atributo(atualizado, f));
        if antigo != novo {
          changes := changes[f := (antigo, novo)];
        }
      }
      assert changes == proximo;
      i := i + 1;
    }
    assert campos[..|campos|] == campos;
  }
}
