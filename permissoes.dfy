/**
 * Group permissions: granting every permission whose codename is one of
 * the four verbs followed by a settings key, for the verbs the key lists.
 */
module Permissoes {
  /** A permission row: its id and its codename, such as `add_bempatrimonial`. */
  datatype Permissao = Permissao(id: nat, codename: string)

  /** The settings: each model key (`_bempatrimonial`, …) with the verbs it grants, in order. */
  type Settings = seq<(string, seq<string>)>

  /** The verbs considered; any other verb in the settings is ignored. */
  const Verbos: seq<string> := ["add", "change", "delete", "view"]

  /** One of the first `n` verbs, listed for `key`, spells `codename` in front of `key`. */
  predicate ConcedeAte(key: string, verbos: seq<string>, codename: string, n: nat)
    requires n <= |Verbos|
  {
    n > 0 && (ConcedeAte(key, verbos, codename, n - 1)
              || (Verbos[n - 1] + key == codename && Verbos[n - 1] in verbos))
  }

  predicate Concede(key: string, verbos: seq<string>, codename: string) {
    ConcedeAte(key, verbos, codename, |Verbos|)
  }

  /** One of the first `n` keys grants `codename`. */
  predicate AlgumaChave(settings: Settings, codename: string, n: nat)
    requires n <= |settings|
  {
    n > 0 && (AlgumaChave(settings, codename, n - 1)
              || Concede(settings[n - 1].0, settings[n - 1].1, codename))
  }

  /** The permissions among `ps` that the key `key` grants. */
  function PorChave(key: string, verbos: seq<string>, ps: seq<Permissao>): set<Permissao> {
    set p | p in ps && Concede(key, verbos, p.codename)
  }

  /** The permissions among `todas` that the first `n` keys grant. */
  function AteChave(settings: Settings, todas: seq<Permissao>, n: nat): set<Permissao>
    requires n <= |settings|
  {
    set p | p in todas && AlgumaChave(settings, p.codename, n)
  }

  /** Everything `atribuir_permissao(grupo, settings)` grants out of the permissions `todas`. */
  function Concedidas(settings: Settings, todas: seq<Permissao>): set<Permissao> {
    AteChave(settings, todas, |settings|)
  }

  lemma {:induction false} ConcedeAteSse(key: string, verbos: seq<string>, codename: string, n: nat)
    requires n <= |Verbos|
    ensures ConcedeAte(key, verbos, codename, n)
      <==> exists k :: 0 <= k < n && Verbos[k] + key == codename && Verbos[k] in verbos
  {
    if n > 0 {
      ConcedeAteSse(key, verbos, codename, n - 1);
    }
  }

  lemma {:induction false} AlgumaChaveSse(settings: Settings, codename: string, n: nat)
    requires n <= |settings|
    ensures AlgumaChave(settings, codename, n)
      <==> exists a :: 0 <= a < n && Concede(settings[a].0, settings[a].1, codename)
  {
    if n > 0 {
      AlgumaChaveSse(settings, codename, n - 1);
    }
  }

  /** The key entry lists `verbo`, and `verbo` followed by the key is `codename`. */
  predicate Lista(entrada: (string, seq<string>), verbo: string, codename: string) {
    verbo + entrada.0 == codename && verbo in entrada.1
  }

  /**
   * A permission is granted iff it is one of `todas` and some key of the
   * settings lists a verb of the four that, put in front of the key, gives its codename.
   */
  lemma ConcedidasSse(settings: Settings, todas: seq<Permissao>, p: Permissao)
    ensures p in Concedidas(settings, todas) <==>
      p in todas && exists a, k :: 0 <= a < |settings| && 0 <= k < |Verbos| && Lista(settings[a], Verbos[k], p.codename)
  {
    AlgumaChaveSse(settings, p.codename, |settings|);
    forall a | 0 <= a < |settings|
      ensures Concede(settings[a].0, settings[a].1, p.codename)
        <==> exists k :: 0 <= k < |Verbos| && Lista(settings[a], Verbos[k], p.codename)
    {
      ConcedeAteSse(settings[a].0, settings[a].1, p.codename, |Verbos|);
    }
  }

  lemma PorChavePasso(key: string, verbos: seq<string>, todas: seq<Permissao>, j: nat)
    requires j < |todas|
    ensures PorChave(key, verbos, todas[..j + 1])
      == PorChave(key, verbos, todas[..j]) + (if Concede(key, verbos, todas[j].codename) then {todas[j]} else {})
  {
    assert todas[..j + 1] == todas[..j] + [todas[j]];
  }

  lemma AteChavePasso(settings: Settings, todas: seq<Permissao>, i: nat)
    requires i < |settings|
    ensures AteChave(settings, todas, i + 1)
      == AteChave(settings, todas, i) + PorChave(settings[i].0, settings[i].1, todas)
  {
  }

  /** A group and the permissions it holds. */
  class Grupo {
    var permissoes: set<Permissao>

    constructor(permissoes: set<Permissao>)
      ensures this.permissoes == permissoes
    {
      this.permissoes := permissoes;
    }
  }

  /**
   * `atribuir_permissao`: for every key, every permission and every verb,
   * the permission is added when the codename matches and the key lists
   * the verb. The group gains exactly `Concedidas` and loses nothing.
   */
  method AtribuirPermissao(grupo: Grupo, settings: Settings, todas: seq<Permissao>)
    modifies grupo
    ensures grupo.permissoes == old(grupo.permissoes) + Concedidas(settings, todas)
  {
    ghost var g0 := grupo.permissoes;
    var i := 0;
    while i < |settings|
      invariant 0 <= i <= |settings|
      invariant grupo.permissoes == g0 + AteChave(settings, todas, i)
    {
      var (key, verbosDaChave) := settings[i];
      var j := 0;
      while j < |todas|
        invariant 0 <= j <= |todas|
        invariant grupo.permissoes == g0 + AteChave(settings, todas, i) + PorChave(key, verbosDaChave, todas[..j])
      {
        var permissao := todas[j];
        ghost var antes := grupo.permissoes;
        var k := 0;
        while k < |Verbos|
          invariant 0 <= k <= |Verbos|
          invariant grupo.permissoes == antes
            + (if ConcedeAte(key, verbosDaChave, permissao.codename, k) then {permissao} else {})
        {
          var verbo := Verbos[k];
          if verbo + key == permissao.codename && verbo in verbosDaChave {
            grupo.permissoes := grupo.permissoes + {permissao};
          }
          k := k + 1;
        }
        PorChavePasso(key, verbosDaChave, todas, j);
        j := j + 1;
      }
      assert todas[..|todas|] == todas;
      AteChavePasso(settings, todas, i);
      i := i + 1;
    }
  }

  /** Running it again adds nothing: the grant only adds, and adds the same permissions. */
  lemma Reexecutar(g: set<Permissao>, settings: Settings, todas: seq<Permissao>)
    ensures g + Concedidas(settings, todas) + Concedidas(settings, todas) == g + Concedidas(settings, todas)
  {
  }

  lemma {:induction false} ConcedeAteFora(key: string, verbos: seq<string>, v: string, codename: string, n: nat)
    requires n <= |Verbos| && v !in Verbos
    ensures ConcedeAte(key, verbos + [v], codename, n) == ConcedeAte(key, verbos, codename, n)
  {
    if n > 0 {
      ConcedeAteFora(key, verbos, v, codename, n - 1);
      assert Verbos[n - 1] != v;
    }
  }

  /** A verb outside add, change, delete and view grants nothing. */
  lemma VerboIgnorado(settings: Settings, a: nat, v: string, todas: seq<Permissao>)
    requires a < |settings| && v !in Verbos
    ensures Concedidas(settings[a := (settings[a].0, settings[a].1 + [v])], todas) == Concedidas(settings, todas)
  {
    var s2 := settings[a := (settings[a].0, settings[a].1 + [v])];
    forall p | p in todas
      ensures AlgumaChave(s2, p.codename, |s2|) == AlgumaChave(settings, p.codename, |settings|)
    {
      AlgumaChaveSse(s2, p.codename, |s2|);
      AlgumaChaveSse(settings, p.codename, |settings|);
      ConcedeAteFora(settings[a].0, settings[a].1, v, p.codename, |Verbos|);
      forall b | 0 <= b < |settings|
        ensures Concede(s2[b].0, s2[b].1, p.codename) == Concede(settings[b].0, settings[b].1, p.codename)
      {
      }
    }
  }

  /** Every key of `s1` appears in `s2` with at least the same verbs. */
  predicate Contido(s1: Settings, s2: Settings) {
    forall a :: 0 <= a < |s1| ==>
      exists b :: 0 <= b < |s2| && s2[b].0 == s1[a].0 && forall v :: v in s1[a].1 ==> v in s2[b].1
  }

  lemma {:induction false} ConcedeAteMonotono(key: string, v1: seq<string>, v2: seq<string>, codename: string, n: nat)
    requires n <= |Verbos|
    requires forall v :: v in v1 ==> v in v2
    requires ConcedeAte(key, v1, codename, n)
    ensures ConcedeAte(key, v2, codename, n)
  {
    if ConcedeAte(key, v1, codename, n - 1) {
      ConcedeAteMonotono(key, v1, v2, codename, n - 1);
    }
  }

  /** Settings contained in others grant no more than they do. */
  lemma Monotono(s1: Settings, s2: Settings, todas: seq<Permissao>)
    requires Contido(s1, s2)
    ensures Concedidas(s1, todas) <= Concedidas(s2, todas)
  {
    forall p | p in Concedidas(s1, todas)
      ensures p in Concedidas(s2, todas)
    {
      AlgumaChaveSse(s1, p.codename, |s1|);
      var a :| 0 <= a < |s1| && Concede(s1[a].0, s1[a].1, p.codename);
      var b :| 0 <= b < |s2| && s2[b].0 == s1[a].0 && forall v :: v in s1[a].1 ==> v in s2[b].1;
      ConcedeAteMonotono(s1[a].0, s1[a].1, s2[b].1, p.codename, |Verbos|);
      AlgumaChaveSse(s2, p.codename, |s2|);
    }
  }

  /** The gestor group's settings. */
  const GestorSettings: Settings := [
    ("_bempatrimonial", ["add", "change", "delete", "view"]),
    ("_movimentacaobempatrimonial", ["add", "change", "delete", "view"]),
    ("_unidadeadministrativabempatrimonial", ["view"]),
    ("_statusbempatrimonial", ["add", "change", "delete", "view"]),
    ("_usuario", ["add", "change", "view"]),
    ("_unidadeadministrativa", ["add", "change", "delete", "view"])
  ]

  /** The operador group's settings. */
  const OperadorSettings: Settings := [
    ("_bempatrimonial", ["add", "change", "delete", "view"]),
    ("_unidadeadministrativabempatrimonial", ["view"]),
    ("_movimentacaobempatrimonial", ["add", "change", "view"]),
    ("_statusbempatrimonial", ["view"])
  ]

  /** Key by key, the operador settings list no verb the gestor settings lack. */
  lemma OperadorContidoEmGestor()
    ensures Contido(OperadorSettings, GestorSettings)
  {
    var o, g := OperadorSettings, GestorSettings;
    assert g[0].0 == o[0].0 && forall v :: v in o[0].1 ==> v in g[0].1;
    assert g[2].0 == o[1].0 && forall v :: v in o[1].1 ==> v in g[2].1;
    assert g[1].0 == o[2].0 && forall v :: v in o[2].1 ==> v in g[1].1;
    assert g[3].0 == o[3].0 && forall v :: v in o[3].1 ==> v in g[3].1;
  }

  /** Whatever the permission table, the operador group is granted a subset of what the gestor group is. */
  lemma OperadorMenorQueGestor(todas: seq<Permissao>)
    ensures Concedidas(OperadorSettings, todas) <= Concedidas(GestorSettings, todas)
  {
    OperadorContidoEmGestor();
    Monotono(OperadorSettings, GestorSettings, todas);
  }
}
