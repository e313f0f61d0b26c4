/**
 * Support-desk scheduling helpers: the half-hour slots between two times
 * of day, and the weekday of an ISO date.
 */
module Agenda {
  import opened Base

  // ---------------------------------------------------------------------
  // Half-hour slots
  // ---------------------------------------------------------------------

  // A time of day is a number of minutes below 1440; slots are 30 minutes apart.

  /** `f"{n:02d}"` for `n < 100`. */
  function DoisDigitos(n: nat): (r: string)
    requires n < 100
    ensures |r| == 2 && AllDigits(r)
  {
    [DigitChar(n / 10), DigitChar(n % 10)]
  }

  /** `strftime('%H:%M')` of a time of day. */
  function Hhmm(t: nat): (r: string)
    requires t < 1440
    ensures |r| == 5 && r[2] == ':'
  {
    DoisDigitos(t / 60) + ":" + DoisDigitos(t % 60)
  }

  /** Reads an `HH:MM` text back into minutes; `None` when it is not one. */
  function LerHhmm(s: string): Option<nat> {
    if |s| == 5 && s[2] == ':' && IsDigit(s[0]) && IsDigit(s[1]) && IsDigit(s[3]) && IsDigit(s[4]) then
      var h := 10 * DigitValue(s[0]) + DigitValue(s[1]);
      var m := 10 * DigitValue(s[3]) + DigitValue(s[4]);
      if h < 24 && m < 60 then Some(60 * h + m) else None
    else None
  }

  /** Every slot text reads back as the time it was written from, so distinct times give distinct texts. */
  lemma HhmmLer(t: nat)
    requires t < 1440
    ensures LerHhmm(Hhmm(t)) == Some(t)
  {
    var s := Hhmm(t);
    assert s[0] == DigitChar(t / 60 / 10) && s[1] == DigitChar(t / 60 % 10);
    assert s[3] == DigitChar(t % 60 / 10) && s[4] == DigitChar(t % 60 % 10);
  }

  /** The time of day `n` increments after `inicio`: the date advances, the clock wraps at midnight. */
  function Relogio(inicio: nat, n: nat): nat {
    (inicio + 30 * n) % 1440
  }

  /** How many slots the loop emits when it stops: one per half hour from `inicio` up to `fim`. */
  function Quantidade(inicio: nat, fim: nat): nat {
    if inicio > fim then 0 else (fim - inicio) / 30 + 1
  }

  /** The loop stops: no slot is emitted, or the last slot up to `fim` is before 23:30. */
  predicate Termina(inicio: nat, fim: nat) {
    inicio > fim || inicio + 30 * ((fim - inicio) / 30) < 1410
  }

  /** The last slot up to `fim` and the one after it bracket `fim`. */
  lemma UltimoHorario(inicio: nat, fim: nat)
    requires inicio <= fim
    ensures var l := inicio + 30 * ((fim - inicio) / 30);
      l <= fim < l + 30
  {
  }

  /**
   * With a stopping loop, the `Quantidade` slots all fit in the day and
   * are at most `fim`, and the one after them passes `fim`.
   */
  lemma QuantidadeLimites(inicio: nat, fim: nat)
    requires inicio < 1440 && fim < 1440
    requires Termina(inicio, fim)
    ensures var q := Quantidade(inicio, fim);
      inicio + 30 * q < 1440 && inicio + 30 * q > fim && (q == 0 || inicio + 30 * (q - 1) <= fim)
  {
    if inicio <= fim {
      UltimoHorario(inicio, fim);
    }
  }

  /**
   * `gerar_horarios`: the texts of the slots `inicio`, `inicio + 30`, …
   * while the time of day does not pass `fim`. Each slot is at most `fim`,
   * the next one would pass it, and there are `Quantidade` of them.
   */
  method GerarHorarios(inicio: nat, fim: nat) returns (horarios: seq<string>)
    requires inicio < 1440 && fim < 1440
    requires Termina(inicio, fim)
    ensures |horarios| == Quantidade(inicio, fim)
    ensures forall k :: 0 <= k < |horarios| ==>
      inicio + 30 * k <= fim && horarios[k] == Hhmm(inicio + 30 * k)
    ensures inicio + 30 * |horarios| > fim
  {
    ghost var q := Quantidade(inicio, fim);
    QuantidadeLimites(inicio, fim);
    horarios := [];
    var atual := inicio;
    while atual % 1440 <= fim
      invariant atual == inicio + 30 * |horarios| && |horarios| <= q
      invariant forall k :: 0 <= k < |horarios| ==>
        inicio + 30 * k <= fim && horarios[k] == Hhmm(inicio + 30 * k)
      decreases q - |horarios|
    {
      var hora := atual % 1440;
      NoDia(atual);
      ghost var antes := horarios;
      horarios := horarios + [Hhmm(hora)];
      forall k | 0 <= k < |horarios|
        ensures inicio + 30 * k <= fim && horarios[k] == Hhmm(inicio + 30 * k)
      {
        if k < |antes| {
          assert horarios[k] == antes[k];
        } else {
          assert k == |antes| && horarios[k] == Hhmm(hora);
        }
      }
      atual := atual + 30;
    }
    NoDia(atual);
  }

  /** A time before midnight is its own time of day. */
  lemma NoDia(t: nat)
    requires t < 1440
    ensures t % 1440 == t
  {
  }


  /** Within one day the slot times are the plain sums `inicio + 30 * n`. */
  lemma RelogioDoDia(inicio: nat, n: nat)
    requires inicio + 30 * n < 1440
    ensures Relogio(inicio, n) == inicio + 30 * n
  {
  }

  /**
   * When the last slot up to `fim` is 23:30 or later, the next one wraps
   * past midnight to a time before 00:30, which is again at most `fim`:
   * every time the clock shows is at most `fim` and the loop never ends.
   */
  lemma {:induction false} NaoTermina(inicio: nat, fim: nat, n: nat)
    requires inicio <= fim < 1440
    requires !Termina(inicio, fim)
    ensures Relogio(inicio, n) <= fim
  {
    var m := (fim - inicio) / 30;
    var l := inicio + 30 * m;
    UltimoHorario(inicio, fim);
    var x := inicio + 30 * n;
    var q := x / 1440;
    var t := x % 1440;
    assert x == 1440 * q + t;
    var d := n - 48 * q - m;
    assert t - l == 30 * d;
    assert 30 * d < 30;
    assert d <= 0;
  }

  /** The loop stops exactly when `Termina` holds. */
  lemma TerminaSse(inicio: nat, fim: nat)
    requires inicio < 1440 && fim < 1440
    ensures Termina(inicio, fim) <==> exists n: nat :: Relogio(inicio, n) > fim
  {
    if Termina(inicio, fim) {
      var q := Quantidade(inicio, fim);
      if inicio <= fim {
        UltimoHorario(inicio, fim);
      }
      RelogioDoDia(inicio, q);
      assert Relogio(inicio, q) > fim;
    } else {
      forall n: nat
        ensures Relogio(inicio, n) <= fim
      {
        NaoTermina(inicio, fim, n);
      }
    }
  }

  // ---------------------------------------------------------------------
  // Weekday of an ISO date
  // ---------------------------------------------------------------------

  /** The weekday constants, in the order of the list, Monday first. */
  datatype DiaSemana = Segunda | Terca | Quarta | Quinta | Sexta | Sabado | Domingo

  const DiasDaSemana: seq<DiaSemana> := [Segunda, Terca, Quarta, Quinta, Sexta, Sabado, Domingo]

  datatype Data = Data(ano: nat, mes: nat, dia: nat)

  predicate Bissexto(ano: nat) {
    ano % 4 == 0 && (ano % 100 != 0 || ano % 400 == 0)
  }

  function DiasNoMes(ano: nat, mes: nat): nat
    requires 1 <= mes <= 12
  {
    if mes == 2 then (if Bissexto(ano) then 29 else 28)
    else if mes == 4 || mes == 6 || mes == 9 || mes == 11 then 30
    else 31
  }

  /** A date `datetime.date` accepts. */
  predicate Valida(d: Data) {
    1 <= d.ano <= 9999 && 1 <= d.mes <= 12 && 1 <= d.dia <= DiasNoMes(d.ano, d.mes)
  }

  function DiasAntesDoAno(ano: nat): nat
    requires ano >= 1
  {
    var a := ano - 1;
    a * 365 + a / 4 - a / 100 + a / 400
  }

  function DiasAntesDoMes(ano: nat, mes: nat): nat
    requires 1 <= mes <= 13
  {
    if mes == 1 then 0 else DiasAntesDoMes(ano, mes - 1) + DiasNoMes(ano, mes - 1)
  }

  /** `date.toordinal()`: 1 for 0001-01-01, counting days in the proleptic Gregorian calendar. */
  function Ordinal(d: Data): nat
    requires Valida(d)
  {
    DiasAntesDoAno(d.ano) + DiasAntesDoMes(d.ano, d.mes) + d.dia
  }

  /** `date.weekday()`: 0 for Monday through 6 for Sunday. */
  function IndiceSemana(d: Data): (i: nat)
    requires Valida(d)
    ensures i < 7
  {
    (Ordinal(d) + 6) % 7
  }

  /** The day after `d`. */
  function Seguinte(d: Data): Data
    requires Valida(d)
  {
    if d.dia < DiasNoMes(d.ano, d.mes) then Data(d.ano, d.mes, d.dia + 1)
    else if d.mes < 12 then Data(d.ano, d.mes + 1, 1)
    else Data(d.ano + 1, 1, 1)
  }

  function DigitoNaoNulo(c: char): bool {
    '1' <= c <= '9'
  }

  function Dois(a: char, b: char): nat
    requires IsDigit(a) && IsDigit(b)
  {
    10 * DigitValue(a) + DigitValue(b)
  }

  /**
   * The `%m-` part of the format: `1[0-2]|0[1-9]|[1-9]` and the dash; the
   * month and the length read, or `None`.
   */
  function LerMes(t: string): Option<(nat, nat)> {
    if |t| >= 3 && t[2] == '-'
       && ((t[0] == '1' && '0' <= t[1] <= '2') || (t[0] == '0' && DigitoNaoNulo(t[1])))
    then Some((Dois(t[0], t[1]), 3))
    else if |t| >= 2 && t[1] == '-' && DigitoNaoNulo(t[0]) then Some((DigitValue(t[0]), 2))
    else None
  }

  /**
   * The `%d` part, which must end the text: `3[01]|[12]\d|0[1-9]|[1-9]| [1-9]`.
   */
  function LerDia(r: string): Option<nat> {
    if |r| == 2 && ((r[0] == '3' && (r[1] == '0' || r[1] == '1'))
                    || ((r[0] == '1' || r[0] == '2') && IsDigit(r[1]))
                    || (r[0] == '0' && DigitoNaoNulo(r[1])))
    then Some(Dois(r[0], r[1]))
    else if |r| == 2 && r[0] == ' ' && DigitoNaoNulo(r[1]) then Some(DigitValue(r[1]))
    else if |r| == 1 && DigitoNaoNulo(r[0]) then Some(DigitValue(r[0]))
    else None
  }

  /** `strptime(data, '%Y-%m-%d').date()`: `None` where it raises `ValueError`. */
  function LerData(s: string): (r: Option<Data>)
    ensures r.Some? ==> Valida(r.value)
  {
    if |s| >= 5 && AllDigits(s[..4]) && s[4] == '-' then
      match LerMes(s[5..])
      case None => None
      case Some((mes, n)) =>
        match LerDia(s[5 + n..])
        case None => None
        case Some(dia) =>
          var d := Data(Value(s[..4]), mes, dia);
          if Valida(d) then Some(d) else None
    else None
  }

  /** `dia_da_semana`: the constant at the date's weekday index; `None` where parsing raises. */
  function DiaDaSemanaDe(data: string): Option<DiaSemana> {
    match LerData(data)
    case None => None
    case Some(d) => Some(DiasDaSemana[IndiceSemana(d)])
  }

  /** `f"{y:04d}-{m:02d}-{d:02d}"`, the form the date picker sends. */
  function Iso(d: Data): string
    requires Valida(d)
  {
    PadNat(d.ano, 4) + "-" + DoisDigitos(d.mes) + "-" + DoisDigitos(d.dia)
  }

  lemma LerMesDois(mes: nat, resto: string)
    requires 1 <= mes <= 12
    ensures LerMes(DoisDigitos(mes) + "-" + resto) == Some((mes, 3))
  {
    var m := DoisDigitos(mes);
    assert Dois(m[0], m[1]) == mes;
  }

  lemma LerDiaDois(dia: nat)
    requires 1 <= dia <= 31
    ensures LerDia(DoisDigitos(dia)) == Some(dia)
  {
    var r := DoisDigitos(dia);
    assert Dois(r[0], r[1]) == dia;
  }

  /** Every valid date written in ISO form is read back as itself. */
  lemma LerIso(d: Data)
    requires Valida(d)
    ensures LerData(Iso(d)) == Some(d)
  {
    var a := PadNat(d.ano, 4);
    PadNatLength(d.ano, 4);
    var s := Iso(d);
    assert s[..4] == a;
    var m, r := DoisDigitos(d.mes), DoisDigitos(d.dia);
    assert s[5..] == m + "-" + r;
    LerMesDois(d.mes, r);
    assert s[8..] == r;
    LerDiaDois(d.dia);
  }

  lemma DiasDoAno(ano: nat)
    ensures DiasAntesDoMes(ano, 13) == if Bissexto(ano) then 366 else 365
  {
    var f := if Bissexto(ano) then 29 else 28;
    assert DiasAntesDoMes(ano, 2) == 31;
    assert DiasAntesDoMes(ano, 3) == 31 + f;
    assert DiasAntesDoMes(ano, 4) == 62 + f;
    assert DiasAntesDoMes(ano, 5) == 92 + f;
    assert DiasAntesDoMes(ano, 6) == 123 + f;
    assert DiasAntesDoMes(ano, 7) == 153 + f;
    assert DiasAntesDoMes(ano, 8) == 184 + f;
    assert DiasAntesDoMes(ano, 9) == 215 + f;
    assert DiasAntesDoMes(ano, 10) == 245 + f;
    assert DiasAntesDoMes(ano, 11) == 276 + f;
    assert DiasAntesDoMes(ano, 12) == 306 + f;
  }

  /** `(a + 1) / k` grows by one exactly when `k` divides `a + 1`. */
  lemma DivSucessor(a: nat, k: nat)
    requires k > 0
    ensures (a + 1) / k == a / k + (if (a + 1) % k == 0 then 1 else 0)
  {
    var q, r := a / k, a % k;
    assert a == q * k + r;
    if r + 1 == k {
      assert a + 1 == (q + 1) * k + 0;
      DivModUnique(q + 1, k, 0);
    } else {
      assert a + 1 == q * k + (r + 1);
      DivModUnique(q, k, r + 1);
    }
  }

  /** Every multiple of 400 is one of 100, and every multiple of 100 one of 4. */
  lemma MultiplosAninhados(ano: nat)
    ensures ano % 400 == 0 ==> ano % 100 == 0
    ensures ano % 100 == 0 ==> ano % 4 == 0
  {
    if ano % 400 == 0 {
      DivModUnique(4 * (ano / 400), 100, 0);
    }
    if ano % 100 == 0 {
      DivModUnique(25 * (ano / 100), 4, 0);
    }
  }

  lemma AnoSeguinte(ano: nat)
    requires ano >= 1
    ensures DiasAntesDoAno(ano + 1) == DiasAntesDoAno(ano) + DiasAntesDoMes(ano, 13)
  {
    DiasDoAno(ano);
    MultiplosAninhados(ano);
    var a := ano - 1;
    assert DiasAntesDoAno(ano) == a * 365 + a / 4 - a / 100 + a / 400;
    assert DiasAntesDoAno(ano + 1) == ano * 365 + ano / 4 - ano / 100 + ano / 400;
    DivSucessor(a, 4);
    DivSucessor(a, 100);
    DivSucessor(a, 400);
    assert ano / 4 - a / 4 == if ano % 4 == 0 then 1 else 0;
    assert ano / 100 - a / 100 == if ano % 100 == 0 then 1 else 0;
    assert ano / 400 - a / 400 == if ano % 400 == 0 then 1 else 0;
  }

  /** The day after a valid date has the next ordinal. */
  lemma OrdinalSeguinte(d: Data)
    requires Valida(d) && d.ano < 9999
    ensures Valida(Seguinte(d)) && Ordinal(Seguinte(d)) == Ordinal(d) + 1
  {
    if d.dia == DiasNoMes(d.ano, d.mes) && d.mes == 12 {
      AnoSeguinte(d.ano);
    }
  }

  /** The constant after `x` in the list, wrapping from Sunday to Monday. */
  function Proximo(x: DiaSemana): DiaSemana {
    match x
    case Segunda => Terca
    case Terca => Quarta
    case Quarta => Quinta
    case Quinta => Sexta
    case Sexta => Sabado
    case Sabado => Domingo
    case Domingo => Segunda
  }

  lemma ProximoNaLista(i: nat)
    requires i < 7
    ensures Proximo(DiasDaSemana[i]) == DiasDaSemana[(i + 1) % 7]
  {
  }

  /** A date written in ISO form gets the constant at its weekday index. */
  lemma DiaDaSemanaIso(d: Data)
    requires Valida(d)
    ensures DiaDaSemanaDe(Iso(d)) == Some(DiasDaSemana[IndiceSemana(d)])
  {
    LerIso(d);
  }

  lemma SemanaSucessor(x: nat)
    ensures (x + 1 + 6) % 7 == ((x + 6) % 7 + 1) % 7
  {
    var q, r := (x + 6) / 7, (x + 6) % 7;
    assert x + 6 == q * 7 + r;
    if r == 6 {
      assert x + 1 + 6 == (q + 1) * 7 + 0;
      DivModUnique(q + 1, 7, 0);
    } else {
      assert x + 1 + 6 == q * 7 + (r + 1);
      DivModUnique(q, 7, r + 1);
    }
  }

  lemma IndiceSeguinte(d: Data)
    requires Valida(d) && d.ano < 9999
    ensures Valida(Seguinte(d)) && IndiceSemana(Seguinte(d)) == (IndiceSemana(d) + 1) % 7
  {
    OrdinalSeguinte(d);
    var x := Ordinal(d);
    SemanaSucessor(x);
    assert IndiceSemana(Seguinte(d)) == (x + 1 + 6) % 7;
  }

  /** Consecutive dates get consecutive constants of the list. */
  lemma DiaDaSemanaSeguinte(d: Data)
    requires Valida(d) && d.ano < 9999
    ensures DiaDaSemanaDe(Iso(Seguinte(d))) == Some(Proximo(DiasDaSemana[IndiceSemana(d)]))
  {
    IndiceSeguinte(d);
    DiaDaSemanaIso(Seguinte(d));
    ProximoNaLista(IndiceSemana(d));
  }

  /** 1 January 2024 was a Monday. */
  lemma PrimeiroDe2024()
    ensures DiaDaSemanaDe("2024-01-01") == Some(Segunda)
  {
    var s := "2024-01-01";
    assert s[..4] == "2024";
    assert Value("2024") == 2024 by {
      assert "2024"[..3] == "202" && "202"[..2] == "20" && "20"[..1] == "2";
    }
    assert s[5..] == "01-01";
    assert LerMes("01-01") == Some((1, 3)) by {
      assert Dois('0', '1') == 1;
    }
    assert s[8..] == "01";
    assert LerDia("01") == Some(1) by {
      assert Dois('0', '1') == 1;
    }
    var d := Data(2024, 1, 1);
    assert AllDigits(s[..4]) && s[4] == '-' && |s| >= 5;
    assert LerMes(s[5..]) == Some((1, 3));
    assert LerDia(s[5 + 3..]) == Some(1);
    assert Valida(d);
    assert LerData(s) == Some(d);
    assert DiasAntesDoAno(2024) == 738885;
    assert Ordinal(d) == 738886;
    assert IndiceSemana(d) == 0;
  }
}
