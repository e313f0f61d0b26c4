/**
 * Shared building blocks: an Option type, the character classes the
 * Python and JavaScript sources rely on, and decimal digit strings
 * (filtering, value, rendering, zero padding and thousands grouping).
 */
module Base {

  datatype Option<T> = None | Some(value: T) {
    /** Python's `x or default` / JavaScript's `x || default` for an optional value. */
    function GetOr(default: T): T {
      if Some? then value else default
    }
  }

  /** The outcome of an operation that the source ends by raising an error. */
  datatype Result<T, E> = Ok(value: T) | Err(error: E)

  // ---------------------------------------------------------------------
  // Character classes
  // ---------------------------------------------------------------------

  /** An ASCII decimal digit: `[0-9]`, and `\d` as far as this model goes. */
  predicate IsDigit(c: char) {
    '0' <= c <= '9'
  }

  predicate AllDigits(s: string) {
    forall i :: 0 <= i < |s| ==> IsDigit(s[i])
  }

  /** Python's `str.isspace()`, which is also what `\s` and `str.strip()` use. */
  predicate IsPySpace(c: char) {
    ('\t' <= c <= '\r') || ('\U{1C}' <= c <= ' ') || c == '\U{85}' || c == '\U{A0}'
    || c == '\U{1680}' || ('\U{2000}' <= c <= '\U{200A}') || c == '\U{2028}' || c == '\U{2029}'
    || c == '\U{202F}' || c == '\U{205F}' || c == '\U{3000}'
  }

  /** ECMAScript WhiteSpace and LineTerminator, which `String.prototype.trim` removes. */
  predicate IsJsSpace(c: char) {
    ('\t' <= c <= '\r') || c == ' ' || c == '\U{A0}' || c == '\U{FEFF}'
    || c == '\U{1680}' || ('\U{2000}' <= c <= '\U{200A}') || c == '\U{2028}' || c == '\U{2029}'
    || c == '\U{202F}' || c == '\U{205F}' || c == '\U{3000}'
  }

  // ---------------------------------------------------------------------
  // Stripping
  // ---------------------------------------------------------------------

  predicate AllPySpace(s: string) {
    forall i :: 0 <= i < |s| ==> IsPySpace(s[i])
  }

  /** Python's `s.lstrip()`. */
  function PyLStrip(s: string): (r: string)
    ensures |r| <= |s|
    ensures r != [] ==> !IsPySpace(r[0])
  {
    if s != [] && IsPySpace(s[0]) then PyLStrip(s[1..]) else s
  }

  /** `lstrip()` removes a blank prefix and keeps the rest. */
  lemma {:induction false} PyLStripShape(s: string)
    ensures var r := PyLStrip(s);
      r == s[|s| - |r|..] && AllPySpace(s[..|s| - |r|])
  {
    if s != [] && IsPySpace(s[0]) {
      PyLStripShape(s[1..]);
      var r := PyLStrip(s);
      assert s[..|s| - |r|] == [s[0]] + s[1..][..|s| - 1 - |r|];
    }
  }

  /** Python's `s.rstrip()`. */
  function PyRStrip(s: string): (r: string)
    ensures |r| <= |s|
    ensures r != [] ==> !IsPySpace(r[|r| - 1])
  {
    if s != [] && IsPySpace(s[|s| - 1]) then PyRStrip(s[..|s| - 1]) else s
  }

  /** `rstrip()` removes a blank suffix and keeps the rest. */
  lemma {:induction false} PyRStripShape(s: string)
    ensures var r := PyRStrip(s);
      r == s[..|r|] && AllPySpace(s[|r|..])
  {
    if s != [] && IsPySpace(s[|s| - 1]) {
      PyRStripShape(s[..|s| - 1]);
      var r := PyRStrip(s);
      assert s[|r|..] == s[..|s| - 1][|r|..] + [s[|s| - 1]];
    }
  }

  /** Python's `s.strip()`. */
  function PyStrip(s: string): (r: string)
    ensures |r| <= |s|
    ensures r != [] ==> !IsPySpace(r[0]) && !IsPySpace(r[|r| - 1])
  {
    PyRStripShape(PyLStrip(s));
    PyRStrip(PyLStrip(s))
  }

  /** JavaScript's `s.trim()`. */
  function JsTrim(s: string): (r: string)
    ensures |r| <= |s|
    ensures r != [] ==> !IsJsSpace(r[0]) && !IsJsSpace(r[|r| - 1])
  {
    if s != [] && IsJsSpace(s[0]) then JsTrim(s[1..])
    else if s != [] && IsJsSpace(s[|s| - 1]) then JsTrim(s[..|s| - 1])
    else s
  }

  // ---------------------------------------------------------------------
  // Digit strings
  // ---------------------------------------------------------------------

  /** `re.sub(r"\D", "", s)` in Python and `s.replace(/\D/g, '')` in JavaScript. */
  function DigitsOnly(s: string): (r: string)
    ensures AllDigits(r) && |r| <= |s|
  {
    if s == [] then [] else (if IsDigit(s[0]) then [s[0]] else []) + DigitsOnly(s[1..])
  }

  lemma {:induction false} DigitsOnlyOfDigits(s: string)
    requires AllDigits(s)
    ensures DigitsOnly(s) == s
  {
    if s != [] {
      DigitsOnlyOfDigits(s[1..]);
    }
  }

  lemma {:induction false} DigitsOnlyConcat(a: string, b: string)
    ensures DigitsOnly(a + b) == DigitsOnly(a) + DigitsOnly(b)
  {
    if a == [] {
      assert a + b == b;
    } else {
      var h := if IsDigit(a[0]) then [a[0]] else [];
      assert (a + b)[0] == a[0] && (a + b)[1..] == a[1..] + b;
      DigitsOnlyConcat(a[1..], b);
      assert DigitsOnly(a + b) == h + DigitsOnly(a[1..] + b);
      assert DigitsOnly(a) == h + DigitsOnly(a[1..]);
      assert h + (DigitsOnly(a[1..]) + DigitsOnly(b)) == (h + DigitsOnly(a[1..])) + DigitsOnly(b);
    }
  }

  /** A string without a single digit keeps no digit. */
  lemma {:induction false} DigitsOnlyNoDigit(s: string)
    requires forall i :: 0 <= i < |s| ==> !IsDigit(s[i])
    ensures DigitsOnly(s) == []
  {
    if s != [] {
      DigitsOnlyNoDigit(s[1..]);
    }
  }

  function Pow10(n: nat): (p: nat)
    ensures p >= 1
  {
    if n == 0 then 1 else 10 * Pow10(n - 1)
  }

  /** Powers of ten grow with the exponent. */
  lemma {:induction false} Pow10Mono(a: nat, b: nat)
    requires a <= b
    ensures Pow10(a) <= Pow10(b)
  {
    if a < b {
      Pow10Mono(a, b - 1);
    }
  }

  function DigitValue(c: char): (d: nat)
    requires IsDigit(c)
    ensures d < 10
  {
    c as int - '0' as int
  }

  function DigitChar(d: nat): (c: char)
    requires d < 10
    ensures IsDigit(c) && DigitValue(c) == d
  {
    ('0' as int + d) as char
  }

  /** The number a digit string denotes, most significant digit first. */
  function Value(s: string): (v: nat)
    requires AllDigits(s)
  {
    if s == [] then 0 else Value(s[..|s| - 1]) * 10 + DigitValue(s[|s| - 1])
  }

  /** Multiplication by a natural number is monotone, in the strict form used below. */
  lemma {:induction false} MulStep(a: int, b: int, m: nat)
    requires a < b
    ensures a * m + m <= b * m
    decreases b - a
  {
    if b > a + 1 {
      MulStep(a, b - 1, m);
      assert (b - 1) * m + m == b * m;
    } else {
      assert (a + 1) * m == a * m + m;
    }
  }

  /** A digit string of length `n` denotes a number below `10^n`. */
  lemma {:induction false} ValueBound(s: string)
    requires AllDigits(s)
    ensures Value(s) < Pow10(|s|)
  {
    if s != [] {
      ValueBound(s[..|s| - 1]);
    }
  }

  /** A digit string that starts with a nonzero digit denotes a positive number. */
  lemma {:induction false} ValuePositive(s: string)
    requires AllDigits(s) && s != [] && s[0] != '0'
    ensures Value(s) >= 1
  {
    if |s| > 1 {
      ValuePositive(s[..|s| - 1]);
    }
  }

  /** `(q * m + r) / m == q` and `(q * m + r) % m == r` when `r < m`. */
  lemma DivModUnique(q: nat, m: nat, r: nat)
    requires r < m
    ensures (q * m + r) / m == q && (q * m + r) % m == r
  {
    var x := q * m + r;
    var q2, r2 := x / m, x % m;
    assert x == q2 * m + r2;
    if q2 < q {
      MulStep(q2, q, m);
      assert false;
    } else if q2 > q {
      MulStep(q, q2, m);
      assert false;
    }
  }

  lemma AllDigitsConcat(a: string, b: string)
    requires AllDigits(a) && AllDigits(b)
    ensures AllDigits(a + b)
  {
    forall i | 0 <= i < |a + b| ensures IsDigit((a + b)[i]) {
      if i < |a| { assert (a + b)[i] == a[i]; } else { assert (a + b)[i] == b[i - |a|]; }
    }
  }

  lemma {:induction false} ValueConcat(a: string, b: string)
    requires AllDigits(a) && AllDigits(b)
    ensures AllDigits(a + b)
    ensures Value(a + b) == Value(a) * Pow10(|b|) + Value(b)
  {
    AllDigitsConcat(a, b);
    if b == [] {
      assert a + b == a;
    } else {
      var b' := b[..|b| - 1];
      var d := DigitValue(b[|b| - 1]);
      assert (a + b)[..|a + b| - 1] == a + b';
      assert (a + b)[|a + b| - 1] == b[|b| - 1];
      ValueConcat(a, b');
      var va, vb, p := Value(a), Value(b'), Pow10(|b'|);
      assert Value(a + b) == Value(a + b') * 10 + d;
      assert Value(a + b') == va * p + vb;
      assert Pow10(|b|) == p * 10;
      assert Value(b) == vb * 10 + d;
      ShiftDigit(va, p, vb, d);
    }
  }

  lemma ShiftDigit(va: int, p: int, vb: int, d: int)
    ensures (va * p + vb) * 10 + d == va * (p * 10) + (vb * 10 + d)
  {
  }

  /** A run of `n` zeros. */
  function Zeros(n: nat): (z: string)
    ensures |z| == n && AllDigits(z)
    ensures forall i :: 0 <= i < n ==> z[i] == '0'
  {
    if n == 0 then [] else Zeros(n - 1) + "0"
  }

  lemma {:induction false} ZerosValue(n: nat)
    ensures Value(Zeros(n)) == 0
  {
    if n > 0 {
      assert Zeros(n)[..n - 1] == Zeros(n - 1);
      ZerosValue(n - 1);
    }
  }

  /** Python's `s.zfill(width)` on a digit string: left-padded with zeros. */
  function ZFill(s: string, width: nat): (r: string)
    ensures |r| == if |s| >= width then |s| else width
    ensures AllDigits(s) ==> AllDigits(r)
  {
    if |s| >= width then s else Zeros(width - |s|) + s
  }

  lemma {:induction false} ZFillValue(s: string, width: nat)
    requires AllDigits(s)
    ensures Value(ZFill(s, width)) == Value(s)
  {
    if |s| < width {
      var z := Zeros(width - |s|);
      assert ZFill(s, width) == z + s;
      ZerosValue(width - |s|);
      ValueConcat(z, s);
      assert Value(z) * Pow10(|s|) == 0;
    }
  }

  /** Python's `s.lstrip("0")`. */
  function LStripZeros(s: string): (r: string)
    ensures |r| <= |s|
    ensures AllDigits(s) ==> AllDigits(r)
  {
    if s != [] && s[0] == '0' then LStripZeros(s[1..]) else s
  }

  /** What `lstrip("0")` removes is a run of zeros at the front, and nothing else. */
  lemma {:induction false} LStripZerosShape(s: string)
    ensures var r := LStripZeros(s);
      r == s[|s| - |r|..] && (r != [] ==> r[0] != '0')
      && forall i :: 0 <= i < |s| - |r| ==> s[i] == '0'
  {
    if s != [] && s[0] == '0' {
      LStripZerosShape(s[1..]);
      var r := LStripZeros(s);
      assert forall i :: 1 <= i < |s| - |r| ==> s[i] == s[1..][i - 1];
    }
  }

  lemma {:induction false} LStripZerosValue(s: string)
    requires AllDigits(s)
    ensures Value(LStripZeros(s)) == Value(s)
  {
    var r := LStripZeros(s);
    LStripZerosShape(s);
    var k := |s| - |r|;
    assert s == s[..k] + r;
    assert s[..k] == Zeros(k);
    ZerosValue(k);
    ValueConcat(s[..k], r);
  }

  /** The value of the last `n` digits is the value modulo 10^n. */
  lemma {:induction false} SuffixValue(s: string, n: nat)
    requires AllDigits(s) && n <= |s|
    ensures Value(s[|s| - n..]) == Value(s) % Pow10(n)
  {
    var a, b := s[..|s| - n], s[|s| - n..];
    assert s == a + b;
    ValueConcat(a, b);
    ValueBound(b);
    DivModUnique(Value(a), Pow10(n), Value(b));
  }

  /** Python's `str(n)` for a natural number. */
  function NatToString(n: nat): (r: string)
    ensures AllDigits(r) && r != []
    ensures Value(r) == n
    ensures |r| > 1 ==> r[0] != '0'
  {
    if n < 10 then [DigitChar(n)]
    else
      var r := NatToString(n / 10) + [DigitChar(n % 10)];
      assert r[..|r| - 1] == NatToString(n / 10);
      r
  }

  /** A digit string without leading zeros is the rendering of its value. */
  lemma {:induction false} NatToStringOfValue(s: string)
    requires AllDigits(s) && s != [] && (|s| > 1 ==> s[0] != '0')
    ensures NatToString(Value(s)) == s
  {
    if |s| > 1 {
      var p := s[..|s| - 1];
      var d := DigitValue(s[|s| - 1]);
      var v := Value(p);
      assert p[0] == s[0];
      NatToStringOfValue(p);
      ValuePositive(p);
      assert Value(s) == v * 10 + d;
      DivModUnique(v, 10, d);
      assert Value(s) >= 10;
      assert NatToString(Value(s)) == NatToString(v) + [DigitChar(d)];
      assert s == p + [DigitChar(d)];
    } else {
      assert s == [DigitChar(DigitValue(s[0]))];
    }
  }

  lemma NatToStringLength(n: nat, k: nat)
    requires n < Pow10(k) && k >= 1
    ensures |NatToString(n)| <= k
  {
    if n >= 10 {
      NatToStringLength(n / 10, k - 1);
    }
  }

  /** Python's `f"{n:0{width}d}"`: zero-padded, never truncated. */
  function PadNat(n: nat, width: nat): (r: string)
    ensures AllDigits(r) && Value(r) == n
    ensures |r| >= width && |r| >= 1
  {
    ZFillValue(NatToString(n), width);
    ZFill(NatToString(n), width)
  }

  lemma PadNatLength(n: nat, width: nat)
    requires width >= 1 && n < Pow10(width)
    ensures |PadNat(n, width)| == width
  {
    NatToStringLength(n, width);
  }

  // ---------------------------------------------------------------------
  // Thousands grouping
  // ---------------------------------------------------------------------

  /**
   * Inserts a separator before every complete group of three digits counted
   * from the right, never at the front: what Python's `,` format option does to the
   * integer part, and what `/\B(?=(\d{3})+(?!\d))/g` does in JavaScript.
   */
  function GroupThousands(s: string, sep: char): (r: string)
    ensures |s| <= 3 ==> r == s
  {
    if |s| <= 3 then s else GroupThousands(s[..|s| - 3], sep) + [sep] + s[|s| - 3..]
  }

  /** `\d{1,3}(\.\d{3})*` with `.` replaced by any separator. */
  predicate WellGrouped(s: string, sep: char)
    decreases |s|
  {
    if |s| <= 3 then 1 <= |s| && AllDigits(s)
    else s[|s| - 4] == sep && AllDigits(s[|s| - 3..]) && WellGrouped(s[..|s| - 4], sep)
  }

  /** Deletes every occurrence of `c`. */
  function Remove(s: string, c: char): (r: string)
    ensures |r| <= |s|
    ensures c !in r
  {
    if s == [] then [] else (if s[0] == c then [] else [s[0]]) + Remove(s[1..], c)
  }

  lemma {:induction false} RemoveConcat(a: string, b: string, c: char)
    ensures Remove(a + b, c) == Remove(a, c) + Remove(b, c)
  {
    if a == [] {
      assert a + b == b;
    } else {
      var h := if a[0] == c then [] else [a[0]];
      assert (a + b)[0] == a[0] && (a + b)[1..] == a[1..] + b;
      RemoveConcat(a[1..], b, c);
      assert Remove(a + b, c) == h + Remove(a[1..] + b, c);
      assert Remove(a, c) == h + Remove(a[1..], c);
      assert h + (Remove(a[1..], c) + Remove(b, c)) == (h + Remove(a[1..], c)) + Remove(b, c);
    }
  }

  lemma {:induction false} RemoveAbsent(s: string, c: char)
    requires c !in s
    ensures Remove(s, c) == s
  {
    if s != [] {
      RemoveAbsent(s[1..], c);
    }
  }

  lemma NoSepInDigits(s: string, sep: char)
    requires AllDigits(s) && !IsDigit(sep)
    ensures sep !in s
  {
    assert forall i :: 0 <= i < |s| ==> s[i] != sep;
  }

  /** Grouping yields the `\d{1,3}(\.\d{3})*` shape. */
  lemma {:induction false} GroupThousandsShape(s: string, sep: char)
    requires AllDigits(s) && s != []
    ensures WellGrouped(GroupThousands(s, sep), sep)
  {
    if |s| > 3 {
      var h, t := s[..|s| - 3], s[|s| - 3..];
      AllDigitsSlice(s, 0, |s| - 3);
      AllDigitsSlice(s, |s| - 3, |s|);
      GroupThousandsShape(h, sep);
      var g := GroupThousands(h, sep);
      assert |g| >= 1;
      var r := g + [sep] + t;
      assert r[..|r| - 4] == g;
      assert r[|r| - 4] == sep;
      assert r[|r| - 3..] == t;
    }
  }

  /** Deleting the separators from a grouped number gives the digits back. */
  lemma {:induction false} GroupThousandsDigits(s: string, sep: char)
    requires AllDigits(s) && !IsDigit(sep)
    ensures Remove(GroupThousands(s, sep), sep) == s
  {
    NoSepInDigits(s, sep);
    if |s| <= 3 {
      RemoveAbsent(s, sep);
    } else {
      var h, t := s[..|s| - 3], s[|s| - 3..];
      assert AllDigits(h) && AllDigits(t);
      GroupThousandsDigits(h, sep);
      NoSepInDigits(t, sep);
      RemoveGroupStep(GroupThousands(h, sep), h, t, sep);
      assert s == h + t;
    }
  }

  lemma RemoveGroupStep(g: string, h: string, t: string, sep: char)
    requires Remove(g, sep) == h && sep !in t
    ensures Remove(g + [sep] + t, sep) == h + t
  {
    var x := g + [sep];
    RemoveConcat(x, t, sep);
    RemoveConcat(g, [sep], sep);
    RemoveAbsent(t, sep);
    assert [sep][1..] == [];
    assert Remove([sep], sep) == [];
    assert Remove(x, sep) == h + [];
    assert h + [] == h;
  }

  /** Filtering the digits out of a grouped number gives the digits back. */
  lemma {:induction false} GroupThousandsOnlyDigits(s: string, sep: char)
    requires AllDigits(s) && !IsDigit(sep)
    ensures DigitsOnly(GroupThousands(s, sep)) == s
  {
    if |s| <= 3 {
      DigitsOnlyOfDigits(s);
    } else {
      var h, t := s[..|s| - 3], s[|s| - 3..];
      GroupThousandsOnlyDigits(h, sep);
      var g := GroupThousands(h, sep);
      DigitsOnlyConcat(g + [sep], t);
      DigitsOnlyConcat(g, [sep]);
      DigitsOnlyOfDigits(t);
      assert DigitsOnly([sep]) == [];
      assert s == h + t;
    }
  }

  /** Two digit strings of the same length and value are equal. */
  lemma {:induction false} ValueInjective(a: string, b: string)
    requires AllDigits(a) && AllDigits(b) && |a| == |b| && Value(a) == Value(b)
    ensures a == b
  {
    if a != [] {
      var pa, pb := a[..|a| - 1], b[..|b| - 1];
      var da, db := DigitValue(a[|a| - 1]), DigitValue(b[|b| - 1]);
      var va, vb := Value(pa), Value(pb);
      assert va * 10 + da == vb * 10 + db;
      DivModUnique(va, 10, da);
      DivModUnique(vb, 10, db);
      assert va == vb && da == db;
      ValueInjective(pa, pb);
      assert a[|a| - 1] == b[|b| - 1];
      assert a == pa + [a[|a| - 1]] && b == pb + [b[|b| - 1]];
    }
  }

  /** Dropping the last digit divides the value by ten. */
  lemma ValueDropLast(s: string)
    requires AllDigits(s) && s != []
    ensures Value(s[..|s| - 1]) == Value(s) / 10
  {
    DivModUnique(Value(s[..|s| - 1]), 10, DigitValue(s[|s| - 1]));
  }

  /** A well-grouped string starts with a digit. */
  lemma {:induction false} WellGroupedHead(s: string, sep: char)
    requires WellGrouped(s, sep)
    ensures s != [] && IsDigit(s[0])
    decreases |s|
  {
    if |s| > 3 {
      WellGroupedHead(s[..|s| - 4], sep);
    }
  }

  predicate EndsWith(s: string, suffix: string) {
    |suffix| <= |s| && s[|s| - |suffix|..] == suffix
  }

  lemma AllDigitsSlice(s: string, i: nat, j: nat)
    requires AllDigits(s) && i <= j <= |s|
    ensures AllDigits(s[i..j])
  {
    forall k | 0 <= k < j - i ensures IsDigit(s[i..j][k]) {
      assert s[i..j][k] == s[i + k];
    }
  }


  /** Leading whitespace is irrelevant to `lstrip()`. */
  lemma {:induction false} PyLStripSpacePrefix(ws: string, s: string)
    requires AllPySpace(ws)
    ensures PyLStrip(ws + s) == PyLStrip(s)
  {
    if ws != [] {
      assert (ws + s)[0] == ws[0];
      assert (ws + s)[1..] == ws[1..] + s;
      PyLStripSpacePrefix(ws[1..], s);
    } else {
      assert ws + s == s;
    }
  }

  /** A text with no blank at either end is its own `strip()`. */
  lemma PyStripSemBordas(s: string)
    requires s != [] ==> !IsPySpace(s[0]) && !IsPySpace(s[|s| - 1])
    ensures PyStrip(s) == s
  {
    assert PyLStrip(s) == s;
    assert PyRStrip(s) == s;
  }

  /** Python's `s.lstrip(chars)`. */
  function LStripChars(s: string, chars: set<char>): (r: string)
    ensures |r| <= |s|
  {
    if s != [] && s[0] in chars then LStripChars(s[1..], chars) else s
  }

  /** Python's `s.rstrip(c)` for a single character. */
  function RStripChar(s: string, c: char): (r: string)
    ensures |r| <= |s|
  {
    if s != [] && s[|s| - 1] == c then RStripChar(s[..|s| - 1], c) else s
  }

  /** Python's `s.replace(de, para)` for single characters. */
  function Trocar(s: string, de: char, para: char): (r: string)
    ensures |r| == |s|
  {
    if s == [] then [] else [if s[0] == de then para else s[0]] + Trocar(s[1..], de, para)
  }

  lemma {:induction false} TrocarConcat(a: string, b: string, de: char, para: char)
    ensures Trocar(a + b, de, para) == Trocar(a, de, para) + Trocar(b, de, para)
  {
    if a == [] {
      assert a + b == b;
    } else {
      assert (a + b)[1..] == a[1..] + b;
      TrocarConcat(a[1..], b, de, para);
    }
  }

  lemma {:induction false} TrocarAusente(s: string, de: char, para: char)
    requires de !in s
    ensures Trocar(s, de, para) == s
  {
    if s != [] {
      TrocarAusente(s[1..], de, para);
    }
  }
}
