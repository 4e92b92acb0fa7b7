/** Exact decimal amounts: parsing a bounded decimal string into atomic units,
    and comparing amounts that were parsed at different scales. */
module CryptoAmount {
  import opened Wrappers

  const MAX_LENGTH := 96

  datatype Parsed = Parsed(canonical: string, units: nat, scale: nat)

  // ---- decimal strings ----

  predicate IsDigit(c: char) { '0' <= c <= '9' }

  predicate AllDigits(s: string) { forall k :: 0 <= k < |s| ==> IsDigit(s[k]) }

  /** Position of the first decimal point, or the length of the string. */
  function PointAt(s: string): (n: nat)
    ensures n <= |s|
    ensures '.' !in s[..n]
    ensures n < |s| ==> s[n] == '.'
  {
    if s == "" || s[0] == '.' then 0 else 1 + PointAt(s[1..])
  }

  function Integral(s: string): string { s[..PointAt(s)] }

  function Fraction(s: string): string {
    if PointAt(s) == |s| then "" else s[PointAt(s) + 1..]
  }

  /** A run of digits without a redundant leading zero. */
  predicate IsIntegral(s: string) {
    |s| > 0 && AllDigits(s) && (s[0] == '0' ==> |s| == 1)
  }

  /** The accepted syntax: an integral part, and at least one digit after a point. */
  predicate IsDecimal(s: string) {
    IsIntegral(Integral(s)) && AllDigits(Fraction(s)) && (PointAt(s) < |s| ==> |Fraction(s)| > 0)
  }

  function Pow10(n: nat): (p: nat)
    ensures p > 0
  {
    if n == 0 then 1 else 10 * Pow10(n - 1)
  }

  function DigitValue(c: char): nat
    requires IsDigit(c)
  {
    c as int - '0' as int
  }

  function ValueOf(s: string): nat
    requires AllDigits(s)
  {
    if s == "" then 0 else 10 * ValueOf(s[..|s| - 1]) + DigitValue(s[|s| - 1])
  }

  function Zeros(n: nat): (s: string)
    ensures |s| == n && forall k :: 0 <= k < n ==> s[k] == '0'
  {
    seq(n, _ => '0')
  }

  function TrimZeros(s: string): (t: string)
    ensures |t| <= |s|
  {
    if s != "" && s[|s| - 1] == '0' then TrimZeros(s[..|s| - 1]) else s
  }

  // ---- parsing and comparing ----

  function Canonical(integral: string, fraction: string): string {
    if TrimZeros(fraction) == "" then integral else integral + "." + TrimZeros(fraction)
  }

  /** The fraction filled up with zeros to the scale. */
  function Padded(fraction: string, scale: nat): string
    requires |fraction| <= scale
  {
    fraction + Zeros(scale - |fraction|)
  }

  function Parse(value: string, maximumScale: nat): Option<Parsed> {
    if |value| > MAX_LENGTH || !IsDecimal(value) || |Fraction(value)| > maximumScale then None
    else
      var units := ValueOf(Integral(value) + Padded(Fraction(value), maximumScale));
      if units == 0 then None
      else Some(Parsed(Canonical(Integral(value), Fraction(value)), units, maximumScale))
  }

  function Max(a: nat, b: nat): nat { if a < b then b else a }

  function Compare(left: Parsed, right: Parsed): int {
    var scale := Max(left.scale, right.scale);
    var leftUnits := left.units * Pow10(scale - left.scale);
    var rightUnits := right.units * Pow10(scale - right.scale);
    if leftUnits < rightUnits then -1 else if leftUnits > rightUnits then 1 else 0
  }

  // ---- positional notation ----

  /** x followed by n zero digits; linear arithmetic keeps the proofs about it cheap. */
  ghost function Shift(x: nat, n: nat): nat {
    if n == 0 then x else 10 * Shift(x, n - 1)
  }

  lemma {:induction false} ShiftIsProduct(x: nat, n: nat)
    ensures Shift(x, n) == x * Pow10(n)
  {
    if n != 0 { ShiftIsProduct(x, n - 1); }
  }

  lemma {:induction false} ShiftOrder(x: nat, y: nat, n: nat)
    ensures x < y ==> Shift(x, n) + Pow10(n) <= Shift(y, n)
    ensures x > 0 ==> Shift(x, n) > 0
    ensures Shift(0, n) == 0
  {
    if n != 0 { ShiftOrder(x, y, n - 1); }
  }

  lemma {:induction false} ValueOfConcat(a: string, b: string)
    requires AllDigits(a) && AllDigits(b)
    ensures AllDigits(a + b) && ValueOf(a + b) == Shift(ValueOf(a), |b|) + ValueOf(b)
  {
    if b == "" {
      assert a + b == a;
    } else {
      var b' := b[..|b| - 1];
      ValueOfConcat(a, b');
      assert (a + b)[..|a + b| - 1] == a + b';
      assert (a + b)[|a + b| - 1] == b[|b| - 1];
    }
  }

  lemma {:induction false} ValueOfZeros(n: nat)
    ensures ValueOf(Zeros(n)) == 0
  {
    if n != 0 {
      ValueOfZeros(n - 1);
      assert Zeros(n)[..n - 1] == Zeros(n - 1);
    }
  }

  lemma {:induction false} ValueOfBound(s: string)
    requires AllDigits(s)
    ensures ValueOf(s) < Pow10(|s|)
  {
    if s != "" { ValueOfBound(s[..|s| - 1]); }
  }

  /** Digit strings of one length denote different numbers. */
  lemma {:induction false} SameLengthInjective(a: string, b: string)
    requires AllDigits(a) && AllDigits(b) && |a| == |b| && ValueOf(a) == ValueOf(b)
    ensures a == b
  {
    if a != "" {
      var n := |a| - 1;
      SameLengthInjective(a[..n], b[..n]);
      assert a == a[..n] + [a[n]] && b == b[..n] + [b[n]];
    }
  }

  /** Without redundant leading zeros a number has one digit string. */
  lemma {:induction false} IntegralInjective(a: string, b: string)
    requires IsIntegral(a) && IsIntegral(b) && ValueOf(a) == ValueOf(b)
    ensures a == b
    decreases |a|
  {
    IntegralPositive(a);
    IntegralPositive(b);
    if |a| > 1 && |b| > 1 {
      var a', b' := a[..|a| - 1], b[..|b| - 1];
      IntegralInjective(a', b');
      assert a == a' + [a[|a| - 1]] && b == b' + [b[|b| - 1]];
    } else if |a| == 1 && |b| == 1 {
      SameLengthInjective(a, b);
    }
  }

  lemma {:induction false} IntegralPositive(a: string)
    requires IsIntegral(a)
    ensures a[0] != '0' ==> ValueOf(a) > 0
    ensures |a| == 1 ==> ValueOf(a) < 10
    ensures |a| > 1 ==> ValueOf(a) >= 10
  {
    if |a| > 1 {
      IntegralPositive(a[..|a| - 1]);
    } else {
      assert a[..0] == "";
    }
  }

  // ---- splitting canonical text ----

  lemma {:induction false} PointAtOf(integral: string, rest: string)
    requires AllDigits(integral) && (rest == "" || rest[0] == '.')
    ensures PointAt(integral + rest) == |integral|
  {
    if integral == "" {
      assert integral + rest == rest;
    } else {
      PointAtOf(integral[1..], rest);
      assert (integral + rest)[1..] == integral[1..] + rest;
    }
  }

  lemma JoinSplits(integral: string, fraction: string)
    requires AllDigits(integral)
    ensures fraction == "" ==> Integral(integral) == integral && Fraction(integral) == ""
    ensures var s := integral + "." + fraction; PointAt(s) < |s| && Integral(s) == integral && Fraction(s) == fraction
  {
    PointAtOf(integral, "");
    PointAtOf(integral, "." + fraction);
    assert integral + "" == integral;
    assert integral + "." + fraction == integral + ("." + fraction);
  }

  lemma CanonicalSplits(integral: string, fraction: string)
    requires IsIntegral(integral) && AllDigits(fraction)
    ensures Integral(Canonical(integral, fraction)) == integral
    ensures Fraction(Canonical(integral, fraction)) == TrimZeros(fraction)
    ensures IsDecimal(Canonical(integral, fraction))
  {
    var t := TrimZeros(fraction);
    TrimSplits(fraction);
    JoinSplits(integral, t);
  }

  lemma {:induction false} TrimSplits(s: string)
    ensures var t := TrimZeros(s);
            s == t + Zeros(|s| - |t|) && (AllDigits(s) ==> AllDigits(t)) && TrimZeros(t) == t
  {
    if s != "" && s[|s| - 1] == '0' {
      var n := |s| - 1;
      TrimSplits(s[..n]);
      assert s == s[..n] + ['0'];
    } else {
      assert s + Zeros(0) == s;
    }
  }

  lemma {:induction false} TrimZerosOfPadded(s: string, n: nat)
    ensures TrimZeros(s + Zeros(n)) == TrimZeros(s)
  {
    if n == 0 {
      assert s + Zeros(0) == s;
    } else {
      var p := s + Zeros(n);
      assert p[|p| - 1] == '0';
      assert p[..|p| - 1] == s + Zeros(n - 1);
      TrimZerosOfPadded(s, n - 1);
    }
  }

  lemma ZerosJoin(t: string, m: nat, n: nat)
    ensures t + Zeros(m) + Zeros(n) == t + Zeros(m + n)
  {
  }

  lemma PadJoined(t: string, f: string, scale: nat)
    requires |t| <= |f| <= scale && f == t + Zeros(|f| - |t|)
    ensures Padded(f, scale) == Padded(t, scale)
  {
    ZerosJoin(t, |f| - |t|, scale - |f|);
    assert |f| - |t| + (scale - |f|) == scale - |t|;
  }

  lemma PaddedTrim(f: string, scale: nat)
    requires |f| <= scale
    ensures TrimZeros(Padded(f, scale)) == TrimZeros(f)
    ensures Padded(f, scale) == Padded(TrimZeros(f), scale)
  {
    TrimZerosOfPadded(f, scale - |f|);
    TrimSplits(f);
    PadJoined(TrimZeros(f), f, scale);
  }

  /** Padding to one scale and trimming are inverse to each other. */
  lemma PaddedIffTrimmed(f: string, g: string, scale: nat)
    requires |f| <= scale && |g| <= scale
    ensures Padded(f, scale) == Padded(g, scale) <==> TrimZeros(f) == TrimZeros(g)
  {
    PaddedTrim(f, scale);
    PaddedTrim(g, scale);
  }

  // ---- changing the scale ----

  lemma AppendZeros(t: string, n: nat)
    requires AllDigits(t)
    ensures AllDigits(t + Zeros(n)) && ValueOf(t + Zeros(n)) == Shift(ValueOf(t), n)
  {
    ValueOfConcat(t, Zeros(n));
    ValueOfZeros(n);
  }

  /** Moving the digits of an amount to a wider scale appends zeros to them. */
  lemma Rescale(integral: string, fraction: string, low: nat, high: nat)
    requires AllDigits(integral) && AllDigits(fraction) && |fraction| <= low <= high
    ensures ValueOf(integral + Padded(fraction, high)) == Shift(ValueOf(integral + Padded(fraction, low)), high - low)
  {
    assert integral + Padded(fraction, high) == integral + Padded(fraction, low) + Zeros(high - low);
    AppendZeros(integral + Padded(fraction, low), high - low);
  }

  // ---- main results ----

  /** Equal units at one scale come from equal integral parts and equal padded fractions. */
  lemma EqualUnits(i: string, pf: string, j: string, pg: string)
    requires IsIntegral(i) && IsIntegral(j) && AllDigits(pf) && AllDigits(pg) && |pf| == |pg|
    requires ValueOf(i + pf) == ValueOf(j + pg)
    ensures i == j && pf == pg
  {
    ValueOfConcat(i, pf);
    ValueOfConcat(j, pg);
    ValueOfBound(pf);
    ValueOfBound(pg);
    ShiftOrder(ValueOf(i), ValueOf(j), |pf|);
    ShiftOrder(ValueOf(j), ValueOf(i), |pf|);
    IntegralInjective(i, j);
    SameLengthInjective(pf, pg);
  }

  /** At one scale the canonical text is a normal form: it is equal exactly when the units are. */
  lemma CanonicalIffUnits(v: string, w: string, scale: nat)
    requires Parse(v, scale).Some? && Parse(w, scale).Some?
    ensures Parse(v, scale).value.canonical == Parse(w, scale).value.canonical
            <==> Parse(v, scale).value.units == Parse(w, scale).value.units
  {
    var i, f, j, g := Integral(v), Fraction(v), Integral(w), Fraction(w);
    CanonicalSplits(i, f);
    CanonicalSplits(j, g);
    PaddedIffTrimmed(f, g, scale);
    if Parse(v, scale).value.units == Parse(w, scale).value.units {
      EqualUnits(i, Padded(f, scale), j, Padded(g, scale));
    }
  }

  /** Parsing text that is already canonical changes nothing. */
  lemma ReparseIsStable(v: string, scale: nat)
    requires Parse(v, scale).Some?
    ensures Parse(Parse(v, scale).value.canonical, scale) == Parse(v, scale)
  {
    TwoStageParse(v, scale, scale);
  }

  /** An amount accepted at two scales has the same canonical text, and its units differ by the
      exact power of ten. */
  lemma UnitsScale(v: string, low: nat, high: nat)
    requires low <= high && Parse(v, low).Some?
    ensures Parse(v, high).Some?
    ensures Parse(v, high).value.canonical == Parse(v, low).value.canonical
    ensures Parse(v, high).value.units == Parse(v, low).value.units * Pow10(high - low)
  {
    var units := Parse(v, low).value.units;
    Rescale(Integral(v), Fraction(v), low, high);
    ShiftIsProduct(units, high - low);
    ShiftOrder(units, 0, high - low);
  }

  /** Parsing once at a wide scale (as the provider does, at 30) and again at the asset's scale:
      it is accepted exactly when the trimmed fraction fits, and agrees with parsing directly
      wherever that is accepted too. */
  lemma TwoStageParse(v: string, wide: nat, scale: nat)
    requires Parse(v, wide).Some?
    ensures Parse(Parse(v, wide).value.canonical, scale).Some? <==> |TrimZeros(Fraction(v))| <= scale
    ensures Parse(v, scale).Some? <==> |Fraction(v)| <= scale
    ensures Parse(v, scale).Some? ==> Parse(Parse(v, wide).value.canonical, scale) == Parse(v, scale)
  {
    var i, f := Integral(v), Fraction(v);
    var t := TrimZeros(f);
    TrimSplits(f);
    assert Integral(Canonical(i, f)) == i && Fraction(Canonical(i, f)) == t && IsDecimal(Canonical(i, f))
           && Canonical(i, t) == Canonical(i, f) by {
      CanonicalSplits(i, f);
    }
    assert |Canonical(i, f)| <= |v|;
    if |t| <= scale { SamePositive(i, f, t, wide, scale); }
    if |f| <= scale {
      UnitsStayPositive(i, f, wide, scale);
      PaddedTrim(f, scale);
    }
  }

  lemma UnitsStayPositive(i: string, f: string, m: nat, n: nat)
    requires AllDigits(i) && AllDigits(f) && |f| <= m
    ensures |f| <= n && ValueOf(i + Padded(f, m)) > 0 ==> ValueOf(i + Padded(f, n)) > 0
  {
    if |f| <= n {
      var low, high := if m < n then m else n, if m < n then n else m;
      Rescale(i, f, low, high);
      ShiftOrder(ValueOf(i + Padded(f, low)), 0, high - low);
    }
  }

  lemma SamePositive(i: string, f: string, t: string, wide: nat, scale: nat)
    requires AllDigits(i) && AllDigits(f) && AllDigits(t) && |f| <= wide && t == TrimZeros(f) && |t| <= scale
    requires ValueOf(i + Padded(f, wide)) > 0
    ensures ValueOf(i + Padded(t, scale)) > 0
  {
    PaddedTrim(f, wide);
    UnitsStayPositive(i, t, wide, scale);
  }

  /** x divided by ten, n times. */
  ghost function Tenths(x: real, n: nat): real {
    if n == 0 then x else Tenths(x, n - 1) / 10.0
  }

  /** The rational number an amount stands for: units / 10^scale. */
  ghost function Rational(p: Parsed): real {
    Tenths(p.units as real, p.scale)
  }

  lemma {:induction false} TenthsOrder(x: real, y: real, n: nat)
    ensures x < y <==> Tenths(x, n) < Tenths(y, n)
  {
    if n != 0 { TenthsOrder(x, y, n - 1); }
  }

  lemma {:induction false} TenthsOfTen(x: real, n: nat)
    ensures Tenths(10.0 * x, n + 1) == Tenths(x, n)
  {
    if n != 0 { TenthsOfTen(x, n - 1); }
  }

  lemma {:induction false} TenthsOfShift(units: nat, gap: nat, scale: nat)
    ensures Tenths(Shift(units, gap) as real, scale + gap) == Tenths(units as real, scale)
  {
    if gap != 0 {
      TenthsOfShift(units, gap - 1, scale);
      TenthsOfTen(Shift(units, gap - 1) as real, scale + gap - 1);
    }
  }

  /** Comparison across mixed scales is the order of the rational values. */
  lemma CompareIsRationalOrder(a: Parsed, b: Parsed)
    ensures Compare(a, b) == (if Rational(a) < Rational(b) then -1 else if Rational(a) > Rational(b) then 1 else 0)
  {
    var scale := Max(a.scale, b.scale);
    var m, n := Shift(a.units, scale - a.scale), Shift(b.units, scale - b.scale);
    ShiftIsProduct(a.units, scale - a.scale);
    ShiftIsProduct(b.units, scale - b.scale);
    TenthsOfShift(a.units, scale - a.scale, a.scale);
    TenthsOfShift(b.units, scale - b.scale, b.scale);
    TenthsOrder(m as real, n as real, scale);
    TenthsOrder(n as real, m as real, scale);
  }

  lemma CompareSameScale(a: Parsed, b: Parsed)
    requires a.scale == b.scale
    ensures Compare(a, b) == (if a.units < b.units then -1 else if a.units > b.units then 1 else 0)
  {
    assert Pow10(0) == 1;
  }

  // ---- what the text says ----

  const DIGITS := "0123456789"

  predicate IsNumeric(s: string) { forall k :: 0 <= k < |s| ==> s[k] in DIGITS }

  /** The usual decimal numeral of a number, by repeated division. */
  function Decimal(n: nat): string {
    if n < 10 then [DIGITS[n]] else Decimal(n / 10) + [DIGITS[n % 10]]
  }

  /** Up to leading zeros, the text is the numeral of the number. */
  ghost predicate Denotes(s: string, n: nat) {
    exists z: nat :: z <= |s| && NumeralBehind(s, z, n)
  }

  ghost predicate NumeralBehind(s: string, z: nat, n: nat)
    requires z <= |s|
  {
    s[z..] == Decimal(n) && forall k :: 0 <= k < z ==> s[k] == '0'
  }

  /** The text is an integral part without a redundant leading zero and, behind a point, a fraction if there is one. */
  ghost predicate Written(text: string, integral: string, fraction: string) {
    && IsNumeric(integral) && IsNumeric(fraction)
    && (integral == "0" || (integral != "" && integral[0] != '0'))
    && text == if fraction == "" then integral else integral + "." + fraction
  }

  /** The longer text is the shorter one with zeros behind it. */
  ghost predicate FilledUp(short: string, long: string) {
    |short| <= |long| && long[..|short|] == short && forall k :: |short| <= k < |long| ==> long[k] == '0'
  }

  lemma DigitChar(c: char)
    ensures c in DIGITS <==> IsDigit(c)
    ensures IsDigit(c) ==> DigitValue(c) < 10 && DIGITS[DigitValue(c)] == c
  {
    assert DIGITS == ['0', '1', '2', '3', '4', '5', '6', '7', '8', '9'];
    if IsDigit(c) { assert c == ('0' as int + DigitValue(c)) as char; }
  }

  lemma Numeric(s: string)
    ensures IsNumeric(s) <==> AllDigits(s)
  {
    forall k | 0 <= k < |s| ensures s[k] in DIGITS <==> IsDigit(s[k]) { DigitChar(s[k]); }
  }

  lemma DigitOf(d: nat)
    requires d < 10
    ensures IsDigit(DIGITS[d]) && DigitValue(DIGITS[d]) == d
  {
    assert DIGITS == ['0', '1', '2', '3', '4', '5', '6', '7', '8', '9'];
  }

  lemma {:induction false} DecimalValue(n: nat)
    ensures AllDigits(Decimal(n)) && ValueOf(Decimal(n)) == n && IsIntegral(Decimal(n))
    ensures n > 0 ==> Decimal(n)[0] != '0'
  {
    DigitOf(n % 10);
    if n < 10 {
      assert Decimal(n)[..0] == "";
    } else {
      DecimalValue(n / 10);
      assert Decimal(n)[..|Decimal(n)| - 1] == Decimal(n / 10);
    }
  }

  lemma {:induction false} ZeroIff(s: string)
    requires AllDigits(s)
    ensures ValueOf(s) == 0 <==> forall k :: 0 <= k < |s| ==> s[k] == '0'
  {
    if s != "" {
      var n := |s| - 1;
      ZeroIff(s[..n]);
      assert forall k :: 0 <= k < n ==> s[k] == s[..n][k];
    }
  }

  lemma {:induction false} NumeralOfValue(s: string)
    requires AllDigits(s) && s != ""
    ensures Denotes(s, ValueOf(s))
  {
    hide NumeralBehind, Decimal;
    var n := |s| - 1;
    if n == 0 || ValueOf(s[..n]) == 0 {
      LastDigit(s);
    } else {
      NumeralOfValue(s[..n]);
      var z: nat :| z <= n && NumeralBehind(s[..n], z, ValueOf(s[..n]));
      OneMoreDigit(s, z);
    }
  }

  lemma LastDigit(s: string)
    requires AllDigits(s) && s != "" && ValueOf(s[..|s| - 1]) == 0
    ensures NumeralBehind(s, |s| - 1, ValueOf(s))
  {
    hide ValueOf, Decimal, DigitValue, IsDigit, NumeralBehind;
    var n := |s| - 1;
    ValueOfLast(s);
    DigitChar(s[n]);
    ZeroIff(s[..n]);
    DigitAfterZeros(s[..n], DigitValue(s[n]));
    assert s == s[..n] + [s[n]];
  }

  lemma DigitAfterZeros(zeros: string, d: nat)
    requires d < 10 && forall k :: 0 <= k < |zeros| ==> zeros[k] == '0'
    ensures NumeralBehind(zeros + [DIGITS[d]], |zeros|, d)
  {
    assert (zeros + [DIGITS[d]])[|zeros|..] == [DIGITS[d]] == Decimal(d);
  }

  lemma OneMoreDigit(s: string, z: nat)
    requires AllDigits(s) && z < |s| && ValueOf(s[..|s| - 1]) > 0
    requires NumeralBehind(s[..|s| - 1], z, ValueOf(s[..|s| - 1]))
    ensures NumeralBehind(s, z, ValueOf(s))
  {
    hide ValueOf, Decimal, DigitValue, IsDigit, NumeralBehind;
    var n := |s| - 1;
    ValueOfLast(s);
    DigitChar(s[n]);
    NumeralGrows(s[..n], z, ValueOf(s[..n]), DigitValue(s[n]));
    assert s == s[..n] + [s[n]];
  }

  lemma NumeralGrows(s: string, z: nat, v: nat, d: nat)
    requires z <= |s| && v > 0 && d < 10 && NumeralBehind(s, z, v)
    ensures NumeralBehind(s + [DIGITS[d]], z, 10 * v + d)
  {
    hide Decimal;
    DecimalLast(v, d);
    assert (s + [DIGITS[d]])[z..] == s[z..] + [DIGITS[d]];
  }

  lemma DecimalLast(v: nat, d: nat)
    requires v > 0 && d < 10
    ensures Decimal(10 * v + d) == Decimal(v) + [DIGITS[d]]
  {
    assert (10 * v + d) / 10 == v && (10 * v + d) % 10 == d;
  }

  lemma ValueOfLast(s: string)
    requires AllDigits(s) && s != ""
    ensures ValueOf(s) == 10 * ValueOf(s[..|s| - 1]) + DigitValue(s[|s| - 1])
  {
  }

  /** A run of digits denotes exactly the number it is read as. */
  lemma DenotesIff(s: string, n: nat)
    requires AllDigits(s) && s != ""
    ensures Denotes(s, n) <==> ValueOf(s) == n
  {
    hide NumeralBehind, ValueOf;
    NumeralOfValue(s);
    if Denotes(s, n) {
      var z: nat :| z <= |s| && NumeralBehind(s, z, n);
      NumeralValue(s, z, n);
    }
  }

  lemma NumeralValue(s: string, z: nat, n: nat)
    requires AllDigits(s) && z <= |s| && NumeralBehind(s, z, n)
    ensures ValueOf(s) == n
  {
    hide ValueOf, Decimal;
    ZeroIff(s[..z]);
    DecimalValue(n);
    ValueOfConcat(s[..z], s[z..]);
    ShiftOrder(0, 0, |s[z..]|);
    assert s == s[..z] + s[z..];
  }

  lemma WrittenSplits(v: string, integral: string, fraction: string)
    requires Written(v, integral, fraction)
    ensures Integral(v) == integral && Fraction(v) == fraction && IsDecimal(v)
  {
    Numeric(integral);
    Numeric(fraction);
    JoinSplits(integral, fraction);
  }

  /** Everything accepted is written in one way. */
  lemma ParsedIsWritten(v: string, scale: nat)
    requires Parse(v, scale).Some?
    ensures Written(v, Integral(v), Fraction(v))
    ensures forall i, f :: Written(v, i, f) ==> i == Integral(v) && f == Fraction(v)
  {
    Numeric(Integral(v));
    Numeric(Fraction(v));
    var n := PointAt(v);
    assert n < |v| ==> v == v[..n] + "." + v[n + 1..];
    forall i, f | Written(v, i, f) ensures i == Integral(v) && f == Fraction(v) { WrittenSplits(v, i, f); }
  }

  /** What parsing a text gives: it is accepted exactly when it is short enough, its fraction fits and some digit is not
      zero; the units are then the number that its digits, filled up to the scale, denote, and the canonical
      text is the same but for the zeros its fraction ends with. */
  lemma ParseReads(v: string, integral: string, fraction: string, filled: string, scale: nat, units: nat)
    requires Written(v, integral, fraction)
    ensures Parse(v, scale).Some? <==>
              |v| <= 96 && |fraction| <= scale && exists k :: 0 <= k < |v| && v[k] in "123456789"
    ensures Parse(v, scale).Some? && FilledUp(fraction, filled) && |filled| == scale ==>
              (Parse(v, scale).value.units == units <==> Denotes(integral + filled, units))
    ensures Parse(v, scale).Some? ==>
              var p := Parse(v, scale).value;
              && p.scale == scale
              && exists kept :: Written(p.canonical, integral, kept) && FilledUp(kept, fraction)
                                && (kept != "" ==> kept[|kept| - 1] != '0')
  {
    hide TrimZeros, ValueOf, Decimal;
    WrittenSplits(v, integral, fraction);
    Numeric(integral);
    Numeric(fraction);
    if |fraction| <= scale {
      var padded := Padded(fraction, scale);
      assert AllDigits(integral + padded);
      if FilledUp(fraction, filled) && |filled| == scale {
        assert filled == padded;
        DenotesIff(integral + padded, units);
      }
      ZeroIff(integral + padded);
      Numeric(padded);
      SomeDigit(v, integral, fraction, padded);
      TrimmedIsWritten(integral, fraction);
    }
  }

  lemma SomeDigit(v: string, integral: string, fraction: string, padded: string)
    requires Written(v, integral, fraction) && FilledUp(fraction, padded) && IsNumeric(padded)
    ensures (exists k :: 0 <= k < |v| && v[k] in "123456789") <==>
            !(forall k :: 0 <= k < |integral + padded| ==> (integral + padded)[k] == '0')
  {
    hide IsNumeric;
    var s := integral + padded;
    if k :| 0 <= k < |v| && v[k] in "123456789" {
      NonZero(v[k]);
      var j := if k < |integral| then k else k - 1;
      assert v[k] == if k < |integral| then integral[k] else if k == |integral| then '.' else fraction[j - |integral|];
      assert s[j] == v[k];
    }
    if j :| 0 <= j < |s| && s[j] != '0' {
      var k := if j < |integral| then j else j + 1;
      assert s[j] == if j < |integral| then integral[j] else fraction[j - |integral|];
      assert v[k] == s[j];
      assert s[j] in DIGITS by { InDigits(integral, padded, j); }
      NonZero(s[j]);
    }
  }

  lemma InDigits(a: string, b: string, j: nat)
    requires IsNumeric(a) && IsNumeric(b) && j < |a + b|
    ensures (a + b)[j] in DIGITS
  {
  }

  lemma NonZero(c: char)
    ensures c in "123456789" <==> c in DIGITS && c != '0'
    ensures c in "123456789" ==> c != '.'
  {
    assert "123456789" == ['1', '2', '3', '4', '5', '6', '7', '8', '9'];
    assert DIGITS == ['0', '1', '2', '3', '4', '5', '6', '7', '8', '9'];
  }

  lemma TrimmedIsWritten(integral: string, fraction: string)
    requires Written(if fraction == "" then integral else integral + "." + fraction, integral, fraction)
    ensures exists kept :: Written(Canonical(integral, fraction), integral, kept) && FilledUp(kept, fraction)
                           && (kept != "" ==> kept[|kept| - 1] != '0')
  {
    hide TrimZeros;
    var kept := TrimZeros(fraction);
    TrimSplits(fraction);
    TrimEnds(fraction);
    assert forall k :: 0 <= k < |kept| ==> kept[k] == fraction[k];
    assert Written(Canonical(integral, fraction), integral, kept);
    assert FilledUp(kept, fraction);
  }

  lemma {:induction false} TrimEnds(s: string)
    ensures var t := TrimZeros(s); t != "" ==> t[|t| - 1] != '0'
  {
    if s != "" && s[|s| - 1] == '0' { TrimEnds(s[..|s| - 1]); }
  }

  /** Numerals are read as the numbers they are numerals of. */
  lemma DecimalParses(n: nat)
    requires n > 0 && |Decimal(n)| <= 96
    ensures Parse(Decimal(n), 0) == Some(Parsed(Decimal(n), n, 0))
  {
    hide Decimal, TrimZeros;
    DecimalValue(n);
    JoinSplits(Decimal(n), "");
    assert Decimal(n) + Padded("", 0) == Decimal(n);
    assert TrimZeros("") == "" by { TrimSplits(""); }
  }
}
