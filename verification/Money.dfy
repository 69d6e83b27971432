/** The money canonicalizer on string input (packages/shared/src/money.ts), proved against the
    exact value of a decimal in units of 10^-8. */
module Money {
  import opened Common
  import opened Text

  datatype MoneyError = Required | NotPlainNotation | NotDecimal | TooPrecise

  const MAX_PLACES: nat := 8

  predicate Digit(c: char) { '0' <= c <= '9' }

  predicate AllDigits(s: string) {
    s == [] || (Digit(s[0]) && AllDigits(s[1..]))
  }

  predicate Contains(s: string, c: char) {
    s != [] && (s[0] == c || Contains(s[1..], c))
  }

  /** Everything before the first dot. */
  function BeforeDot(s: string): (r: string)
    ensures |r| <= |s| && r == s[..|r|]
  {
    if s == [] || s[0] == '.' then [] else [s[0]] + BeforeDot(s[1..])
  }

  /** Everything after the first dot. */
  function AfterDot(s: string): string {
    if s == [] then [] else if s[0] == '.' then s[1..] else AfterDot(s[1..])
  }

  /** A decimal taken apart: its sign, its digits before and after the dot. */
  datatype Decimal = Decimal(negative: bool, integer: string, fraction: string)

  function Unsigned(raw: string): string {
    if raw != [] && raw[0] == '-' then raw[1..] else raw
  }

  function Read(raw: string): Decimal {
    Decimal(raw != [] && raw[0] == '-', BeforeDot(Unsigned(raw)), AfterDot(Unsigned(raw)))
  }

  function Tail(d: Decimal): string { if d.fraction == [] then [] else ['.'] + d.fraction }

  function Write(d: Decimal): string {
    if d.negative then ['-'] + (d.integer + Tail(d)) else d.integer + Tail(d)
  }

  /** An optional minus, digits, and optionally a dot and more digits. */
  predicate IsDecimal(raw: string) {
    var d := Read(raw);
    && d.integer != [] && AllDigits(d.integer) && AllDigits(d.fraction)
    && (Contains(Unsigned(raw), '.') ==> d.fraction != [])
  }

  /** Leading zeros go while a digit follows. */
  function StripLeading(s: string): string {
    if |s| > 1 && s[0] == '0' then StripLeading(s[1..]) else s
  }

  function StripTrailing(s: string): string {
    if s != [] && s[|s| - 1] == '0' then StripTrailing(s[..|s| - 1]) else s
  }

  function Normalize(d: Decimal): Decimal {
    Decimal(d.negative, StripLeading(d.integer), StripTrailing(d.fraction))
  }

  function ParseMoneyDecimal(value: string): Result<string, MoneyError> {
    var raw := Trim(value);
    if value == "" then Err(Required)
    else if Contains(raw, 'e') || Contains(raw, 'E') || Contains(raw, ',') then Err(NotPlainNotation)
    else if !IsDecimal(raw) then Err(NotDecimal)
    else if |Read(raw).fraction| > MAX_PLACES then Err(TooPrecise)
    else Ok(Write(Normalize(Read(raw))))
  }

  // ----- The value of a decimal -----

  function Pow10(n: nat): (r: int)
    ensures r >= 1
  {
    if n == 0 then 1 else 10 * Pow10(n - 1)
  }

  function DigitValue(c: char): int { c as int - '0' as int }

  function Whole(s: string): int {
    if s == [] then 0 else 10 * Whole(s[..|s| - 1]) + DigitValue(s[|s| - 1])
  }

  /** The digits after the dot, as units of 10^-n. */
  function Places(s: string, n: nat): int
    requires |s| <= n
  {
    if s == [] then 0 else DigitValue(s[0]) * Pow10(n - 1) + Places(s[1..], n - 1)
  }

  /** The magnitude of a decimal in units of 10^-8. */
  function Magnitude(d: Decimal): int
    requires |d.fraction| <= MAX_PLACES
  {
    Whole(d.integer) * Pow10(MAX_PLACES) + Places(d.fraction, MAX_PLACES)
  }

  function Value(d: Decimal): int
    requires |d.fraction| <= MAX_PLACES
  {
    if d.negative then -Magnitude(d) else Magnitude(d)
  }

  // ----- Digits -----

  lemma {:induction false} DigitsAt(s: string, i: nat)
    requires AllDigits(s) && i < |s|
    ensures Digit(s[i])
  {
    if i > 0 { DigitsAt(s[1..], i - 1); }
  }

  lemma {:induction false} DigitsFront(s: string)
    requires AllDigits(s) && s != []
    ensures AllDigits(s[..|s| - 1]) && Digit(s[|s| - 1])
  {
    DigitsAt(s, |s| - 1);
    if |s| > 1 {
      DigitsFront(s[1..]);
      assert s[1..][..|s| - 2] == s[..|s| - 1][1..];
    }
  }

  lemma {:induction false} WholeHead(s: string)
    requires s != [] && s[0] == '0'
    ensures Whole(s) == Whole(s[1..])
  {
    if |s| > 1 {
      WholeHead(s[..|s| - 1]);
      assert s[..|s| - 1][1..] == s[1..][..|s| - 2];
    } else {
      assert s[..0] == [] && s[1..] == [];
    }
  }

  lemma {:induction false} StripLeadingKeeps(s: string)
    requires AllDigits(s) && s != []
    ensures Whole(StripLeading(s)) == Whole(s) && AllDigits(StripLeading(s))
    ensures LeadingForm(StripLeading(s))
  {
    if |s| > 1 && s[0] == '0' {
      WholeHead(s);
      StripLeadingKeeps(s[1..]);
    }
  }

  /** No leading zero but a lone one. */
  predicate LeadingForm(s: string) {
    s != [] && (|s| > 1 ==> s[0] != '0')
  }

  predicate TrailingForm(s: string) {
    s == [] || s[|s| - 1] != '0'
  }

  lemma {:induction false} PlacesDropZero(s: string, n: nat)
    requires s != [] && |s| <= n && s[|s| - 1] == '0'
    ensures Places(s, n) == Places(s[..|s| - 1], n)
  {
    if |s| > 1 {
      PlacesDropZero(s[1..], n - 1);
      assert s[1..][..|s| - 2] == s[..|s| - 1][1..];
    } else {
      assert s[1..] == [];
    }
  }

  lemma {:induction false} StripTrailingKeeps(s: string, n: nat)
    requires AllDigits(s) && |s| <= n
    ensures |StripTrailing(s)| <= |s| && AllDigits(StripTrailing(s)) && TrailingForm(StripTrailing(s))
    ensures Places(StripTrailing(s), n) == Places(s, n)
  {
    if s != [] && s[|s| - 1] == '0' {
      PlacesDropZero(s, n);
      DigitsFront(s);
      StripTrailingKeeps(s[..|s| - 1], n);
    }
  }

  // ----- Values determine canonical digits -----

  lemma {:induction false} WholePositive(s: string)
    requires AllDigits(s) && LeadingForm(s)
    ensures Whole(s) >= 0 && (|s| > 1 ==> Whole(s) >= 10) && (|s| == 1 ==> Whole(s) < 10)
  {
    DigitsFront(s);
    if |s| > 1 {
      WholePositive(s[..|s| - 1]);
      if |s| == 2 { assert Whole(s[..1]) == DigitValue(s[0]) by { assert s[..1][..0] == []; } }
    } else {
      assert s[..0] == [];
    }
  }

  lemma {:induction false} WholeDetermines(s: string, t: string)
    requires AllDigits(s) && AllDigits(t) && LeadingForm(s) && LeadingForm(t) && Whole(s) == Whole(t)
    ensures s == t
  {
    WholePositive(s);
    WholePositive(t);
    DigitsFront(s);
    DigitsFront(t);
    assert s == s[..|s| - 1] + [s[|s| - 1]] && t == t[..|t| - 1] + [t[|t| - 1]];
    if |s| > 1 {
      WholeDetermines(s[..|s| - 1], t[..|t| - 1]);
    } else {
      assert s[..0] == t[..0] == [];
    }
  }

  lemma {:induction false} PlacesBounded(s: string, n: nat)
    requires AllDigits(s) && |s| <= n
    ensures 0 <= Places(s, n) < Pow10(n)
    ensures s != [] && TrailingForm(s) ==> Places(s, n) > 0
  {
    if s != [] {
      PlacesBounded(s[1..], n - 1);
      if |s| == 1 { assert s[1..] == []; }
      DigitBound(DigitValue(s[0]), Pow10(n - 1), Places(s[1..], n - 1));
    }
  }

  lemma DigitBound(d: int, p: int, rest: int)
    requires 0 <= d <= 9 && p >= 1 && 0 <= rest < p
    ensures 0 <= d * p + rest < 10 * p
    ensures d > 0 || rest > 0 ==> d * p + rest > 0
  {
    assert 0 <= d * p <= 9 * p;
  }

  lemma {:induction false} NextMultiple(a: int, b: int, p: int)
    requires p >= 1 && a < b
    ensures a * p + p <= b * p
    decreases b - a
  {
    assert b * p == (b - 1) * p + p;
    if a < b - 1 { NextMultiple(a, b - 1, p); }
  }

  lemma SplitUnique(a: int, b: int, p: int, x: int, y: int)
    requires p >= 1 && 0 <= x < p && 0 <= y < p && a * p + x == b * p + y
    ensures a == b && x == y
  {
    if a < b { NextMultiple(a, b, p); }
    if b < a { NextMultiple(b, a, p); }
  }

  lemma {:induction false} PlacesDetermine(s: string, t: string, n: nat)
    requires AllDigits(s) && AllDigits(t) && TrailingForm(s) && TrailingForm(t) && |s| <= n && |t| <= n
    requires Places(s, n) == Places(t, n)
    ensures s == t
  {
    PlacesBounded(s, n);
    PlacesBounded(t, n);
    if s != [] && t != [] {
      PlacesBounded(s[1..], n - 1);
      PlacesBounded(t[1..], n - 1);
      SplitUnique(DigitValue(s[0]), DigitValue(t[0]), Pow10(n - 1), Places(s[1..], n - 1), Places(t[1..], n - 1));
      PlacesDetermine(s[1..], t[1..], n - 1);
      assert s == [s[0]] + s[1..] && t == [t[0]] + t[1..];
    }
  }

  predicate Canonical(d: Decimal) {
    && AllDigits(d.integer) && AllDigits(d.fraction) && |d.fraction| <= MAX_PLACES
    && LeadingForm(d.integer) && TrailingForm(d.fraction)
  }

  lemma MagnitudeDetermines(a: Decimal, b: Decimal)
    requires Canonical(a) && Canonical(b) && Magnitude(a) == Magnitude(b)
    ensures a.integer == b.integer && a.fraction == b.fraction
  {
    PlacesBounded(a.fraction, MAX_PLACES);
    PlacesBounded(b.fraction, MAX_PLACES);
    SplitUnique(
      Whole(a.integer), Whole(b.integer), Pow10(MAX_PLACES),
      Places(a.fraction, MAX_PLACES), Places(b.fraction, MAX_PLACES));
    WholeDetermines(a.integer, b.integer);
    PlacesDetermine(a.fraction, b.fraction, MAX_PLACES);
  }

  lemma NormalizeKeeps(d: Decimal)
    requires AllDigits(d.integer) && d.integer != [] && AllDigits(d.fraction) && |d.fraction| <= MAX_PLACES
    ensures Canonical(Normalize(d)) && Magnitude(Normalize(d)) == Magnitude(d) && Normalize(d).negative == d.negative
  {
    StripLeadingKeeps(d.integer);
    StripTrailingKeeps(d.fraction, MAX_PLACES);
  }

  lemma NormalizeFixesCanonical(d: Decimal)
    requires Canonical(d)
    ensures Normalize(d) == d
  {
  }

  // ----- Writing and reading -----

  lemma {:induction false} ReadsBack(whole: string, rest: string)
    requires AllDigits(whole) && (rest == [] || rest[0] == '.')
    ensures BeforeDot(whole + rest) == whole
    ensures AfterDot(whole + rest) == (if rest == [] then [] else rest[1..])
    ensures Contains(whole + rest, '.') <==> rest != []
  {
    if whole == [] {
      assert whole + rest == rest;
    } else {
      assert (whole + rest)[1..] == whole[1..] + rest;
      ReadsBack(whole[1..], rest);
    }
  }

  lemma WriteUnsigned(d: Decimal)
    requires d.integer != [] && AllDigits(d.integer)
    ensures Unsigned(Write(d)) == d.integer + Tail(d)
    ensures Write(d) != [] && (Write(d)[0] == '-' <==> d.negative)
  {
    assert Digit(d.integer[0]);
    assert (d.integer + Tail(d))[0] == d.integer[0];
  }

  /** Taking a written decimal apart gives it back, and it is well formed. */
  lemma WriteReads(d: Decimal)
    requires d.integer != [] && AllDigits(d.integer) && AllDigits(d.fraction)
    ensures Read(Write(d)) == d && IsDecimal(Write(d))
  {
    WriteUnsigned(d);
    ReadsBack(d.integer, Tail(d));
  }

  predicate Odd(c: char) { c == 'e' || c == 'E' || c == ',' }

  lemma {:induction false} DigitsAreNotOdd(s: string, c: char)
    requires AllDigits(s) && Odd(c)
    ensures !Contains(s, c)
  {
    if s != [] { DigitsAreNotOdd(s[1..], c); }
  }

  lemma {:induction false} ContainsSplits(u: string, c: char)
    requires c != '.'
    ensures Contains(u, c) <==> Contains(BeforeDot(u), c) || Contains(AfterDot(u), c)
  {
    if u != [] && u[0] != '.' {
      ContainsSplits(u[1..], c);
      assert BeforeDot(u)[1..] == BeforeDot(u[1..]);
    }
  }

  lemma {:induction false} DecimalsAreNotOdd(raw: string, c: char)
    requires IsDecimal(raw) && Odd(c)
    ensures !Contains(raw, c)
  {
    ContainsSplits(Unsigned(raw), c);
    DigitsAreNotOdd(Read(raw).integer, c);
    DigitsAreNotOdd(Read(raw).fraction, c);
  }

  lemma AcceptsDecimals(value: string)
    ensures ParseMoneyDecimal(value).Ok? <==> IsDecimal(Trim(value)) && |Read(Trim(value)).fraction| <= MAX_PLACES
  {
    var raw := Trim(value);
    if IsDecimal(raw) {
      DecimalsAreNotOdd(raw, 'e');
      DecimalsAreNotOdd(raw, 'E');
      DecimalsAreNotOdd(raw, ',');
    }
    if value == "" { assert raw == ""; }
  }

  /** The text of a decimal: an optional minus, one or more digits, and nothing or a dot and more digits. */
  ghost predicate Spells(raw: string, d: Decimal) {
    && d.integer != "" && (forall i :: 0 <= i < |d.integer| ==> '0' <= d.integer[i] <= '9')
    && (forall i :: 0 <= i < |d.fraction| ==> '0' <= d.fraction[i] <= '9')
    && raw == (if d.negative then "-" else "") + d.integer + (if d.fraction == "" then "" else "." + d.fraction)
  }

  lemma {:induction false} DigitsByIndex(s: string)
    ensures AllDigits(s) <==> forall i :: 0 <= i < |s| ==> '0' <= s[i] <= '9'
  {
    if s != [] {
      DigitsByIndex(s[1..]);
      assert forall i :: 0 <= i < |s| - 1 ==> s[1..][i] == s[i + 1];
      if forall i :: 0 <= i < |s[1..]| ==> '0' <= s[1..][i] <= '9' {
        forall i | 0 < i < |s| ensures '0' <= s[i] <= '9' { assert s[1..][i - 1] == s[i]; }
      }
    }
  }

  lemma SpellsWrites(raw: string, d: Decimal)
    ensures Spells(raw, d) <==> d.integer != [] && AllDigits(d.integer) && AllDigits(d.fraction) && raw == Write(d)
  {
    DigitsByIndex(d.integer);
    DigitsByIndex(d.fraction);
    assert "-" + d.integer + Tail(d) == ['-'] + (d.integer + Tail(d));
    assert "" + d.integer + Tail(d) == d.integer + Tail(d);
  }

  lemma {:induction false} DotEndsBefore(u: string)
    ensures Contains(u, '.') ==> |BeforeDot(u)| < |u| && u[|BeforeDot(u)|] == '.'
    ensures Contains(u, '.') ==> AfterDot(u) == u[|BeforeDot(u)| + 1..]
    ensures !Contains(u, '.') ==> |BeforeDot(u)| == |u| && AfterDot(u) == ""
  {
    if u != [] && u[0] != '.' { DotEndsBefore(u[1..]); }
  }

  lemma SplitsAtDot(u: string)
    ensures u == BeforeDot(u) + if Contains(u, '.') then "." + AfterDot(u) else ""
    ensures !Contains(u, '.') ==> AfterDot(u) == ""
  {
    DotEndsBefore(u);
  }

  lemma DecimalSpelled(raw: string)
    requires IsDecimal(raw)
    ensures Spells(raw, Read(raw))
  {
    var u := Unsigned(raw);
    SplitsAtDot(u);
    assert raw == (if Read(raw).negative then "-" else "") + u;
    SpellsWrites(raw, Read(raw));
  }

  /** One decimal at most spells a text: the one it is read as. */
  lemma SpelledIsDecimal(raw: string, d: Decimal)
    ensures Spells(raw, d) <==> IsDecimal(raw) && d == Read(raw)
  {
    if IsDecimal(raw) { DecimalSpelled(raw); }
    if Spells(raw, d) {
      SpellsWrites(raw, d);
      WriteReads(d);
    }
  }

  lemma {:induction false} ContainsByIndex(s: string, c: char)
    ensures Contains(s, c) <==> exists i :: 0 <= i < |s| && s[i] == c
  {
    if s != [] {
      ContainsByIndex(s[1..], c);
      if i :| 0 <= i < |s[1..]| && s[1..][i] == c { assert s[i + 1] == c; }
      if i :| 0 < i < |s| && s[i] == c { assert s[1..][i - 1] == c; }
    }
  }

  /** Scientific notation or a separator of thousands. */
  ghost predicate NotPlain(raw: string) {
    exists i :: 0 <= i < |raw| && (raw[i] == 'e' || raw[i] == 'E' || raw[i] == ',')
  }

  lemma {:induction false} NotPlainContains(raw: string)
    ensures NotPlain(raw) <==> Contains(raw, 'e') || Contains(raw, 'E') || Contains(raw, ',')
  {
    ContainsByIndex(raw, 'e');
    ContainsByIndex(raw, 'E');
    ContainsByIndex(raw, ',');
  }

  /** A plain decimal of at most eight places, or of more. */
  ghost predicate SpelledWithin(raw: string) {
    exists d :: Spells(raw, d) && |d.fraction| <= 8
  }

  ghost predicate SpelledBeyond(raw: string) {
    exists d :: Spells(raw, d) && |d.fraction| > 8
  }

  lemma SpelledByReading(raw: string)
    ensures SpelledWithin(raw) <==> IsDecimal(raw) && |Read(raw).fraction| <= 8
    ensures SpelledBeyond(raw) <==> IsDecimal(raw) && |Read(raw).fraction| > 8
  {
    forall d ensures Spells(raw, d) <==> IsDecimal(raw) && d == Read(raw) { SpelledIsDecimal(raw, d); }
  }

  /** Accepted are exactly the texts that trim to a plain decimal of at most eight places; every error
      exactly when it is the first that applies. */
  lemma AcceptsPlainDecimals(value: string)
    ensures var r, raw := ParseMoneyDecimal(value), Trim(value);
      && (r.Ok? <==> SpelledWithin(raw))
      && (r == Err(Required) <==> value == "")
      && (r == Err(NotPlainNotation) <==> NotPlain(raw))
      && (r == Err(TooPrecise) <==> SpelledBeyond(raw))
      && (r == Err(NotDecimal) <==> value != "" && !NotPlain(raw) && !SpelledWithin(raw) && !SpelledBeyond(raw))
  {
    AcceptsDecimals(value);
    NotPlainContains(Trim(value));
    SpelledByReading(Trim(value));
    if value == "" { assert Trim(value) == ""; }
    if IsDecimal(Trim(value)) { PlainIsNotOdd(Trim(value)); }
  }

  lemma PlainIsNotOdd(raw: string)
    requires IsDecimal(raw)
    ensures !NotPlain(raw)
  {
    NotPlainContains(raw);
    DecimalsAreNotOdd(raw, 'e');
    DecimalsAreNotOdd(raw, 'E');
    DecimalsAreNotOdd(raw, ',');
  }

  /** What an accepted text stands for, in units of 10^-8. */
  function ValueOf(value: string): int
    requires ParseMoneyDecimal(value).Ok?
  {
    Value(Read(Trim(value)))
  }

  predicate Negative(value: string) {
    Read(Trim(value)).negative
  }

  lemma LastCharacter(d: Decimal)
    requires d.integer != [] && AllDigits(d.integer) && AllDigits(d.fraction)
    ensures Write(d) != [] && Digit(Write(d)[|Write(d)| - 1])
  {
    DigitsAt(d.integer, |d.integer| - 1);
    if d.fraction != [] { DigitsAt(d.fraction, |d.fraction| - 1); }
  }

  /** A written decimal has no white space at its ends. */
  lemma WrittenIsTrimmed(d: Decimal)
    requires d.integer != [] && AllDigits(d.integer) && AllDigits(d.fraction)
    ensures Trim(Write(d)) == Write(d)
  {
    WriteUnsigned(d);
    LastCharacter(d);
    assert Digit(d.integer[0]);
    TrimKeepsTrimmed(Write(d));
  }

  lemma WrittenParses(d: Decimal)
    requires d.integer != [] && AllDigits(d.integer) && AllDigits(d.fraction) && |d.fraction| <= MAX_PLACES
    ensures ParseMoneyDecimal(Write(d)) == Ok(Write(Normalize(d)))
    ensures Read(Trim(Write(d))) == d
  {
    WriteReads(d);
    WrittenIsTrimmed(d);
    AcceptsDecimals(Write(d));
  }

  /** The output stands for the same value with the same sign, and parses to itself. */
  lemma ParsePreservesAndSettles(value: string, out: string)
    requires ParseMoneyDecimal(value) == Ok(out)
    ensures ParseMoneyDecimal(out) == Ok(out)
    ensures ValueOf(out) == ValueOf(value) && Negative(out) == Negative(value)
  {
    var d := Read(Trim(value));
    NormalizeKeeps(d);
    NormalizeFixesCanonical(Normalize(d));
    WrittenParses(Normalize(d));
  }

  lemma ValuesDecide(m: Decimal, n: Decimal)
    requires Canonical(m) && Canonical(n)
    ensures m == n <==> Value(m) == Value(n) && (Value(m) == 0 ==> m.negative == n.negative)
  {
    MagnitudeNotNegative(m);
    MagnitudeNotNegative(n);
    if Value(m) == Value(n) && (Value(m) == 0 ==> m.negative == n.negative) {
      MagnitudeDetermines(m, n);
    }
  }

  lemma TextsDecide(m: Decimal, n: Decimal)
    requires Canonical(m) && Canonical(n)
    ensures Write(m) == Write(n) <==> m == n
  {
    WriteReads(m);
    WriteReads(n);
  }

  /** Canonical form: two accepted texts give the same output exactly when their values are
      equal and, when both are zero, their signs agree. */
  lemma OutputsAreCanonical(a: string, b: string)
    requires ParseMoneyDecimal(a).Ok? && ParseMoneyDecimal(b).Ok?
    ensures ParseMoneyDecimal(a) == ParseMoneyDecimal(b)
      <==> ValueOf(a) == ValueOf(b) && (ValueOf(a) == 0 ==> Negative(a) == Negative(b))
  {
    var m, n := Read(Trim(a)), Read(Trim(b));
    NormalizeKeeps(m);
    NormalizeKeeps(n);
    TextsDecide(Normalize(m), Normalize(n));
    ValuesDecide(Normalize(m), Normalize(n));
  }

  lemma MagnitudeNotNegative(d: Decimal)
    requires Canonical(d)
    ensures Magnitude(d) >= 0
  {
    WholePositive(d.integer);
    PlacesBounded(d.fraction, MAX_PLACES);
    assert Whole(d.integer) * Pow10(MAX_PLACES) >= 0;
  }

  lemma {:induction false} StripsZeros(s: string, n: nat)
    requires |s| == n && forall i :: 0 <= i < |s| ==> s[i] == '0'
    ensures StripTrailing(s) == []
  {
    if n > 0 { StripsZeros(s[..n - 1], n - 1); }
  }

  /** The one value with two outputs: a zero keeps its sign, however many places it is written with. */
  lemma ZeroKeepsItsSign(d: Decimal)
    requires d.integer == ['0'] && |d.fraction| <= MAX_PLACES
    requires AllDigits(d.fraction) && forall i :: 0 <= i < |d.fraction| ==> d.fraction[i] == '0'
    ensures ParseMoneyDecimal(Write(d)) == Ok(if d.negative then ['-', '0'] else ['0'])
  {
    assert AllDigits(d.integer);
    WrittenParses(d);
    StripsZeros(d.fraction, |d.fraction|);
    assert StripLeading(d.integer) == ['0'];
    assert Tail(Normalize(d)) == [] && ['0'] + [] == ['0'] && ['-'] + ['0'] == ['-', '0'];
  }
}
