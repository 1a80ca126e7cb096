/**
 Exact decimal-kilogram arithmetic (apps/api/src/domain/netWeight.ts, duplicated on the edge in
 apps/edge/src/offline/netWeight.ts). Weights travel as strings such as "24580.250"; the value of a
 string is an integer number of thousandths of a kilogram.
 */
module NetWeight {
  import opened Wrappers

  // ---- digits ----

  predicate IsDigit(c: char) {
    '0' <= c <= '9'
  }

  ghost predicate AllDigits(s: string) {
    forall i | 0 <= i < |s| :: IsDigit(s[i])
  }

  function DigitChar(d: nat): (c: char)
    requires d < 10
    ensures IsDigit(c) && c as int - '0' as int == d
  {
    '0' + d as char
  }

  /** Decimal digits of n without leading zeros, as BigInt.prototype.toString prints them. */
  function Digits(n: nat): (s: string)
    ensures |s| > 0 && AllDigits(s)
  {
    if n < 10 then [DigitChar(n)] else Digits(n / 10) + [DigitChar(n % 10)]
  }

  /** The number a digit string denotes, as the BigInt constructor reads it. */
  function Value(s: string): nat
    requires AllDigits(s)
  {
    if s == [] then 0 else 10 * Value(s[..|s| - 1]) + (s[|s| - 1] as int - '0' as int)
  }

  lemma {:induction false} ValueOfDigits(n: nat)
    ensures Value(Digits(n)) == n
  {
    if n >= 10 {
      ValueOfDigits(n / 10);
      assert Digits(n)[..|Digits(n)| - 1] == Digits(n / 10);
    }
  }

  function Zeros(k: nat): (s: string)
    ensures |s| == k && AllDigits(s)
  {
    seq(k, _ => '0')
  }

  function PadStart(s: string, width: nat): (r: string)
    ensures |r| == if |s| >= width then |s| else width
    ensures AllDigits(s) ==> AllDigits(r)
  {
    if |s| >= width then s else Zeros(width - |s|) + s
  }

  function PadEnd(s: string, width: nat): (r: string)
    ensures |r| == if |s| >= width then |s| else width
    ensures AllDigits(s) ==> AllDigits(r)
  {
    if |s| >= width then s else s + Zeros(width - |s|)
  }

  lemma {:induction false} ValueOfLeadingZeros(k: nat, s: string)
    requires AllDigits(s)
    ensures Value(Zeros(k) + s) == Value(s)
  {
    if s == [] {
      assert Zeros(k) + s == Zeros(k);
      if k > 0 {
        assert Zeros(k)[..k - 1] == Zeros(k - 1) + [];
        ValueOfLeadingZeros(k - 1, []);
      }
    } else {
      assert (Zeros(k) + s)[..k + |s| - 1] == Zeros(k) + s[..|s| - 1];
      ValueOfLeadingZeros(k, s[..|s| - 1]);
    }
  }

  lemma ValueOfPadStart(s: string, width: nat)
    requires AllDigits(s)
    ensures Value(PadStart(s, width)) == Value(s)
  {
    if |s| < width {
      ValueOfLeadingZeros(width - |s|, s);
    }
  }

  lemma {:induction false} DigitsBound(n: nat, k: nat)
    requires k > 0 && n < Power10(k)
    ensures |Digits(n)| <= k
  {
    if n >= 10 {
      DigitsBound(n / 10, k - 1);
    }
  }

  function Power10(k: nat): nat {
    if k == 0 then 1 else 10 * Power10(k - 1)
  }

  // ---- parsing ----

  datatype WeightError = NotADecimal

  predicate IsSpace(c: char) {
    var u := c as int;
    0x09 <= u <= 0x0D || u == 0x20 || u == 0xA0 || u == 0x1680 || 0x2000 <= u <= 0x200A
    || u == 0x2028 || u == 0x2029 || u == 0x202F || u == 0x205F || u == 0x3000 || u == 0xFEFF
  }

  function TrimStart(s: string): string {
    if s != [] && IsSpace(s[0]) then TrimStart(s[1..]) else s
  }

  function TrimEnd(s: string): string {
    if s != [] && IsSpace(s[|s| - 1]) then TrimEnd(s[..|s| - 1]) else s
  }

  function Trim(s: string): string {
    TrimEnd(TrimStart(s))
  }

  /** Index of the first '.', or |s| when there is none. */
  function DotIndex(s: string): (k: nat)
    ensures k <= |s| && (k < |s| ==> s[k] == '.')
    ensures forall i | 0 <= i < k :: s[i] != '.'
  {
    if s == [] || s[0] == '.' then 0 else 1 + DotIndex(s[1..])
  }

  function Unsigned(s: string): string {
    if s != [] && s[0] == '-' then s[1..] else s
  }

  predicate DigitRun(s: string)
    ensures DigitRun(s) <==> AllDigits(s)
  {
    forall i | 0 <= i < |s| :: IsDigit(s[i])
  }

  /** The pattern ^-?\d+(\.\d{1,3})?$ as a scan. */
  predicate MatchesPattern(s: string) {
    var u := Unsigned(s);
    var k := DotIndex(u);
    k > 0 && DigitRun(u[..k]) && (k == |u| || (1 <= |u| - k - 1 <= 3 && DigitRun(u[k + 1..])))
  }

  function Fraction(u: string): string {
    if DotIndex(u) == |u| then "" else u[DotIndex(u) + 1..]
  }

  function KgToMilli(s: string): Result<int, WeightError> {
    var t := Trim(s);
    if !MatchesPattern(t) then Err(NotADecimal)
    else
      var u := Unsigned(t);
      var magnitude := Value(u[..DotIndex(u)]) * 1000 + Value(PadEnd(Fraction(u), 3));
      Ok(if t[0] == '-' then -magnitude else magnitude)
  }

  function MilliToKg(m: int): string {
    var a := Abs(m);
    (if m < 0 then "-" else "") + Digits(a / 1000) + "." + PadStart(Digits(a % 1000), 3)
  }

  // ---- the language accepted, and the value given to it ----

  /** s, without its blanks, spells the sign, whole part and fraction given. */
  ghost predicate Spells(s: string, negative: bool, whole: string, fraction: string) {
    && |whole| > 0 && AllDigits(whole) && |fraction| <= 3 && AllDigits(fraction)
    && s == (if negative then "-" else "") + whole + (if fraction == "" then "" else "." + fraction)
  }

  function Thousandths(fraction: string): nat
    requires AllDigits(fraction) && |fraction| <= 3
  {
    Value(fraction) * Power10(3 - |fraction|)
  }

  lemma TimesTen(a: nat, b: nat)
    ensures a * (10 * b) == 10 * (a * b)
  {
  }

  lemma {:induction false} ValueOfTrailingZeros(s: string, k: nat)
    requires AllDigits(s)
    ensures Value(s + Zeros(k)) == Value(s) * Power10(k)
  {
    if k == 0 {
      assert s + Zeros(0) == s;
    } else {
      var t := s + Zeros(k);
      assert t[..|t| - 1] == s + Zeros(k - 1) && t[|t| - 1] == '0';
      assert Value(t) == 10 * Value(s + Zeros(k - 1));
      ValueOfTrailingZeros(s, k - 1);
      TimesTen(Value(s), Power10(k - 1));
    }
  }

  lemma {:induction false} TrimStartTakes(s: string) returns (k: nat)
    ensures k <= |s| && TrimStart(s) == s[k..] && (forall i | 0 <= i < k :: IsSpace(s[i]))
    ensures k < |s| ==> !IsSpace(s[k])
  {
    if s != [] && IsSpace(s[0]) {
      k := TrimStartTakes(s[1..]);
      k := k + 1;
    } else {
      k := 0;
    }
  }

  lemma {:induction false} TrimEndTakes(s: string) returns (k: nat)
    ensures k <= |s| && TrimEnd(s) == s[..k] && (forall i | k <= i < |s| :: IsSpace(s[i]))
    ensures k > 0 ==> !IsSpace(s[k - 1])
  {
    if s != [] && IsSpace(s[|s| - 1]) {
      k := TrimEndTakes(s[..|s| - 1]);
    } else {
      k := |s|;
    }
  }

  /** Trimming takes blanks, all of them, off both ends and nothing else. */
  lemma TrimTakesBlanks(s: string) returns (a: string, b: string)
    ensures s == a + Trim(s) + b
    ensures forall c | c in a || c in b :: IsSpace(c)
    ensures Trim(s) != "" ==> !IsSpace(Trim(s)[0]) && !IsSpace(Trim(s)[|Trim(s)| - 1])
  {
    var j := TrimStartTakes(s);
    var k := TrimEndTakes(s[j..]);
    a, b := s[..j], s[j..][k..];
    assert Trim(s) == s[j..][..k];
  }

  lemma DotSplit(a: string, b: string)
    requires AllDigits(a)
    ensures DotIndex(a) == |a| && DotIndex(a + "." + b) == |a|
  {
    var s := a + "." + b;
    assert forall i | 0 <= i < |a| :: s[i] == a[i];
    assert s[|a|] == '.';
  }

  lemma SpelledIsDecimal(s: string, negative: bool, whole: string, fraction: string)
    requires Spells(s, negative, whole, fraction)
    ensures MatchesPattern(s)
    ensures var u := Unsigned(s); DotIndex(u) == |whole| && u[..|whole|] == whole
                                  && Fraction(u) == fraction
    ensures s[0] == '-' <==> negative
  {
    var u := Unsigned(s);
    assert u == whole + (if fraction == "" then "" else "." + fraction);
    DotSplit(whole, fraction);
    if fraction == "" {
      assert u == whole;
    } else {
      assert u == whole + "." + fraction;
    }
  }

  /** The trimmed text is a spelling of m thousandths. */
  ghost predicate Denotes(t: string, m: int) {
    exists negative, whole, fraction :: SpellsValue(t, negative, whole, fraction, m)
  }

  ghost predicate SpellsValue(t: string, negative: bool, whole: string, fraction: string, m: int) {
    Spells(t, negative, whole, fraction)
    && var magnitude := Value(whole) * 1000 + Thousandths(fraction);
       m == if negative then -magnitude else magnitude
  }

  lemma SpelledParses(s: string, negative: bool, whole: string, fraction: string, m: int)
    requires SpellsValue(Trim(s), negative, whole, fraction, m)
    ensures KgToMilli(s) == Ok(m)
  {
    SpelledIsDecimal(Trim(s), negative, whole, fraction);
    PadEndValue(fraction);
  }

  lemma DecimalIsSpelled(t: string)
    requires MatchesPattern(t)
    ensures var u := Unsigned(t); Spells(t, t[0] == '-', u[..DotIndex(u)], Fraction(u))
  {
    var u := Unsigned(t);
    var k := DotIndex(u);
    assert t == (if t[0] == '-' then "-" else "") + u;
    if k < |u| {
      assert u == u[..k] + ("." + u[k + 1..]);
    }
  }

  lemma ParsedIsSpelled(s: string)
    requires KgToMilli(s).Ok?
    ensures Denotes(Trim(s), KgToMilli(s).value)
  {
    var t := Trim(s);
    var u := Unsigned(t);
    DecimalIsSpelled(t);
    PadEndValue(Fraction(u));
    assert SpellsValue(t, t[0] == '-', u[..DotIndex(u)], Fraction(u), KgToMilli(s).value);
  }

  /** Both directions: a string parses to m exactly when its trimmed text is spelled by the grammar
      with the value m. */
  lemma ParseMeaning(s: string, m: int)
    ensures KgToMilli(s) == Ok(m) <==> Denotes(Trim(s), m)
  {
    if KgToMilli(s).Ok? {
      ParsedIsSpelled(s);
    }
    if Denotes(Trim(s), m) {
      var negative, whole, fraction :| SpellsValue(Trim(s), negative, whole, fraction, m);
      SpelledParses(s, negative, whole, fraction, m);
    }
  }

  lemma PadEndValue(fraction: string)
    requires AllDigits(fraction) && |fraction| <= 3
    ensures Value(PadEnd(fraction, 3)) == Thousandths(fraction)
  {
    ValueOfTrailingZeros(fraction, 3 - |fraction|);
    if |fraction| == 3 {
      assert fraction + Zeros(0) == fraction;
    }
  }

  // ---- round trips ----

  lemma PrintSpells(m: int)
    ensures Spells(MilliToKg(m), m < 0, Digits(Abs(m) / 1000), PadStart(Digits(Abs(m) % 1000), 3))
    ensures Trim(MilliToKg(m)) == MilliToKg(m)
  {
    assert Power10(3) == 1000 by { assert Power10(1) == 10; assert Power10(2) == 100; }
    DigitsBound(Abs(m) % 1000, 3);
    var s := MilliToKg(m);
    var fraction := PadStart(Digits(Abs(m) % 1000), 3);
    assert s[|s| - 1] == fraction[2];
    assert s[0] == if m < 0 then '-' else Digits(Abs(m) / 1000)[0];
  }

  /** Parsing what was printed gives the integer back, for every integer. */
  lemma ParseOfPrint(m: int)
    ensures KgToMilli(MilliToKg(m)) == Ok(m)
  {
    PrintSpells(m);
    var whole, fraction := Digits(Abs(m) / 1000), PadStart(Digits(Abs(m) % 1000), 3);
    ValueOfDigits(Abs(m) / 1000);
    ValueOfDigits(Abs(m) % 1000);
    ValueOfPadStart(Digits(Abs(m) % 1000), 3);
    SpelledParses(MilliToKg(m), m < 0, whole, fraction, m);
  }

  function Canonical(s: string): Result<string, WeightError> {
    match KgToMilli(s)
    case Ok(m) => Ok(MilliToKg(m))
    case Err(e) => Err(e)
  }

  /** Printing after parsing keeps the value, is idempotent, and gives equal strings exactly to
      equal weights. */
  lemma CanonicalForm(s: string, t: string)
    requires KgToMilli(s).Ok? && KgToMilli(t).Ok?
    ensures KgToMilli(Canonical(s).value) == KgToMilli(s)
    ensures Canonical(Canonical(s).value) == Canonical(s)
    ensures Canonical(s) == Canonical(t) <==> KgToMilli(s) == KgToMilli(t)
  {
    ParseOfPrint(KgToMilli(s).value);
    ParseOfPrint(KgToMilli(t).value);
  }

  // ---- net weight ----

  datatype NetWeightResult = NetWeightResult(netAsDecimal: string, tareExceedsGross: bool, netMilli: int)

  function CalculateNetWeight(gross: string, tare: string): Result<NetWeightResult, WeightError> {
    match KgToMilli(gross)
    case Err(e) => Err(e)
    case Ok(g) =>
      match KgToMilli(tare)
      case Err(e) => Err(e)
      case Ok(t) => Ok(NetWeightResult(MilliToKg(g - t), g - t < 0, g - t))
  }

  /** The printed net, added to the tare, is the gross with no rounding. */
  lemma NetPlusTareIsGross(gross: string, tare: string)
    requires KgToMilli(gross).Ok? && KgToMilli(tare).Ok?
    ensures var n := CalculateNetWeight(gross, tare);
      && n.Ok? && KgToMilli(n.value.netAsDecimal).Ok?
      && KgToMilli(n.value.netAsDecimal).value + KgToMilli(tare).value == KgToMilli(gross).value
      && (n.value.tareExceedsGross <==> KgToMilli(tare).value > KgToMilli(gross).value)
      && n.value.netMilli == KgToMilli(gross).value - KgToMilli(tare).value
  {
    ParseOfPrint(KgToMilli(gross).value - KgToMilli(tare).value);
  }
}
