/** Number formatting of the canonical JSON scheme (config-ui/canonical.py): the Python route
    through repr and Decimal, and the ECMAScript Number::toString rule that section 3.2.2.3 of
    RFC 8785 asks for.

    A finite non-zero double is represented by the decimal of its shortest repr, m * 10^e with
    m not divisible by ten: distinct doubles have distinct ones. */
module CanonicalNumber {
  import opened Wrappers

  datatype Number = Integer(i: int) | FloatZero | Float(m: int, e: int)

  /** A float carries no trailing zero in its coefficient; in particular it is not zero. */
  predicate Shortest(x: Number) {
    x.Float? ==> Abs(x.m) % 10 != 0
  }

  function Abs(n: int): nat {
    if n < 0 then -n else n
  }

  // ---------------------------------------------------------------- digit strings

  predicate IsDigit(c: char) {
    '0' <= c <= '9'
  }

  function DigitChar(d: nat): (c: char)
    requires d < 10
    ensures IsDigit(c) && c as int - '0' as int == d
  {
    '0' + d as char
  }

  function DigitValue(c: char): nat {
    if IsDigit(c) then c as int - '0' as int else 0
  }

  function Digits(n: nat): (s: string)
    ensures |s| > 0 && forall k :: 0 <= k < |s| ==> IsDigit(s[k])
  {
    if n < 10 then [DigitChar(n)] else Digits(n / 10) + [DigitChar(n % 10)]
  }

  function Zeros(n: nat): (s: string)
    ensures |s| == n && forall k :: 0 <= k < n ==> s[k] == '0'
  {
    if n == 0 then "" else Zeros(n - 1) + "0"
  }

  function Pow10(n: nat): (p: nat)
    ensures p > 0
  {
    if n == 0 then 1 else 10 * Pow10(n - 1)
  }

  /** The number a digit string spells. */
  function NatOf(s: string): nat {
    if s == "" then 0 else 10 * NatOf(s[..|s| - 1]) + DigitValue(s[|s| - 1])
  }

  lemma {:induction false} NatOfDigits(n: nat)
    ensures NatOf(Digits(n)) == n
  {
    if n < 10 {
      assert Digits(n)[..0] == "";
    } else {
      NatOfDigits(n / 10);
      assert Digits(n)[..|Digits(n)| - 1] == Digits(n / 10);
    }
  }

  lemma {:induction false} NatOfZeros(s: string, n: nat)
    ensures NatOf(s + Zeros(n)) == NatOf(s) * Pow10(n)
  {
    if n == 0 {
      assert s + Zeros(0) == s;
    } else {
      NatOfZeros(s, n - 1);
      var t := s + Zeros(n);
      assert t[..|t| - 1] == s + Zeros(n - 1) && t[|t| - 1] == '0';
      assert NatOf(t) == 10 * NatOf(s + Zeros(n - 1));
      TimesTen(NatOf(s), Pow10(n - 1));
    }
  }

  lemma TimesTen(a: int, p: int)
    ensures a * (10 * p) == 10 * (a * p)
  {
  }

  lemma {:induction false} NatOfLeadingZeros(n: nat, s: string)
    ensures NatOf(Zeros(n) + s) == NatOf(s)
    decreases |s|, n
  {
    var t := Zeros(n) + s;
    if s == "" {
      assert t == Zeros(n);
      if n > 0 {
        assert t[..n - 1] == Zeros(n - 1) + "";
        NatOfLeadingZeros(n - 1, "");
      }
    } else {
      assert t[..|t| - 1] == Zeros(n) + s[..|s| - 1];
      NatOfLeadingZeros(n, s[..|s| - 1]);
    }
  }

  /** The last digit and the first one. */
  lemma {:induction false} DigitsEnds(n: nat)
    ensures Digits(n)[|Digits(n)| - 1] == DigitChar(n % 10)
    ensures n > 0 ==> Digits(n)[0] != '0'
  {
    if n >= 10 {
      DigitsEnds(n / 10);
    }
  }

  lemma {:induction false} DigitsTimesTen(n: nat, k: nat)
    requires n > 0
    ensures Digits(n * Pow10(k)) == Digits(n) + Zeros(k)
  {
    if k == 0 {
      assert Digits(n) + "" == Digits(n);
    } else {
      DigitsTimesTen(n, k - 1);
      var p := n * Pow10(k - 1);
      TimesTen(n, Pow10(k - 1));
      ProductPositive(n, Pow10(k - 1));
      DigitsTen(p);
      assert Digits(p) + "0" == Digits(n) + (Zeros(k - 1) + "0");
    }
  }

  lemma DigitsTen(p: nat)
    requires p > 0
    ensures Digits(10 * p) == Digits(p) + "0"
  {
    assert (10 * p) / 10 == p && (10 * p) % 10 == 0;
  }

  lemma ProductPositive(a: nat, b: nat)
    requires a > 0 && b > 0
    ensures a * b > 0
  {
  }

  lemma {:induction false} DigitsLength(n: nat, k: nat)
    requires k > 0
    ensures |Digits(n)| <= k <==> n < Pow10(k)
    decreases n
  {
    if n >= 10 {
      if k == 1 {
        assert Pow10(1) == 10 * Pow10(0);
      } else {
        DigitsLength(n / 10, k - 1);
        assert Pow10(k) == 10 * Pow10(k - 1);
      }
    } else {
      assert Pow10(k) == 10 * Pow10(k - 1);
    }
  }

  // ---------------------------------------------------------------- the Python route

  function Sign(n: int): string {
    if n < 0 then "-" else ""
  }

  predicate DigitString(d: string) {
    |d| > 0 && forall k :: 0 <= k < |d| ==> IsDigit(d[k])
  }

  function Pointed(whole: string, fraction: string): string {
    whole + ("." + fraction)
  }

  function Scaled(mantissa: string, exponent: string): string {
    mantissa + ("e" + exponent)
  }

  function Mantissa(d: string): string
    requires |d| > 0
  {
    WithFraction([d[0]], d[1..])
  }

  function WithFraction(whole: string, fraction: string): string {
    if fraction == "" then whole else Pointed(whole, fraction)
  }

  /** An exponent as repr prints it, with at least two digits. */
  function ReprExponent(x: int): string {
    (if x < 0 then "-" else "+") + ((if Abs(x) < 10 then "0" else "") + Digits(Abs(x)))
  }

  /** repr of the unsigned double with shortest digits d and value 0.d * 10^p: plain for
      -4 < p <= 16, exponential otherwise. */
  function Repr(d: string, p: int): string
    requires |d| > 0
  {
    if !(-4 < p <= 16) then Scaled(Mantissa(d), ReprExponent(p - 1))
    else if p <= 0 then Pointed("0", Zeros(-p) + d)
    else if p < |d| then Pointed(d[..p], d[p..])
    else Pointed(d + Zeros(p - |d|), "0")
  }

  /** decimal.Decimal of that repr: its coefficient digits and its exponent. */
  function DecimalOf(d: string, p: int): (string, int) {
    if |d| <= p <= 16 then (d + Zeros(p - |d|) + "0", -1) else (d, p - |d|)
  }

  /** format(decimal, "f"). */
  function FixedText(coefficient: string, exponent: int): string {
    if exponent >= 0 then coefficient + Zeros(exponent)
    else if |coefficient| > -exponent then
      Pointed(coefficient[..|coefficient| + exponent], coefficient[|coefficient| + exponent..])
    else Pointed("0", Zeros(-exponent - |coefficient|) + coefficient)
  }

  function RStrip(s: string, c: char): string {
    if s != "" && s[|s| - 1] == c then RStrip(s[..|s| - 1], c) else s
  }

  function LStrip(s: string, cs: set<char>): string {
    if s != "" && s[0] in cs then LStrip(s[1..], cs) else s
  }

  /** The index of the first c at or after i, or the length. */
  function Find(s: string, c: char, i: nat): (k: nat)
    requires i <= |s|
    ensures i <= k <= |s| && (k < |s| ==> s[k] == c) && forall j :: i <= j < k ==> s[j] != c
    decreases |s| - i
  {
    if i == |s| || s[i] == c then i else Find(s, c, i + 1)
  }

  /** str.partition: what precedes the first c, whether there is one, and what follows it. */
  function Partition(s: string, c: char): (string, bool, string) {
    var k := Find(s, c, 0);
    (s[..k], k < |s|, if k < |s| then s[k + 1..] else "")
  }

  function TrimFraction(text: string): string {
    if '.' in text then RStrip(RStrip(text, '0'), '.') else text
  }

  function ExponentText(exponent: string): string {
    var sign := if exponent != "" && exponent[0] == '-' then "-" else "+";
    var digits := LStrip(LStrip(exponent, {'+', '-'}), {'0'});
    sign + if digits == "" then "0" else digits
  }

  function ExponentialText(shortest: string): string {
    var (mantissa, _, exponent) := Partition(shortest, 'e');
    Scaled(TrimFraction(mantissa), ExponentText(exponent))
  }

  function FormatDigits(sign: string, d: string, p: int): string
    requires |d| > 0
  {
    // 1e-6 <= |value| < 1e21
    if -5 <= p <= 21 then TrimFraction(sign + FixedText(DecimalOf(d, p).0, DecimalOf(d, p).1))
    else ExponentialText(sign + Repr(d, p))
  }

  function FormatFloat(m: int, e: int): string {
    var d := Digits(Abs(m));
    FormatDigits(Sign(m), d, |d| + e)
  }

  function OddPart(n: nat): nat {
    if n > 0 && n % 2 == 0 then OddPart(n / 2) else n
  }

  function Pow2(n: nat): nat {
    if n == 0 then 1 else 2 * Pow2(n - 1)
  }

  /** int(float(n)) == n: a significand of 53 bits and an exponent in range. */
  predicate SurvivesRoundTrip(n: int) {
    OddPart(Abs(n)) < 0x20_0000_0000_0000 && Abs(n) < Pow2(1024)
  }

  function FormatInteger(n: int): string {
    Sign(n) + Digits(Abs(n))
  }

  function FormatNumber(x: Number): Option<string> {
    match x
    case Integer(i) => if SurvivesRoundTrip(i) then Some(FormatInteger(i)) else None
    case FloatZero => Some("0")
    case Float(m, e) => Some(FormatFloat(m, e))
  }

  // ---------------------------------------------------------------- the ECMAScript rule

  function SignedExponent(x: int): string {
    (if x < 0 then "-" else "+") + Digits(Abs(x))
  }

  /** A number text without its sign: whole part, fraction, and decimal exponent if any. */
  datatype Parts = Parts(whole: string, fraction: string, scale: Option<int>)

  function Spell(p: Parts): string {
    var mantissa := WithFraction(p.whole, p.fraction);
    if p.scale.None? then mantissa else Scaled(mantissa, SignedExponent(p.scale.value))
  }

  /** Number::toString of the positive value with digits d and k = |d|, n as ECMA-262 names it. */
  function EcmaParts(d: string, n: int): Parts
    requires |d| > 0
  {
    var k := |d|;
    if k <= n <= 21 then Parts(d + Zeros(n - k), "", None)
    else if 0 < n <= 21 then Parts(d[..n], d[n..], None)
    else if -6 < n <= 0 then Parts("0", Zeros(-n) + d, None)
    else Parts([d[0]], d[1..], Some(n - 1))
  }

  function EcmaBody(d: string, n: int): string
    requires |d| > 0
  {
    Spell(EcmaParts(d, n))
  }

  function EcmaText(m: int, e: int): string {
    var d := Digits(Abs(m));
    Sign(m) + EcmaBody(d, |d| + e)
  }

  lemma StripsNothing(s: string, c: char)
    requires s == "" || s[|s| - 1] != c
    ensures RStrip(s, c) == s
  {
  }

  lemma PartitionAt(a: string, b: string, c: char)
    requires c !in a
    ensures Partition(a + ([c] + b), c) == (a, true, b)
  {
    var s := a + ([c] + b);
    var k := Find(s, c, 0);
    assert s[|a|] == c;
    assert forall j :: 0 <= j < |a| ==> s[j] == a[j];
    assert s[..k] == a && s[k + 1..] == b;
  }

  lemma PartitionNone(s: string, c: char)
    requires c !in s
    ensures Partition(s, c) == (s, false, "")
  {
    assert s[..|s|] == s;
  }

  lemma TrimKeeps(s: string)
    requires s != "" && s[|s| - 1] != '0' && s[|s| - 1] != '.'
    ensures TrimFraction(s) == s
  {
    StripsNothing(s, '0');
    StripsNothing(s, '.');
  }

  /** "12.0" becomes "12". */
  lemma TrimInteger(s: string)
    requires s != "" && s[|s| - 1] != '.'
    ensures TrimFraction(Pointed(s, "0")) == s
  {
    var t := Pointed(s, "0");
    assert t[|s|] == '.' && t[|s| + 1] == '0' && t[..|s| + 1] == s + ".";
    StripsNothing(s + ".", '0');
    assert (s + ".")[..|s|] == s;
    StripsNothing(s, '.');
  }

  lemma {:induction false} StripExponent(x: int)
    requires x != 0
    ensures ExponentText(ReprExponent(x)) == SignedExponent(x)
  {
    var d := Digits(Abs(x));
    DigitsEnds(Abs(x));
    var padded := (if Abs(x) < 10 then "0" else "") + d;
    assert ReprExponent(x)[1..] == padded;
    assert LStrip(padded, {'+', '-'}) == padded;
    if Abs(x) < 10 {
      assert padded[1..] == d;
    }
    assert LStrip(d, {'0'}) == d;
  }

  /** Shortest digits end in no zero. */
  predicate Trimmed(d: string) {
    DigitString(d) && d[|d| - 1] != '0'
  }

  predicate IsSign(sign: string) {
    sign == "-" || sign == ""
  }

  /** An integral double below 10^16: Decimal keeps the ".0" of its repr. */
  lemma WholeAgrees(sign: string, d: string, p: int)
    requires DigitString(d) && IsSign(sign) && |d| <= p <= 16
    ensures FormatDigits(sign, d, p) == sign + EcmaBody(d, p)
  {
    var whole := d + Zeros(p - |d|);
    assert (whole + "0")[..|whole|] == whole && (whole + "0")[|whole|..] == "0";
    assert FixedText(whole + "0", -1) == Pointed(whole, "0");
    assert sign + Pointed(whole, "0") == Pointed(sign + whole, "0");
    TrimInteger(sign + whole);
  }

  lemma LargeAgrees(sign: string, d: string, p: int)
    requires DigitString(d) && IsSign(sign) && |d| <= p && 16 < p <= 21
    ensures FormatDigits(sign, d, p) == sign + EcmaBody(d, p)
  {
    assert '.' !in sign + (d + Zeros(p - |d|));
  }

  lemma FractionAgrees(sign: string, d: string, p: int)
    requires Trimmed(d) && IsSign(sign) && p < |d| && -5 <= p <= 21
    ensures FormatDigits(sign, d, p) == sign + EcmaBody(d, p)
  {
    var t := FixedText(d, p - |d|);
    assert t == EcmaBody(d, p);
    assert t[|t| - 1] == d[|d| - 1];
    TrimKeeps(sign + t);
  }

  lemma MantissaEnds(sign: string, d: string)
    requires Trimmed(d) && IsSign(sign)
    ensures var t := sign + Mantissa(d); t != "" && 'e' !in t && t[|t| - 1] != '0' && t[|t| - 1] != '.'
  {
    assert Mantissa(d)[|Mantissa(d)| - 1] == d[|d| - 1];
  }

  lemma ExponentialTextOf(mantissa: string, exponent: string)
    requires 'e' !in mantissa && TrimFraction(mantissa) == mantissa
    ensures ExponentialText(Scaled(mantissa, exponent)) == Scaled(mantissa, ExponentText(exponent))
  {
    PartitionAt(mantissa, exponent, 'e');
  }

  lemma ExponentialAgrees(sign: string, d: string, p: int)
    requires Trimmed(d) && IsSign(sign) && !(-5 <= p <= 21)
    ensures FormatDigits(sign, d, p) == sign + EcmaBody(d, p)
  {
    hide Scaled, WithFraction, SignedExponent, ReprExponent, ExponentText, ExponentialText, TrimFraction;
    var mantissa := sign + Mantissa(d);
    MantissaEnds(sign, d);
    TrimKeeps(mantissa);
    StripExponent(p - 1);
    ExponentialTextOf(mantissa, ReprExponent(p - 1));
    SignScaled(sign, Mantissa(d), ReprExponent(p - 1));
    SignScaled(sign, Mantissa(d), SignedExponent(p - 1));
  }

  lemma SignScaled(sign: string, mantissa: string, exponent: string)
    ensures sign + Scaled(mantissa, exponent) == Scaled(sign + mantissa, exponent)
  {
  }

  lemma DigitsAgree(sign: string, d: string, p: int)
    requires Trimmed(d) && IsSign(sign)
    ensures FormatDigits(sign, d, p) == sign + EcmaBody(d, p)
  {
    if !(-5 <= p <= 21) {
      ExponentialAgrees(sign, d, p);
    } else if p < |d| {
      FractionAgrees(sign, d, p);
    } else if p <= 16 {
      WholeAgrees(sign, d, p);
    } else {
      LargeAgrees(sign, d, p);
    }
  }

  /** The Python route prints exactly what ECMAScript prints, for every double. */
  lemma FollowsEcmaScript(m: int, e: int)
    requires Shortest(Float(m, e))
    ensures FormatFloat(m, e) == EcmaText(m, e)
  {
    hide FormatDigits, EcmaBody;
    var d := Digits(Abs(m));
    DigitsEnds(Abs(m));
    DigitsAgree(Sign(m), d, |d| + e);
  }

  // ---------------------------------------------------------------- what a text denotes

  function ReadExponent(s: string): int {
    if s == "" then 0 else if s[0] == '-' then -(NatOf(s[1..]) as int) else NatOf(s[1..])
  }

  /** The digits of an unsigned number text, and the power of ten of the last one. */
  function ReadMantissa(s: string): (string, int) {
    var (whole, _, fraction) := Partition(s, '.');
    (whole + fraction, -|fraction|)
  }

  function ReadUnsigned(s: string): (string, int) {
    var (mantissa, _, exponent) := Partition(s, 'e');
    (ReadMantissa(mantissa).0, ReadMantissa(mantissa).1 + ReadExponent(exponent))
  }

  /** The coefficient and the power of ten that a JSON number text spells. */
  function Read(s: string): (int, int) {
    if s != "" && s[0] == '-' then (-(NatOf(ReadUnsigned(s[1..]).0) as int), ReadUnsigned(s[1..]).1)
    else (NatOf(ReadUnsigned(s).0), ReadUnsigned(s).1)
  }

  /** The decimal without trailing zeros in its coefficient: one for each value. */
  function Normal(c: int, x: int): (int, int)
    decreases Abs(c)
  {
    if c == 0 then (0, 0) else if c % 10 == 0 then Normal(c / 10, x + 1) else (c, x)
  }

  function Value(x: Number): (int, int) {
    match x
    case Integer(i) => Normal(i, 0)
    case FloatZero => (0, 0)
    case Float(m, e) => (m, e)
  }

  lemma {:induction false} NormalScaled(c: int, k: nat, x: int)
    requires c % 10 != 0
    ensures Normal(c * Pow10(k), x) == (c, x + k)
    decreases k
  {
    if k > 0 {
      TimesTen(c, Pow10(k - 1));
      NonZero(c, Pow10(k - 1));
      NormalTen(c * Pow10(k - 1), x);
      NormalScaled(c, k - 1, x + 1);
    }
  }

  lemma NormalTen(q: int, x: int)
    requires q != 0
    ensures Normal(10 * q, x) == Normal(q, x + 1)
  {
    assert (10 * q) % 10 == 0 && (10 * q) / 10 == q;
  }

  lemma NonZero(a: int, b: int)
    requires a != 0 && b != 0
    ensures a * b != 0
  {
  }

  lemma {:induction false} NormalMeans(c: int, x: int)
    requires c != 0
    ensures Normal(c, x).1 >= x && Normal(c, x).0 % 10 != 0
    ensures c == Normal(c, x).0 * Pow10(Normal(c, x).1 - x)
    decreases Abs(c)
  {
    if c % 10 == 0 {
      NormalMeans(c / 10, x + 1);
      var k := Normal(c, x).1 - x;
      assert Pow10(k) == 10 * Pow10(k - 1);
    }
  }

  lemma ReadPointed(whole: string, fraction: string)
    requires '.' !in whole
    ensures ReadMantissa(Pointed(whole, fraction)) == (whole + fraction, -|fraction|)
  {
    PartitionAt(whole, fraction, '.');
  }

  lemma ReadPlain(whole: string)
    requires '.' !in whole
    ensures ReadMantissa(whole) == (whole, 0)
  {
    PartitionNone(whole, '.');
    assert whole + "" == whole;
  }

  lemma ReadUnscaled(mantissa: string)
    requires 'e' !in mantissa
    ensures ReadUnsigned(mantissa) == ReadMantissa(mantissa)
  {
    PartitionNone(mantissa, 'e');
  }

  lemma ReadScaled(mantissa: string, exponent: string)
    requires 'e' !in mantissa
    ensures ReadUnsigned(Scaled(mantissa, exponent)) == (ReadMantissa(mantissa).0, ReadMantissa(mantissa).1 + ReadExponent(exponent))
  {
    PartitionAt(mantissa, exponent, 'e');
  }

  lemma ReadExponentOf(x: int)
    ensures ReadExponent(SignedExponent(x)) == x
  {
    assert SignedExponent(x)[1..] == Digits(Abs(x));
    NatOfDigits(Abs(x));
  }

  predicate AllDigits(s: string) {
    forall k :: 0 <= k < |s| ==> IsDigit(s[k])
  }

  function Scale(p: Parts): int {
    if p.scale.None? then 0 else p.scale.value
  }

  lemma ReadWithFraction(whole: string, fraction: string)
    requires AllDigits(whole) && AllDigits(fraction)
    ensures ReadMantissa(WithFraction(whole, fraction)) == (whole + fraction, -|fraction|)
    ensures 'e' !in WithFraction(whole, fraction)
  {
    if fraction == "" {
      ReadPlain(whole);
      assert whole + fraction == whole;
    } else {
      ReadPointed(whole, fraction);
    }
  }

  /** Reading undoes spelling. */
  lemma ReadSpell(p: Parts)
    requires AllDigits(p.whole) && AllDigits(p.fraction)
    ensures ReadUnsigned(Spell(p)) == (p.whole + p.fraction, Scale(p) - |p.fraction|)
  {
    hide Pointed, Scaled, SignedExponent, WithFraction, ReadMantissa, ReadUnsigned, ReadExponent;
    var mantissa := WithFraction(p.whole, p.fraction);
    ReadWithFraction(p.whole, p.fraction);
    if p.scale.None? {
      ReadUnscaled(mantissa);
    } else {
      ReadExponentOf(p.scale.value);
      ReadScaled(mantissa, SignedExponent(p.scale.value));
    }
  }

  lemma NatOfPadded(n: nat, d: string)
    ensures NatOf("0" + (Zeros(n) + d)) == NatOf(d)
  {
    NatOfLeadingZeros(n, d);
    NatOfLeadingZeros(1, Zeros(n) + d);
    assert Zeros(1) == Zeros(0) + "0" == "0";
  }

  /** The rule's parts spell the digits' number, times ten for each zero it prints. */
  lemma EcmaPartsDenote(d: string, n: int, p: Parts) returns (k: nat)
    requires DigitString(d) && p == EcmaParts(d, n)
    ensures AllDigits(p.whole) && AllDigits(p.fraction) && p.whole != ""
    ensures NatOf(p.whole + p.fraction) == NatOf(d) * Pow10(k) && Scale(p) - |p.fraction| == n - |d| - k
  {
    k := 0;
    if |d| <= n <= 21 {
      k := n - |d|;
      NatOfZeros(d, k);
      assert p.whole + p.fraction == d + Zeros(k);
    } else if 0 < n <= 21 {
      assert p.whole + p.fraction == d;
    } else if -6 < n <= 21 {
      assert p.fraction == Zeros(-n) + d;
      NatOfPadded(-n, d);
    } else {
      assert p.fraction == d[1..];
      assert p.whole + p.fraction == d;
    }
  }

  /** The decimal a text denotes, without trailing zeros. */
  function Denoted(t: string): (int, int) {
    Normal(Read(t).0, Read(t).1)
  }

  lemma ReadSigned(m: int, body: string, s: string, x: int)
    requires body != "" && body[0] != '-' && ReadUnsigned(body) == (s, x)
    ensures Read(Sign(m) + body) == (if m < 0 then -(NatOf(s) as int) else NatOf(s), x)
  {
    if m < 0 {
      assert (Sign(m) + body)[1..] == body;
    } else {
      assert Sign(m) + body == body;
    }
  }

  lemma SignedDenotes(m: int, e: int, body: string, s: string, k: nat)
    requires m % 10 != 0 && body != "" && body[0] != '-'
    requires ReadUnsigned(body) == (s, e - k) && NatOf(s) == Abs(m) * Pow10(k)
    ensures Denoted(Sign(m) + body) == (m, e)
  {
    hide ReadUnsigned, Read, NatOf, Pow10, Normal;
    ReadSigned(m, body, s, e - k);
    SignTimes(m, Pow10(k));
    NormalScaled(m, k, e - k);
  }

  lemma AbsTimes(m: int, p: nat)
    requires p > 0
    ensures Abs(m * p) == Abs(m) * p && (m * p < 0 <==> m < 0)
  {
  }

  lemma SignTimes(m: int, p: int)
    ensures (if m < 0 then -(Abs(m) * p) else Abs(m) * p) == m * p
  {
  }

  /** Reading the printed text gives back the very decimal. */
  lemma EcmaTextDenotes(m: int, e: int)
    requires Shortest(Float(m, e))
    ensures Denoted(EcmaText(m, e)) == (m, e)
  {
    hide NatOf, Denoted, Spell, Scale, Pow10, EcmaParts, Digits;
    var d := Digits(Abs(m));
    var p := EcmaParts(d, |d| + e);
    NatOfDigits(Abs(m));
    var k := EcmaPartsDenote(d, |d| + e, p);
    SpellDenotes(m, e, p, k);
  }

  lemma SpellStarts(p: Parts)
    requires AllDigits(p.whole) && p.whole != ""
    ensures Spell(p) != "" && Spell(p)[0] != '-'
  {
    hide SignedExponent;
    assert Spell(p)[0] == p.whole[0];
  }

  lemma SpellDenotes(m: int, e: int, p: Parts, k: nat)
    requires AllDigits(p.whole) && AllDigits(p.fraction) && p.whole != "" && m % 10 != 0
    requires NatOf(p.whole + p.fraction) == Abs(m) * Pow10(k) && Scale(p) - |p.fraction| == e - k
    ensures Denoted(Sign(m) + Spell(p)) == (m, e)
  {
    hide NatOf, Denoted, ReadUnsigned, Spell, Pow10;
    ReadSpell(p);
    SpellStarts(p);
    SignedDenotes(m, e, Spell(p), p.whole + p.fraction, k);
  }

  lemma IntegerDenotes(i: int)
    ensures Denoted(FormatInteger(i)) == Normal(i, 0)
  {
    var d := Digits(Abs(i));
    NatOfDigits(Abs(i));
    ReadUnscaled(d);
    ReadPlain(d);
    ReadSigned(i, d, d, 0);
  }

  /** Every accepted number's text denotes the number's own value. */
  lemma TextDenotesValue(x: Number)
    requires Shortest(x) && FormatNumber(x).Some?
    ensures Denoted(FormatNumber(x).value) == Value(x)
  {
    match x
    case Integer(i) => IntegerDenotes(i);
    case FloatZero =>
      assert "0" == FormatInteger(0);
      IntegerDenotes(0);
    case Float(m, e) =>
      FollowsEcmaScript(m, e);
      EcmaTextDenotes(m, e);
  }

  // ---------------------------------------------------------------- one text for each value

  lemma IntegralFloat(i: int, m: int, e: int)
    requires Normal(i, 0) == (m, e) && i != 0
    ensures e >= 0 && i == m * Pow10(e) && Digits(Abs(i)) == Digits(Abs(m)) + Zeros(e) && Sign(i) == Sign(m)
  {
    NormalMeans(i, 0);
    AbsTimes(m, Pow10(e));
    DigitsTimesTen(Abs(m), e);
  }

  /** An int and a float of one value are printed alike exactly below 10^21, where the float
      turns to an exponent. */
  lemma SpellingsAgreeIff(i: int, m: int, e: int)
    requires i != 0 && Shortest(Float(m, e)) && Value(Integer(i)) == (m, e)
    ensures FormatInteger(i) == FormatFloat(m, e) <==> Abs(i) < Pow10(21)
  {
    FollowsEcmaScript(m, e);
    IntegralFloat(i, m, e);
    DigitsLength(Abs(i), 21);
    IntegralText(m, e);
    hide EcmaText, Pow10, Digits, FormatFloat;
    assert 'e' !in FormatInteger(i);
  }

  /** Up to 21 digits are written out; more of them end in an exponent. */
  lemma IntegralText(m: int, e: nat)
    ensures var d := Digits(Abs(m)) + Zeros(e);
      if |d| <= 21 then EcmaText(m, e) == Sign(m) + d else 'e' in EcmaText(m, e)
  {
    hide Digits, Pointed, SignedExponent;
    var d := Digits(Abs(m));
    var t := EcmaText(m, e);
    if |d| + e > 21 {
      var k := |Sign(m)| + |Mantissa(d)|;
      assert t[k] == 'e';
    }
  }

  predicate Plain(x: Number) {
    x.Integer? ==> Abs(x.i) < Pow10(21)
  }

  /** Equal texts mean equal values; below 10^21 equal values mean equal texts. */
  lemma OneTextOneValue(x: Number, y: Number)
    requires Shortest(x) && Shortest(y) && FormatNumber(x).Some? && FormatNumber(y).Some?
    ensures FormatNumber(x) == FormatNumber(y) ==> Value(x) == Value(y)
    ensures Plain(x) && Plain(y) && Value(x) == Value(y) ==> FormatNumber(x) == FormatNumber(y)
  {
    TextDenotesValue(x);
    TextDenotesValue(y);
    if Plain(x) && Plain(y) && Value(x) == Value(y) {
      SameValueSameText(x, y);
    }
  }

  lemma SameValueSameText(x: Number, y: Number)
    requires Shortest(x) && Shortest(y) && Plain(x) && Plain(y) && Value(x) == Value(y)
    requires FormatNumber(x).Some? && FormatNumber(y).Some?
    ensures FormatNumber(x) == FormatNumber(y)
  {
    match (x, y)
    case (Integer(i), Integer(j)) => NormalInjective(i, j);
    case (Integer(i), Float(m, e)) => SpellingsAgreeIff(i, m, e);
    case (Float(m, e), Integer(i)) => SpellingsAgreeIff(i, m, e);
    case (Integer(i), FloatZero) =>
      NormalInjective(i, 0);
      assert FormatInteger(0) == "0";
    case (FloatZero, Integer(i)) =>
      NormalInjective(i, 0);
      assert FormatInteger(0) == "0";
    case (Float(_, _), Float(_, _)) =>
    case (FloatZero, FloatZero) =>
    case (FloatZero, Float(_, _)) =>
    case (Float(_, _), FloatZero) =>
  }

  lemma NormalInjective(i: int, j: int)
    requires Normal(i, 0) == Normal(j, 0)
    ensures i == j
  {
    if i != 0 {
      NormalMeans(i, 0);
    }
    if j != 0 {
      NormalMeans(j, 0);
    }
  }

  predicate NumberChar(c: char) {
    IsDigit(c) || c in {'-', '+', '.', 'e'}
  }

  lemma EcmaShape(d: string, n: int)
    requires DigitString(d)
    ensures EcmaBody(d, n) != "" && IsDigit(EcmaBody(d, n)[0])
    ensures forall k :: 0 <= k < |EcmaBody(d, n)| ==> NumberChar(EcmaBody(d, n)[k])
  {
  }

  /** A number's text is made of number characters and starts with a digit or a minus. */
  lemma NumberCharacters(x: Number)
    requires Shortest(x) && FormatNumber(x).Some?
    ensures var t := FormatNumber(x).value;
      t != "" && (IsDigit(t[0]) || t[0] == '-') && forall k :: 0 <= k < |t| ==> NumberChar(t[k])
  {
    hide FormatFloat, EcmaBody;
    if x.Float? {
      FollowsEcmaScript(x.m, x.e);
      var d := Digits(Abs(x.m));
      EcmaShape(d, |d| + x.e);
    }
  }

  // ---------------------------------------------------------------- the shape of a number's text

  /** A sign and decimal digits without a leading zero. */
  predicate SignedDigits(s: string) {
    |s| > 1 && s[0] in {'+', '-'} && AllDigits(s[1..]) && s[1] != '0'
  }

  /** The one form a number is written in: a whole part without leading zeros; a fraction, if
      any, without trailing zeros; an exponent, if any, with its sign, without leading zeros,
      and after a single non-zero digit. */
  predicate Unpadded(body: string) {
    var (mantissa, scaled, exponent) := Partition(body, 'e');
    var (whole, dotted, fraction) := Partition(mantissa, '.');
    && whole != "" && AllDigits(whole) && (whole[0] == '0' ==> whole == "0")
    && (dotted ==> fraction != "" && AllDigits(fraction) && fraction[|fraction| - 1] != '0')
    && (scaled ==> |whole| == 1 && whole != "0" && SignedDigits(exponent))
  }

  function Unsigned(t: string): string {
    if t != "" && t[0] == '-' then t[1..] else t
  }

  /** The parts of a text that is written so. */
  predicate TightParts(p: Parts) {
    && p.whole != "" && AllDigits(p.whole) && (p.whole[0] == '0' ==> p.whole == "0")
    && AllDigits(p.fraction) && (p.fraction != "" ==> p.fraction[|p.fraction| - 1] != '0')
    && (p.scale.Some? ==> |p.whole| == 1 && p.whole != "0" && p.scale.value != 0)
  }

  lemma SpellUnpadded(p: Parts)
    requires TightParts(p)
    ensures Unpadded(Spell(p)) && Spell(p) != "" && Spell(p)[0] != '-'
  {
    hide Partition, Pointed, SignedDigits, SignedExponent;
    var mantissa := WithFraction(p.whole, p.fraction);
    MantissaUnpadded(p);
    SpellStarts(p);
    if p.scale.None? {
      PartitionNone(mantissa, 'e');
    } else {
      PartitionAt(mantissa, SignedExponent(p.scale.value), 'e');
      ExponentDigits(p.scale.value);
    }
  }

  lemma MantissaUnpadded(p: Parts)
    requires TightParts(p)
    ensures Partition(WithFraction(p.whole, p.fraction), '.') == (p.whole, p.fraction != "", p.fraction)
    ensures 'e' !in WithFraction(p.whole, p.fraction)
  {
    hide Partition;
    if p.fraction == "" {
      PartitionNone(p.whole, '.');
    } else {
      PartitionAt(p.whole, p.fraction, '.');
    }
  }

  lemma ExponentDigits(x: int)
    requires x != 0
    ensures SignedDigits(SignedExponent(x))
  {
    DigitsEnds(Abs(x));
    assert SignedExponent(x)[1..] == Digits(Abs(x));
  }

  lemma EcmaTight(d: string, n: int)
    requires Trimmed(d) && d[0] != '0'
    ensures TightParts(EcmaParts(d, n))
  {
    assert forall k :: 0 <= k < |d| ==> IsDigit(d[k]);
  }

  lemma UnsignedText(n: int, body: string)
    requires body != "" && body[0] != '-'
    ensures Unsigned(Sign(n) + body) == body
  {
    assert (Sign(n) + body)[|Sign(n)|..] == body;
  }

  lemma WholeShape(i: int)
    ensures Unpadded(Unsigned(FormatInteger(i)))
  {
    hide Unpadded, Unsigned;
    var d := Digits(Abs(i));
    DigitsEnds(Abs(i));
    SpellUnpadded(Parts(d, "", None));
    UnsignedText(i, d);
  }

  lemma FloatShape(m: int, e: int)
    requires Shortest(Float(m, e))
    ensures Unpadded(Unsigned(FormatFloat(m, e)))
  {
    hide Unpadded, Unsigned, EcmaParts, Spell, FormatFloat, TightParts;
    FollowsEcmaScript(m, e);
    var d := Digits(Abs(m));
    DigitsEnds(Abs(m));
    EcmaTight(d, |d| + e);
    SpellUnpadded(EcmaParts(d, |d| + e));
    UnsignedText(m, EcmaBody(d, |d| + e));
  }

  /** No number's text has a leading zero in its whole part or its exponent, or a trailing one
      in its fraction. */
  lemma NumberShape(x: Number)
    requires Shortest(x) && FormatNumber(x).Some?
    ensures Unpadded(Unsigned(FormatNumber(x).value))
  {
    hide Unpadded, Unsigned, FormatFloat;
    match x
    case FloatZero =>
      assert Sign(0) + Digits(0) == "0";
      WholeShape(0);
    case Integer(i) => WholeShape(i);
    case Float(m, e) => FloatShape(m, e);
  }
}
