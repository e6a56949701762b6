/** Python's decimal rendering `str(int)`, parsing `int(str)` and `float(str)`, and `round()`. */
module Numbers {
  import opened Wrappers
  import opened Text

  predicate IsDigit(c: char) {
    '0' <= c <= '9'
  }

  function DigitValue(c: char): nat
    requires IsDigit(c)
  {
    c as int - '0' as int
  }

  function DigitChar(d: nat): (c: char)
    requires d < 10
    ensures IsDigit(c) && DigitValue(c) == d
  {
    ('0' as int + d) as char
  }

  /** `str(n)` for a non-negative integer: no sign, no leading zero. */
  function NatToString(n: nat): (s: string)
    ensures s != []
    ensures forall i :: 0 <= i < |s| ==> IsDigit(s[i])
    ensures |s| > 1 ==> s[0] != '0'
  {
    if n < 10 then [DigitChar(n)] else NatToString(n / 10) + [DigitChar(n % 10)]
  }

  /** `str(i)` */
  function IntToString(i: int): (s: string)
    ensures s != []
  {
    if i < 0 then "-" + NatToString(-i) else NatToString(i)
  }

  /** The digit runs Python's `int()` accepts: digits with single underscores between them. */
  predicate IsDigitRun(s: string) {
    && s != []
    && IsDigit(s[0])
    && IsDigit(s[|s| - 1])
    && (forall i :: 0 <= i < |s| ==> IsDigit(s[i]) || s[i] == '_')
    && (forall i :: 0 <= i < |s| - 1 ==> IsDigit(s[i]) || IsDigit(s[i + 1]))
  }

  /** The value of a digit run, underscores ignored. */
  function RunValue(s: string): nat
    requires forall i :: 0 <= i < |s| ==> IsDigit(s[i]) || s[i] == '_'
  {
    if s == [] then 0
    else if s[|s| - 1] == '_' then RunValue(s[..|s| - 1])
    else 10 * RunValue(s[..|s| - 1]) + DigitValue(s[|s| - 1])
  }

  /** `int(s)` for a string: surrounding ASCII whitespace, one optional sign, a run of
      ASCII digits; `None` otherwise. Python also accepts non-ASCII digits and whitespace,
      which this model rejects. */
  function ParseInt(s: string): (r: Option<int>)
    ensures r.Some? ==> Strip(s) != []
  {
    ParseSigned(Strip(s))
  }

  /** A stripped `int()` argument: one optional sign, then a digit run. */
  function ParseSigned(t: string): (r: Option<int>)
    ensures r.Some? ==> t != []
  {
    if t == [] then None
    else
      var body := if t[0] == '-' || t[0] == '+' then t[1..] else t;
      if IsDigitRun(body) then Some(if t[0] == '-' then -(RunValue(body) as int) else RunValue(body)) else None
  }

  lemma {:induction false} RunValueOfNat(n: nat)
    ensures IsDigitRun(NatToString(n))
    ensures RunValue(NatToString(n)) == n
  {
    var s := NatToString(n);
    if n >= 10 {
      RunValueOfNat(n / 10);
      assert s[..|s| - 1] == NatToString(n / 10);
    }
  }

  lemma StripNonSpaceEnds(s: string)
    requires s != [] && !IsSpace(s[0]) && !IsSpace(s[|s| - 1])
    ensures Strip(s) == s
  {
  }

  /** `int(str(i)) == i`. */
  lemma ParseIntOfIntToString(i: int)
    ensures ParseInt(IntToString(i)) == Some(i)
  {
    IntToStringIsStripped(i);
    var n: nat := if i < 0 then -i else i;
    var d := NatToString(n);
    RunValueOfNat(n);
    assert IsDigit(d[0]);
    if i < 0 {
      var t := IntToString(i);
      assert t == "-" + d;
      assert t[1..] == d;
      assert ParseSigned(t) == Some(-(n as int));
    } else {
      assert ParseSigned(d) == Some(n);
    }
  }

  /** A rendered integer has no surrounding whitespace. */
  lemma IntToStringIsStripped(i: int)
    ensures Strip(IntToString(i)) == IntToString(i)
  {
    var s := IntToString(i);
    var d := NatToString(if i < 0 then -i else i);
    assert IsDigit(d[|d| - 1]) && IsDigit(d[0]);
    assert s[|s| - 1] == d[|d| - 1];
    StripNonSpaceEnds(s);
  }

  /** `int(s)` understands exactly what it accepts: a body that is a digit run with an optional sign. */
  lemma ParseIntDigitsOnly(s: string)
    requires forall i :: 0 <= i < |s| ==> IsDigit(s[i])
    requires s != []
    ensures ParseInt(s) == Some(RunValue(s))
  {
    assert IsDigit(s[0]) && IsDigit(s[|s| - 1]);
    StripNonSpaceEnds(s);
    assert IsDigitRun(s);
    assert ParseSigned(s) == Some(RunValue(s));
  }

  /** `float(s)` for the plain decimal forms: sign, digits with an optional fraction,
      an optional exponent. */
  function ParseFloat(s: string): (r: Option<real>)
    ensures r.Some? ==> Strip(s) != []
  {
    var t := Strip(s);
    if t == [] then None
    else
      var body := if t[0] == '-' || t[0] == '+' then t[1..] else t;
      match ParseUnsignedDecimal(body)
      case None => None
      case Some(v) => Some(if t[0] == '-' then -v else v)
  }

  predicate AllDigits(s: string) {
    forall i :: 0 <= i < |s| ==> IsDigit(s[i])
  }

  function Pow10(e: nat): (p: nat)
    ensures p >= 1
  {
    if e == 0 then 1 else 10 * Pow10(e - 1)
  }

  /** Mantissa `d+`, `d+.`, `d+.d+` or `.d+`, then an optional `e`/`E` exponent. */
  function ParseUnsignedDecimal(s: string): Option<real> {
    var k := IndexOfExponent(s, 0);
    var mant := s[..k];
    var expPart := if k < |s| then Some(s[k + 1..]) else None;
    match ParseMantissa(mant)
    case None => None
    case Some(m) =>
      match expPart
      case None => Some(m)
      case Some(e) =>
        match ParseExponent(e)
        case None => None
        case Some(x) => Some(if x >= 0 then m * Pow10(x) as real else m / Pow10(-x) as real)
  }

  function IndexOfExponent(s: string, i: nat): (k: nat)
    requires i <= |s|
    ensures i <= k <= |s|
    ensures k < |s| ==> s[k] == 'e' || s[k] == 'E'
    decreases |s| - i
  {
    if i == |s| || s[i] == 'e' || s[i] == 'E' then i else IndexOfExponent(s, i + 1)
  }

  function ParseMantissa(s: string): Option<real> {
    var k := IndexOfChar(s, '.', 0);
    var whole := s[..k];
    var frac := if k < |s| then s[k + 1..] else [];
    if (whole == [] && frac == []) || !AllDigits(whole) || !AllDigits(frac) then None
    else Some(RunValue(whole) as real + RunValue(frac) as real / Pow10(|frac|) as real)
  }

  function ParseExponent(s: string): Option<int> {
    if s == [] then None
    else
      var body := if s[0] == '-' || s[0] == '+' then s[1..] else s;
      if body == [] || !AllDigits(body) then None
      else Some(if s[0] == '-' then -(RunValue(body) as int) else RunValue(body))
  }

  function IndexOfChar(s: string, c: char, i: nat): (k: nat)
    requires i <= |s|
    ensures i <= k <= |s|
    ensures k < |s| ==> s[k] == c
    ensures forall j :: i <= j < k ==> s[j] != c
    decreases |s| - i
  {
    if i == |s| || s[i] == c then i else IndexOfChar(s, c, i + 1)
  }

  /** A natural number's digits read back as that number. */
  lemma ParseUnsignedOfNat(n: nat)
    ensures ParseUnsignedDecimal(NatToString(n)) == Some(n as real)
  {
    var d := NatToString(n);
    RunValueOfNat(n);
    assert forall j :: 0 <= j < |d| ==> d[j] != 'e' && d[j] != 'E' && d[j] != '.';
    NoExponent(d, 0);
    NoCharFound(d, '.', 0);
    assert d[..|d|] == d;
  }

  /** `float(str(i)) == i` for every integer rendering. */
  lemma ParseFloatOfIntToString(i: int)
    ensures ParseFloat(IntToString(i)) == Some(i as real)
  {
    IntToStringIsStripped(i);
    var n: nat := if i < 0 then -i else i;
    ParseUnsignedOfNat(n);
    if i < 0 {
      assert IntToString(i)[1..] == NatToString(n);
    }
  }

  lemma {:induction false} NoCharFound(s: string, c: char, i: nat)
    requires i <= |s|
    requires forall j :: i <= j < |s| ==> s[j] != c
    ensures IndexOfChar(s, c, i) == |s|
    decreases |s| - i
  {
    if i < |s| { NoCharFound(s, c, i + 1); }
  }

  lemma {:induction false} NoExponent(s: string, i: nat)
    requires i <= |s|
    requires forall j :: i <= j < |s| ==> s[j] != 'e' && s[j] != 'E'
    ensures IndexOfExponent(s, i) == |s|
    decreases |s| - i
  {
    if i < |s| { NoExponent(s, i + 1); }
  }

  /** Python's `round(x)`: the nearest integer, ties to the even one. */
  function RoundHalfEven(x: real): (r: int)
    ensures -1.0 / 2.0 <= x - r as real <= 1.0 / 2.0
    ensures x - r as real == 1.0 / 2.0 || x - r as real == -1.0 / 2.0 ==> r % 2 == 0
  {
    var f := x.Floor;
    var d := x - f as real;
    if d < 1.0 / 2.0 then f
    else if d > 1.0 / 2.0 then f + 1
    else if f % 2 == 0 then f else f + 1
  }

  /** The two clauses above leave no choice: rounding is a function of the distance rule. */
  lemma RoundHalfEvenUnique(x: real, r: int)
    requires -1.0 / 2.0 <= x - r as real <= 1.0 / 2.0
    requires x - r as real == 1.0 / 2.0 || x - r as real == -1.0 / 2.0 ==> r % 2 == 0
    ensures r == RoundHalfEven(x)
  {
  }

  /** Python's `round(x, digits)` on the exact decimal value (no binary rounding). */
  function RoundTo(x: real, digits: nat): (r: real)
    ensures -1.0 / 2.0 <= x * Pow10(digits) as real - r * Pow10(digits) as real <= 1.0 / 2.0
  {
    RoundHalfEven(x * Pow10(digits) as real) as real / Pow10(digits) as real
  }

  /** Python's `int(x)` on a float: truncation toward zero. */
  function TruncToward0(x: real): (r: int)
    ensures 0.0 <= x ==> 0 <= r && r as real <= x < r as real + 1.0
    ensures x < 0.0 ==> r <= 0 && r as real - 1.0 < x <= r as real
  {
    if x >= 0.0 then x.Floor else -((-x).Floor)
  }
}
