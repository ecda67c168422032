/**
 * The `div` template filter: Python's `int(value) // int(arg)`, falling back
 * to 0 when a conversion raises ValueError or the divisor is zero, and
 * letting every other exception (TypeError on `None`) escape.
 */
module MathFilters {
  import opened Common

  /** The template values the filter is handed. */
  datatype PyValue =
    | PyInt(i: int)
    | PyBool(b: bool)
    | PyDecimal(units: int, scale: nat)   // the decimal `units / 10^scale`
    | PyStr(s: string)
    | PyNone

  /** The outcome of Python's `int(...)` on one value. */
  datatype Conversion = Converted(n: int) | ValueError | TypeError

  /** What the filter hands back to the template engine. */
  datatype FilterResult = Returned(n: int) | RaisedTypeError

  function Pow10(k: nat): (p: nat)
    ensures p >= 1
  {
    if k == 0 then 1 else 10 * Pow10(k - 1)
  }

  function Abs(a: int): nat
  {
    if a < 0 then -a else a
  }

  /** Python's `//`: the quotient rounded toward negative infinity, so the remainder takes the divisor's sign. */
  function FloorDiv(a: int, b: int): (q: int)
    requires b != 0
    ensures b > 0 ==> b * q <= a < b * q + b
    ensures b < 0 ==> b * q >= a > b * q + b
  {
    if b > 0 then a / b else (-a) / (-b)
  }

  /** `int()` on a Decimal: the quotient truncated toward zero. */
  function TruncDiv(a: int, p: nat): (q: int)
    requires p > 0
    ensures Abs(q) * p <= Abs(a) < (Abs(q) + 1) * p
    ensures (a >= 0 ==> q >= 0) && (a <= 0 ==> q <= 0)
  {
    if a >= 0 then a / p else -((-a) / p)
  }

  /**
   * The ASCII characters `str.strip()` removes: space, tab, line feed, vertical
   * tab, form feed, carriage return and the four separators 0x1C to 0x1F.
   */
  predicate IsSpace(c: char)
  {
    c == ' ' || c == '\t' || c == '\n' || c == '\r' || c == '\U{000B}' || c == '\U{000C}'
    || ('\U{001C}' <= c <= '\U{001F}')
  }

  predicate IsDigit(c: char)
  {
    '0' <= c <= '9'
  }

  function StripLeading(s: string): (t: string)
    ensures |t| <= |s| && t == s[|s| - |t|..]
    ensures |t| > 0 ==> !IsSpace(t[0])
    ensures forall i :: 0 <= i < |s| - |t| ==> IsSpace(s[i])
  {
    if |s| > 0 && IsSpace(s[0]) then StripLeading(s[1..]) else s
  }

  function StripTrailing(s: string): (t: string)
    ensures |t| <= |s| && t == s[..|t|]
    ensures |t| > 0 ==> !IsSpace(t[|t| - 1])
    ensures forall i :: |t| <= i < |s| ==> IsSpace(s[i])
  {
    if |s| > 0 && IsSpace(s[|s| - 1]) then StripTrailing(s[..|s| - 1]) else s
  }

  /** Surrounding whitespace removed, nothing else. */
  function Strip(s: string): (t: string)
    ensures |t| > 0 ==> !IsSpace(t[0]) && !IsSpace(t[|t| - 1])
  {
    StripTrailing(StripLeading(s))
  }

  /**
   * The digit part of a base-10 literal: digits, with single underscores
   * allowed only between two digits.
   */
  predicate WellFormedDigits(s: string)
  {
    && |s| > 0
    && IsDigit(s[0])
    && (forall i :: 0 <= i < |s| ==> IsDigit(s[i]) || (s[i] == '_' && i + 1 < |s| && IsDigit(s[i + 1])))
  }

  function DigitValue(c: char): nat
    requires IsDigit(c)
  {
    (c as int) - ('0' as int)
  }

  /** The value of a digit string, underscores ignored. */
  function DigitsValue(s: string): nat
  {
    if |s| == 0 then 0
    else if IsDigit(s[|s| - 1]) then 10 * DigitsValue(s[..|s| - 1]) + DigitValue(s[|s| - 1])
    else DigitsValue(s[..|s| - 1])
  }

  /**
   * `int(s)` on a string: surrounding whitespace is ignored, then an optional
   * sign and a well-formed digit part; anything else is a ValueError (`None`).
   */
  function ParseInt(s: string): (r: Option<int>)
    ensures r.Some? ==> |Strip(s)| > 0
  {
    ParseLiteral(Strip(s))
  }

  /** An optional sign followed by a well-formed digit part. */
  function ParseLiteral(t: string): Option<int>
  {
    if |t| == 0 then None
    else
      var digits := if t[0] == '-' || t[0] == '+' then t[1..] else t;
      var magnitude: int := DigitsValue(digits);
      if !WellFormedDigits(digits) then None
      else if t[0] == '-' then Some(-magnitude)
      else Some(magnitude)
  }

  /** Python's `int(value)`. */
  function ToInt(v: PyValue): (r: Conversion)
    ensures r.TypeError? <==> v.PyNone?
    ensures r.ValueError? <==> v.PyStr? && ParseInt(v.s).None?
    ensures v.PyDecimal? ==> r.Converted? && r.n == TruncDiv(v.units, Pow10(v.scale))
  {
    match v
    case PyInt(i) => Converted(i)
    case PyBool(b) => Converted(if b then 1 else 0)
    case PyDecimal(units, scale) => Converted(TruncDiv(units, Pow10(scale)))
    case PyStr(s) => (match ParseInt(s) case Some(n) => Converted(n) case None => ValueError)
    case PyNone => TypeError
  }

  /**
   * The filter: `value` is converted first, so a ValueError there yields 0
   * before `arg` is looked at; a zero divisor yields 0; a TypeError escapes.
   */
  function Div(value: PyValue, arg: PyValue): (r: FilterResult)
  {
    match ToInt(value)
    case ValueError => Returned(0)
    case TypeError => RaisedTypeError
    case Converted(a) =>
      match ToInt(arg)
      case ValueError => Returned(0)
      case TypeError => RaisedTypeError
      case Converted(b) => if b == 0 then Returned(0) else Returned(FloorDiv(a, b))
  }

  /** Leading whitespace does not change what a string converts to. */
  lemma LeadingSpaceIgnored(c: char, s: string)
    requires IsSpace(c)
    ensures ParseInt([c] + s) == ParseInt(s)
  {
    assert ([c] + s)[1..] == s;
    assert Strip([c] + s) == Strip(s);
  }

  /** A string of whitespace alone, the empty string included, raises ValueError. */
  lemma {:induction false} BlankIsValueError(s: string)
    requires forall i :: 0 <= i < |s| ==> IsSpace(s[i])
    ensures ToInt(PyStr(s)) == ValueError
  {
    if |s| > 0 {
      BlankIsValueError(s[1..]);
      LeadingSpaceIgnored(s[0], s[1..]);
      assert s == [s[0]] + s[1..];
    }
  }

  /** Two integers divide with Python's floor semantics, and division by zero yields 0. */
  lemma DivOfIntegers(a: int, b: int)
    ensures b == 0 ==> Div(PyInt(a), PyInt(b)) == Returned(0)
    ensures b > 0 ==> Div(PyInt(a), PyInt(b)).n * b <= a < (Div(PyInt(a), PyInt(b)).n + 1) * b
    ensures b < 0 ==> Div(PyInt(a), PyInt(b)).n * b >= a > (Div(PyInt(a), PyInt(b)).n + 1) * b
  {
  }

  /** Rounding goes toward negative infinity, not toward zero: -7 by 2 is -4, and 7 by -2 is -4. */
  lemma DivRoundsDown()
    ensures Div(PyInt(-7), PyInt(2)) == Returned(-4)
    ensures Div(PyInt(7), PyInt(-2)) == Returned(-4)
  {
  }

  /** A value that does not parse yields 0 whatever the divisor, even `None`: the divisor is never converted. */
  lemma UnparsableValueYieldsZero(value: PyValue, arg: PyValue)
    requires ToInt(value).ValueError?
    ensures Div(value, arg) == Returned(0)
  {
  }

  /** The filter yields 0 by fallback exactly when a conversion raises ValueError or the divisor is zero. */
  lemma DivFallsBackExactly(value: PyValue, arg: PyValue)
    ensures ToInt(value).Converted? && ToInt(arg).Converted? && ToInt(arg).n != 0 ==>
              Div(value, arg) == Returned(FloorDiv(ToInt(value).n, ToInt(arg).n))
    ensures (ToInt(value).ValueError? || (ToInt(value).Converted? && (ToInt(arg).ValueError? || ToInt(arg) == Converted(0)))) ==>
              Div(value, arg) == Returned(0)
  {
  }

  /** Only a `None` escapes, and only when it is reached: the value, or the divisor of a convertible value. */
  lemma TypeErrorEscapes(value: PyValue, arg: PyValue)
    ensures Div(value, arg) == RaisedTypeError <==>
              value.PyNone? || (ToInt(value).Converted? && arg.PyNone?)
  {
  }

  /** The decimal text of a natural number. */
  function ShowNat(n: nat): (s: string)
    ensures |s| > 0
  {
    if n < 10 then [DigitChar(n)] else ShowNat(n / 10) + [DigitChar(n % 10)]
  }

  function DigitChar(d: nat): (c: char)
    requires d < 10
    ensures IsDigit(c) && DigitValue(c) == d
  {
    (('0' as int) + d) as char
  }

  /** `str(n)` for an integer. */
  function ShowInt(n: int): (s: string)
    ensures |s| > 0
  {
    if n < 0 then "-" + ShowNat(-n) else ShowNat(n)
  }

  lemma {:induction false} ShowNatDigits(n: nat)
    ensures WellFormedDigits(ShowNat(n)) && DigitsValue(ShowNat(n)) == n
    ensures forall i :: 0 <= i < |ShowNat(n)| ==> IsDigit(ShowNat(n)[i])
  {
    if n >= 10 {
      ShowNatDigits(n / 10);
      var s := ShowNat(n);
      assert s[..|s| - 1] == ShowNat(n / 10);
    }
  }

  /** Text with no surrounding whitespace is left alone by `Strip`. */
  lemma StripUnspaced(s: string)
    requires |s| > 0 && !IsSpace(s[0]) && !IsSpace(s[|s| - 1])
    ensures Strip(s) == s
  {
  }

  /** A well-formed digit string, optionally after a minus sign, is read as its value. */
  lemma ParseDigits(s: string, negative: bool)
    requires WellFormedDigits(s) && IsDigit(s[|s| - 1])
    ensures ParseInt(if negative then "-" + s else s) == Some(if negative then 0 - DigitsValue(s) as int else DigitsValue(s))
  {
    var t := if negative then "-" + s else s;
    assert t[|t| - 1] == s[|s| - 1];
    StripUnspaced(t);
    LiteralDigits(s, negative);
  }

  /** The literal part alone: a sign, then the digits. */
  lemma LiteralDigits(s: string, negative: bool)
    requires WellFormedDigits(s)
    ensures ParseLiteral(if negative then "-" + s else s) == Some(if negative then 0 - DigitsValue(s) as int else DigitsValue(s))
  {
    if negative {
      assert ("-" + s)[1..] == s;
    }
  }

  /** Every integer the template prints is read back as itself: `int(str(n)) == n`. */
  lemma {:induction false} ParseShowRoundTrip(n: int)
    ensures ParseInt(ShowInt(n)) == Some(n)
    ensures ToInt(PyStr(ShowInt(n))) == Converted(n)
  {
    var m := if n < 0 then -n else n;
    ShowNatDigits(m);
    ParseDigits(ShowNat(m), n < 0);
  }
}
