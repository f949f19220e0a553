/**
 * Rust's `str::parse::<f64>`, restricted to plain decimal text and read exactly: the
 * parser `time_to_dec` (src/time_funcs.rs) applies to each field of a time.
 */
module Float {
  import opened Outcomes
  import opened Text

  const EmptyFloat: string := "cannot parse float from empty string"
  const InvalidFloat: string := "invalid float literal"

  /** The value of the digits after a decimal point. */
  function Fraction(digits: string): real
    requires AllDigits(digits)
  {
    DigitsValue(digits) as real / Pow10(|digits|) as real
  }

  /** Digits with at most one decimal point and at least one digit, read exactly. */
  function UnsignedDecimal(b: string): Option<real>
  {
    PointedDecimal(Split(b, '.'))
  }

  /** The pieces of a number around its decimal point, read exactly. */
  function PointedDecimal(parts: seq<string>): Option<real>
  {
    if |parts| == 1 && |parts[0]| > 0 && AllDigits(parts[0]) then Some(DigitsValue(parts[0]) as real)
    else if |parts| == 2 && AllDigits(parts[0]) && AllDigits(parts[1]) && |parts[0]| + |parts[1]| > 0 then
      Some(DigitsValue(parts[0]) as real + Fraction(parts[1]))
    else None
  }

  /**
   * `str::parse::<f64>` on decimal text: an optional sign, then digits with at most one
   * decimal point. The empty string and everything else are refused with Rust's messages.
   */
  function ParseF64(t: string): Result<real, string>
  {
    if t == [] then Err(EmptyFloat)
    else
      var body := if t[0] == '+' || t[0] == '-' then t[1..] else t;
      match UnsignedDecimal(body)
      case None => Err(InvalidFloat)
      case Some(v) => Ok(if t[0] == '-' then -v else v)
  }

  /** The parser fails only with Rust's two messages, and with the first exactly on empty text. */
  lemma ParseF64Errors(t: string)
    ensures ParseF64(t).Err? ==> ParseF64(t).error == EmptyFloat || ParseF64(t).error == InvalidFloat
    ensures ParseF64(t) == Err(EmptyFloat) <==> t == []
  {
  }

  /** Text that does not start with a sign is read by its unsigned reading. */
  lemma {:induction false} ParseUnsigned(t: string, v: real)
    requires t != [] && t[0] != '+' && t[0] != '-' && UnsignedDecimal(t) == Some(v)
    ensures ParseF64(t) == Ok(v)
  {
  }

  /** A string of one or more digits without a point or a sign is read as its own value. */
  lemma {:induction false} ParseDigits(t: string)
    requires |t| > 0 && AllDigits(t)
    ensures ParseF64(t) == Ok(DigitsValue(t) as real)
  {
    assert Join([t], '.') == t;
    JoinSplit([t], '.');
    assert IsDigit(t[0]);
    ParseUnsigned(t, DigitsValue(t) as real);
  }

  /** Digits, a point and digits are read as the whole part plus the fraction. */
  lemma {:induction false} ParseDecimal(a: string, b: string)
    requires |a| > 0 && AllDigits(a) && AllDigits(b)
    ensures ParseF64(a + "." + b) == Ok(DigitsValue(a) as real + Fraction(b))
  {
    NoSeparatorInDigits(a);
    NoSeparatorInDigits(b);
    SplitTwo(a + "." + b, a, b, '.');
    var p := [a, b];
    assert p[0] == a && p[1] == b;
    assert PointedDecimal(p) == Some(DigitsValue(a) as real + Fraction(b));
    assert IsDigit(a[0]);
    var t := a + "." + b;
    assert t[0] == a[0];
    ParseUnsigned(t, DigitsValue(a) as real + Fraction(b));
  }

  /** A leading minus negates what the rest of the text reads as. */
  lemma {:induction false} ParseNegated(t: string)
    requires |t| > 0 && t[0] != '+' && t[0] != '-'
    requires ParseF64(t).Ok?
    ensures ParseF64("-" + t) == Ok(-ParseF64(t).value)
  {
    assert ("-" + t)[1..] == t;
  }

  /** Digits, a point and digits whose parts have the given values read as their sum. */
  lemma {:induction false} ParseDecimalAs(a: string, b: string, whole: real, frac: real)
    requires |a| > 0 && AllDigits(a) && AllDigits(b)
    requires DigitsValue(a) as real == whole && Fraction(b) == frac
    ensures ParseF64(a + "." + b) == Ok(whole + frac)
  {
    ParseDecimal(a, b);
  }
}
