/**
 * Conversions between durations and `HH:MM:SS[.nnnnnnnnn]` text (src/time_funcs.rs):
 * the two pretty-printers behind the `Hhmmss` trait and `time_to_dec`, which reads a
 * NYSE source time back as a number of seconds. Seconds are exact reals here; the
 * f64 rounding of the source is not modelled.
 */
module TimeFuncs {
  import opened Outcomes
  import opened Text
  import opened Float

  const BILLION: int := 1_000_000_000

  /** Whole seconds and the nanoseconds left over, as the trait's `sns` returns them. */
  datatype Sns = Sns(s: int, ns: int)

  function Abs(d: int): nat
  {
    if d < 0 then -d else d
  }

  /** Rust's `/` on integers, which truncates toward zero. */
  function TruncDiv(a: int, b: int): int
    requires b > 0
  {
    if a >= 0 then a / b else -((-a) / b)
  }

  /**
   * `sns` of a `chrono::Duration` or a `time::Duration` of `d` nanoseconds: the whole
   * seconds are truncated toward zero, so the leftover nanoseconds carry the sign of `d`.
   */
  function SignedSns(d: int): (r: Sns)
    ensures r.s * BILLION + r.ns == d
    ensures -BILLION < r.ns < BILLION
    ensures d >= 0 ==> r.s >= 0 && r.ns >= 0
    ensures d < 0 ==> r.s <= 0 && r.ns <= 0
  {
    var s := TruncDiv(d, BILLION);
    Sns(s, d - s * BILLION)
  }

  /** `sns` of a `std::time::Duration`: its seconds and its sub-second nanoseconds. */
  function StdSns(secs: nat, nanos: nat): Sns
    requires nanos < BILLION
  {
    Sns(secs, nanos)
  }

  datatype Clock = Clock(h: nat, m: nat, sec: nat)

  /** Hours, minutes and seconds of a non-negative number of seconds. */
  function ToClock(s: nat): (c: Clock)
    ensures c.m < 60 && c.sec < 60
    ensures c.h * 3600 + c.m * 60 + c.sec == s
  {
    var h := s / 3600;
    var rest := s % 3600;
    Clock(h, rest / 60, rest % 60)
  }

  /** `{:02}:{:02}:{:02}` of a clock. */
  function ClockText(c: Clock): string
  {
    ZeroPad(c.h, 2) + ":" + ZeroPad(c.m, 2) + ":" + ZeroPad(c.sec, 2)
  }

  /** `s2hhmmss`: a minus sign for negative input, then the clock of the magnitude. */
  function S2Hhmmss(s: int): string
  {
    if s < 0 then "-" + ClockText(ToClock(-s)) else ClockText(ToClock(s))
  }

  /**
   * `sms2hhmmsnn` as written: the sign is decided by the seconds alone, and when they
   * are negative both the seconds and the nanoseconds are negated before printing.
   */
  function Sms2Hhmmsnn(s: int, ns: int): string
  {
    if s < 0 then "-" + ClockText(ToClock(-s)) + "." + ZeroPad(-ns, 9)
    else ClockText(ToClock(s)) + "." + ZeroPad(ns, 9)
  }

  /** The trait's default `hhmmss`. */
  function Hhmmss(d: Sns): string
  {
    S2Hhmmss(d.s)
  }

  /** The trait's default `hhmmssnn`. */
  function HhmmssNn(d: Sns): string
  {
    Sms2Hhmmsnn(d.s, d.ns)
  }

  /**
   * `sms2hhmmsnn` with the sign taken from the whole duration: a duration between -1
   * and 0 seconds has no whole seconds but negative nanoseconds, and is negative too.
   */
  function SignedHhmmssnn(s: int, ns: int): string
  {
    if s < 0 || (s == 0 && ns < 0) then "-" + ClockText(ToClock(-s)) + "." + ZeroPad(-ns, 9)
    else ClockText(ToClock(s)) + "." + ZeroPad(ns, 9)
  }

  const FormatError: string := "Incorrect format. Expected HH:MM:SS.nnnnnnnnn"
  /**
   * `time_to_dec`: exactly three colon-separated fields, each parsed as a number, and the
   * seconds they make; the first parse failure is the error.
   */
  function TimeToDec(time: string): Result<real, string>
  {
    var parts := Split(time, ':');
    if |parts| != 3 then Err(FormatError)
    else
      var hours := ParseF64(parts[0]);
      var minutes := ParseF64(parts[1]);
      var seconds := ParseF64(parts[2]);
      if hours.Err? then Err(hours.error)
      else if minutes.Err? then Err(minutes.error)
      else if seconds.Err? then Err(seconds.error)
      else Ok(hours.value * 3600.0 + minutes.value * 60.0 + seconds.value)
  }

  /**
   * `time_to_dec` fails with the format message exactly when the text does not have
   * three colon-separated fields, and otherwise succeeds exactly when all three read
   * as numbers, giving hours times 3600 plus minutes times 60 plus seconds.
   */
  lemma TimeToDecFields(time: string)
    ensures TimeToDec(time) == Err(FormatError) <==> |Split(time, ':')| != 3
    ensures |Split(time, ':')| == 3 ==>
      var parts := Split(time, ':');
      (TimeToDec(time).Ok? <==> ParseF64(parts[0]).Ok? && ParseF64(parts[1]).Ok? && ParseF64(parts[2]).Ok?) &&
      (TimeToDec(time).Ok? ==>
        TimeToDec(time).value == ParseF64(parts[0]).value * 3600.0 + ParseF64(parts[1]).value * 60.0
                                 + ParseF64(parts[2]).value)
  {
    var parts := Split(time, ':');
    if |parts| == 3 {
      ParseF64Errors(parts[0]);
      ParseF64Errors(parts[1]);
      ParseF64Errors(parts[2]);
    }
  }

  /** Three fields that each read as a number make a time of that many hours, minutes and seconds. */
  lemma {:induction false} TimeFromFields(time: string, x: string, y: string, z: string, h: real, m: real, sec: real, total: real)
    requires Split(time, ':') == [x, y, z]
    requires ParseF64(x) == Ok(h) && ParseF64(y) == Ok(m) && ParseF64(z) == Ok(sec)
    requires total == h * 3600.0 + m * 60.0 + sec
    ensures TimeToDec(time) == Ok(total)
  {
  }

  /** Nine digits of nanoseconds read as a fraction are the nanoseconds over a billion. */
  lemma {:induction false} NanosFraction(ns: nat)
    requires ns < BILLION
    ensures AllDigits(ZeroPad(ns, 9)) && Fraction(ZeroPad(ns, 9)) == ns as real / BILLION as real
  {
    PaddedValue(ns, 9);
    assert Pow10(9) == BILLION;
    PaddedWidth(ns, 9);
  }

  /** A zero-padded clock field reads as its own value. */
  lemma {:induction false} ParsePadded(n: nat)
    ensures ParseF64(ZeroPad(n, 2)) == Ok(n as real) && ':' !in ZeroPad(n, 2)
  {
    PaddedValue(n, 2);
    ParseDigits(ZeroPad(n, 2));
    NoSeparatorInDigits(ZeroPad(n, 2));
  }

  /** The seconds field of the nanosecond clock text reads as the seconds and the fraction. */
  lemma {:induction false} ParseSecondsField(sec: nat, ns: nat)
    requires ns < BILLION
    ensures ParseF64(ZeroPad(sec, 2) + "." + ZeroPad(ns, 9)) == Ok(sec as real + ns as real / BILLION as real)
    ensures ':' !in ZeroPad(sec, 2) + "." + ZeroPad(ns, 9)
  {
    PaddedValue(sec, 2);
    NanosFraction(ns);
    NoColonInDecimal(ZeroPad(sec, 2), ZeroPad(ns, 9));
    ParseDecimalAs(ZeroPad(sec, 2), ZeroPad(ns, 9), sec as real, ns as real / BILLION as real);
  }

  /**
   * The clock text of a non-negative number of seconds: minutes and seconds are two
   * digits each and the hours at least two, all zero-padded decimal.
   */
  lemma {:induction false} ClockTextFields(s: nat)
    ensures var c := ToClock(s);
      var hh, mm, ss := ZeroPad(c.h, 2), ZeroPad(c.m, 2), ZeroPad(c.sec, 2);
      S2Hhmmss(s) == hh + ":" + mm + ":" + ss &&
      |hh| >= 2 && |mm| == 2 && |ss| == 2 &&
      AllDigits(hh) && AllDigits(mm) && AllDigits(ss) &&
      DigitsValue(hh) == c.h && DigitsValue(mm) == c.m && DigitsValue(ss) == c.sec
  {
    var c := ToClock(s);
    PaddedValue(c.h, 2);
    PaddedValue(c.m, 2);
    PaddedValue(c.sec, 2);
    assert Pow10(2) == 100;
    PaddedWidth(c.m, 2);
    PaddedWidth(c.sec, 2);
  }

  /** A negative number of seconds prints as a minus sign followed by the text of its magnitude. */
  lemma {:induction false} S2HhmmssNegative(s: int)
    requires s < 0
    ensures S2Hhmmss(s) == "-" + S2Hhmmss(-s)
  {
  }

  /** When the seconds are negative, both parts are negated and a minus sign goes in front. */
  lemma {:induction false} Sms2HhmmsnnNegative(s: int, ns: int)
    requires s < 0
    ensures Sms2Hhmmsnn(s, ns) == "-" + Sms2Hhmmsnn(-s, -ns)
  {
  }

  /**
   * For a non-negative duration the long form is the short form, a point and the
   * nanoseconds as exactly nine digits: the short form ignores the nanoseconds.
   */
  lemma {:induction false} HhmmssNnExtends(s: nat, ns: nat)
    requires ns < BILLION
    ensures HhmmssNn(Sns(s, ns)) == Hhmmss(Sns(s, ns)) + "." + ZeroPad(ns, 9)
    ensures |ZeroPad(ns, 9)| == 9 && AllDigits(ZeroPad(ns, 9)) && DigitsValue(ZeroPad(ns, 9)) == ns
    ensures forall ns' :: Hhmmss(Sns(s, ns')) == Hhmmss(Sns(s, ns))
  {
    PaddedValue(ns, 9);
    assert Pow10(9) == BILLION;
    PaddedWidth(ns, 9);
  }

  /** `time_to_dec` reads the clock text of a non-negative number of seconds back exactly. */
  lemma {:induction false} S2HhmmssRoundTrip(s: nat)
    ensures TimeToDec(S2Hhmmss(s)) == Ok(s as real)
  {
    var c := ToClock(s);
    ParsePadded(c.h);
    ParsePadded(c.m);
    ParsePadded(c.sec);
    ReadClock(S2Hhmmss(s), ZeroPad(c.h, 2), ZeroPad(c.m, 2), ZeroPad(c.sec, 2), c.h as real, c.m as real, c.sec as real);
  }

  /**
   * `time_to_dec` reads the nanosecond clock text of a non-negative duration back
   * exactly: the nine-digit fraction is the nanoseconds over a billion.
   */
  lemma {:induction false} Sms2HhmmsnnRoundTrip(s: nat, ns: nat)
    requires ns < BILLION
    ensures TimeToDec(Sms2Hhmmsnn(s, ns)) == Ok(s as real + ns as real / BILLION as real)
  {
    var c := ToClock(s);
    ParsePadded(c.h);
    ParsePadded(c.m);
    ParseSecondsField(c.sec, ns);
    ReadClock(Sms2Hhmmsnn(s, ns), ZeroPad(c.h, 2), ZeroPad(c.m, 2), ZeroPad(c.sec, 2) + "." + ZeroPad(ns, 9),
              c.h as real, c.m as real, c.sec as real + ns as real / BILLION as real);
  }

  /** Read back, the seconds-only text of a standard duration is its whole seconds and the long form adds the nanoseconds. */
  lemma {:induction false} StdDurationRoundTrip(secs: nat, nanos: nat)
    requires nanos < BILLION
    ensures TimeToDec(Hhmmss(StdSns(secs, nanos))) == Ok(secs as real)
    ensures TimeToDec(HhmmssNn(StdSns(secs, nanos))) == Ok(secs as real + nanos as real / BILLION as real)
  {
    S2HhmmssRoundTrip(secs);
    Sms2HhmmsnnRoundTrip(secs, nanos);
  }

  /** The corrected printer differs from the one as written only when the seconds are 0 and the nanoseconds negative. */
  lemma {:induction false} Sms2HhmmsnnAgrees(s: int, ns: int)
    ensures Sms2Hhmmsnn(s, ns) == SignedHhmmssnn(s, ns) <==> !(s == 0 && ns < 0)
  {
    if s == 0 && ns < 0 {
      var t := Sms2Hhmmsnn(s, ns);
      var u := SignedHhmmssnn(s, ns);
      assert u[0] == '-';
      PaddedValue(0, 2);
      assert t[0] == ZeroPad(0, 2)[0];
      assert IsDigit(t[0]);
    }
  }

  /** Three colon-separated fields that each read as a number make a time of that many hours, minutes and seconds. */
  lemma {:induction false} ReadClock(t: string, x: string, y: string, z: string, h: real, m: real, sec: real)
    requires t == x + ":" + y + ":" + z
    requires ':' !in x && ':' !in y && ':' !in z
    requires ParseF64(x) == Ok(h) && ParseF64(y) == Ok(m) && ParseF64(z) == Ok(sec)
    ensures TimeToDec(t) == Ok(h * 3600.0 + m * 60.0 + sec)
  {
    SplitThree(t, x, y, z, ':');
    TimeFromFields(t, x, y, z, h, m, sec, h * 3600.0 + m * 60.0 + sec);
  }

  /** Of three colon-separated fields, the first that does not read as a number gives the error. */
  lemma {:induction false} ReadClockError(t: string, x: string, y: string, z: string, e: string)
    requires t == x + ":" + y + ":" + z
    requires ':' !in x && ':' !in y && ':' !in z
    requires ParseF64(x).Ok?
    requires ParseF64(y) == Err(e) || (ParseF64(y).Ok? && ParseF64(z) == Err(e))
    ensures TimeToDec(t) == Err(e)
  {
    SplitThree(t, x, y, z, ':');
  }

  /** Two colon-separated fields are refused with the format message. */
  lemma {:induction false} ReadTwoFields(t: string, x: string, y: string)
    requires t == x + ":" + y
    requires ':' !in x && ':' !in y
    ensures TimeToDec(t) == Err(FormatError)
  {
    SplitTwo(t, x, y, ':');
  }

  /** Two-digit clock fields of the examples. */
  lemma PadExamples()
    ensures ZeroPad(0, 2) == "00" && ZeroPad(1, 2) == "01"
  {
    assert NatToDigits(0) == "0" && NatToDigits(1) == "1";
    assert ZeroPad(0, 1) == "0" && ZeroPad(1, 1) == "1";
  }

  /** The clock text of midnight and of 3661 seconds. */
  lemma ClockExamples()
    ensures ToClock(0) == Clock(0, 0, 0) && ClockText(Clock(0, 0, 0)) == "00:00:00"
    ensures ToClock(3661) == Clock(1, 1, 1) && ClockText(Clock(1, 1, 1)) == "01:01:01"
  {
    PadExamples();
  }

  /** The decimal text of 500000000. */
  lemma FiveHundredMillion()
    ensures NatToDigits(500000000) == "500000000"
  {
    assert NatToDigits(5) == "5";
    assert NatToDigits(50) == "50";
    assert NatToDigits(500) == "500";
    assert NatToDigits(5000) == "5000";
    assert NatToDigits(50000) == "50000";
    assert NatToDigits(500000) == "500000";
    assert NatToDigits(5000000) == "5000000";
    assert NatToDigits(50000000) == "50000000";
  }

  /** Minus half a second of nanoseconds, printed nine wide. */
  lemma MinusHalfSecondNanos()
    ensures ZeroPad(-500000000, 9) == "-500000000"
  {
    FiveHundredMillion();
    assert ZeroPad(500000000, 8) == "500000000";
  }

  /** The text the trait prints, as written, for minus half a second. */
  lemma HalfSecondBeforeText()
    ensures HhmmssNn(Sns(0, -500000000)) == "00:00:00.-500000000"
  {
    ClockExamples();
    MinusHalfSecondNanos();
    assert "00:00:00" + "." + "-500000000" == "00:00:00.-500000000";
  }

  /** The fraction with a minus sign in it is not a number. */
  lemma SignedFractionRefused()
    ensures ':' !in "00" + "." + "-500000000"
    ensures ParseF64("00" + "." + "-500000000") == Err(InvalidFloat)
  {
    var last := "00" + "." + "-500000000";
    assert last == "00.-500000000";
    SplitTwo(last, "00", "-500000000", '.');
    assert !IsDigit("-500000000"[0]);
    assert UnsignedDecimal(last) == None;
  }

  /** `time_to_dec` refuses a fraction with a minus sign in it. */
  lemma {:induction false} HalfSecondBeforeRefused()
    ensures TimeToDec("00:00:00.-500000000") == Err(InvalidFloat)
  {
    var last := "00" + "." + "-500000000";
    assert "00:00:00.-500000000" == "00" + ":" + "00" + ":" + last;
    SignedFractionRefused();
    ParseDigits("00");
    ReadClockError("00:00:00.-500000000", "00", "00", last, InvalidFloat);
  }

  /**
   * As written, a chrono or time duration of minus half a second prints its minus sign
   * inside the fraction, and `time_to_dec` refuses the result.
   */
  lemma {:induction false} HhmmssNnHalfSecondBefore()
    ensures SignedSns(-500000000) == Sns(0, -500000000)
    ensures HhmmssNn(SignedSns(-500000000)) == "00:00:00.-500000000"
    ensures TimeToDec(HhmmssNn(SignedSns(-500000000))) == Err(InvalidFloat)
  {
    assert SignedSns(-500000000) == Sns(0, -500000000);
    HalfSecondBeforeText();
    HalfSecondBeforeRefused();
  }

  /** A chrono or time duration and its negation split into negated seconds and nanoseconds. */
  lemma {:induction false} SignedSnsNegated(d: int)
    ensures SignedSns(-d) == Sns(-SignedSns(d).s, -SignedSns(d).ns)
  {
  }

  /** Whole seconds plus nanoseconds over a billion is the duration in seconds. */
  lemma {:induction false} SecondsOf(d: int)
    ensures SignedSns(d).s as real + SignedSns(d).ns as real / BILLION as real == d as real / BILLION as real
  {
    var r := SignedSns(d);
    var b := BILLION as real;
    assert d as real == r.s as real * b + r.ns as real;
    assert (r.s as real * b + r.ns as real) / b == r.s as real + r.ns as real / b;
  }

  /** Negating both parts of a positive duration adds only a minus sign in front. */
  lemma {:induction false} SignedHhmmssnnNegated(s: int, ns: int)
    requires s >= 0 && ns >= 0 && (s > 0 || ns > 0)
    ensures SignedHhmmssnn(-s, -ns) == "-" + SignedHhmmssnn(s, ns)
  {
  }

  /**
   * With the sign taken from the whole duration, a negative chrono or time duration
   * prints as a minus sign followed by the text of its magnitude.
   */
  lemma {:induction false} SignedHhmmssnnNegative(d: nat)
    requires d > 0
    ensures var neg := SignedSns(-(d as int));
      SignedHhmmssnn(neg.s, neg.ns) == "-" + SignedHhmmssnn(SignedSns(d).s, SignedSns(d).ns)
  {
    var a := SignedSns(d);
    SignedSnsNegated(d);
    SignedHhmmssnnNegated(a.s, a.ns);
  }

  /**
   * With the sign taken from the whole duration, the text of a non-negative chrono or
   * time duration has a nine-digit fraction and `time_to_dec` reads it back exactly.
   */
  lemma {:induction false} SignedHhmmssnnReadBack(d: nat)
    ensures TimeToDec(SignedHhmmssnn(SignedSns(d).s, SignedSns(d).ns)) == Ok(d as real / BILLION as real)
  {
    var a := SignedSns(d);
    Sms2HhmmsnnAgrees(a.s, a.ns);
    Sms2HhmmsnnRoundTrip(a.s, a.ns);
    SecondsOf(d);
  }

  /** The decimal text of 534100100. */
  lemma NanosOfExample()
    ensures NatToDigits(534100100) == "534100100"
  {
    assert NatToDigits(53) == "53";
    assert NatToDigits(534) == "534";
    assert NatToDigits(5341) == "5341";
    assert NatToDigits(53410) == "53410";
    assert NatToDigits(534100) == "534100";
    assert NatToDigits(5341001) == "5341001";
    assert NatToDigits(53410010) == "53410010";
    assert NatToDigits(534100100) == NatToDigits(53410010) + [DigitChar(0)];
  }

  /** The trait's own example: a duration of 3661.5341001 seconds, from every duration type. */
  lemma {:induction false} HhmmssExample()
    ensures Hhmmss(StdSns(3661, 534100100)) == "01:01:01"
    ensures HhmmssNn(StdSns(3661, 534100100)) == "01:01:01" + "." + "534100100"
    ensures SignedSns(3661534100100) == StdSns(3661, 534100100)
  {
    ClockExamples();
    NanosOfExample();
    assert ZeroPad(534100100, 9) == "534100100";
  }

  /** The decimal text of 5090000. */
  lemma ExampleNanos()
    ensures NatToDigits(5090000) == "5090000"
  {
    assert NatToDigits(50) == "50";
    assert NatToDigits(509) == "509";
    assert NatToDigits(5090) == "5090";
    assert NatToDigits(50900) == "50900";
    assert NatToDigits(509000) == "509000";
  }

  /** The value of the fraction digits of `time_to_dec`'s own example. */
  lemma {:induction false} ExampleFraction()
    ensures AllDigits("00005090000") && DigitsValue("00005090000") == 5090000
  {
    ExampleNanos();
    DigitsRoundTrip(5090000);
    assert Zeros(4) == "0000";
    LeadingZeros(4, "5090000");
    assert "00005090000" == Zeros(4) + "5090000";
  }

  /** The seconds field of `time_to_dec`'s own example. */
  lemma {:induction false} ExampleSeconds()
    ensures ':' !in "01" + "." + "00005090000"
    ensures ParseF64("01" + "." + "00005090000") == Ok(1.0000509)
  {
    ExampleFraction();
    assert AllDigits("01") && DigitsValue("01") == 1;
    NoColonInDecimal("01", "00005090000");
    assert Pow10(11) == 100000000000;
    ParseDecimalAs("01", "00005090000", 1.0, 0.0000509);
  }

  /** Two-digit fields of the examples read as their values. */
  lemma FieldExamples()
    ensures ParseF64("09") == Ok(9.0) && ParseF64("30") == Ok(30.0) && ParseF64("01") == Ok(1.0)
    ensures ':' !in "09" && ':' !in "30" && ':' !in "01" && ':' !in "3x"
  {
    ParseDigits("09");
    assert DigitsValue("09") == 9;
    ParseDigits("30");
    assert DigitsValue("30") == 30;
    ParseDigits("01");
    assert DigitsValue("01") == 1;
  }

  /** `time_to_dec`'s own example, read exactly. */
  lemma {:induction false} TimeToDecExample()
    ensures TimeToDec("09:30:01.00005090000") == Ok(34201.0000509)
  {
    var last := "01" + "." + "00005090000";
    assert "09:30:01.00005090000" == "09" + ":" + "30" + ":" + last;
    FieldExamples();
    ExampleSeconds();
    ReadClock("09:30:01.00005090000", "09", "30", last, 9.0, 30.0, 1.0000509);
  }

  /** `time_to_dec` does not read a negative clock back: only the hours carry the sign. */
  lemma {:induction false} NegativeClockNotInverted()
    ensures S2Hhmmss(-3661) == "-01:01:01"
    ensures TimeToDec(S2Hhmmss(-3661)) == Ok(-3539.0)
  {
    NegativeClockText();
    NegativeClockRead();
  }

  /** The clock text of minus 3661 seconds. */
  lemma NegativeClockText()
    ensures S2Hhmmss(-3661) == "-01:01:01"
  {
    ClockExamples();
    assert "-" + "01:01:01" == "-01:01:01";
  }

  /** A minus sign in front of the hours negates the hours alone. */
  lemma {:induction false} NegativeClockRead()
    ensures TimeToDec("-01:01:01") == Ok(-3539.0)
  {
    assert "-01:01:01" == "-01" + ":" + "01" + ":" + "01";
    FieldExamples();
    ParseNegated("01");
    assert "-" + "01" == "-01";
    ReadClock("-01:01:01", "-01", "01", "01", -1.0, 1.0, 1.0);
  }

  /** A time with a field too few is refused with the format message. */
  lemma {:induction false} TimeTooFewFields()
    ensures TimeToDec("09:30") == Err(FormatError)
  {
    assert "09:30" == "09" + ":" + "30";
    FieldExamples();
    ReadTwoFields("09:30", "09", "30");
  }

  /** A time with a field that is not a number is refused as an invalid number. */
  lemma {:induction false} TimeBadField()
    ensures TimeToDec("09:3x:01") == Err(InvalidFloat)
  {
    assert "09:3x:01" == "09" + ":" + "3x" + ":" + "01";
    FieldExamples();
    assert Join(["3x"], '.') == "3x";
    JoinSplit(["3x"], '.');
    assert !IsDigit("3x"[1]);
    ReadClockError("09:3x:01", "09", "3x", "01", InvalidFloat);
  }

  /** A time with an empty field is refused as an empty number. */
  lemma {:induction false} TimeEmptyField()
    ensures TimeToDec("09::01") == Err(EmptyFloat)
  {
    assert "09::01" == "09" + ":" + "" + ":" + "01";
    FieldExamples();
    ReadClockError("09::01", "09", "", "01", EmptyFloat);
  }
}
