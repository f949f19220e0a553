/** Decimal digits, Rust's zero-padded integer formatting and `str::split` on one character. */
module Text {

  predicate IsDigit(c: char) {
    '0' <= c <= '9'
  }

  predicate AllDigits(s: string) {
    forall i :: 0 <= i < |s| ==> IsDigit(s[i])
  }

  function Pow10(k: nat): (p: nat)
    ensures p >= 1
  {
    if k == 0 then 1 else 10 * Pow10(k - 1)
  }

  function DigitChar(d: nat): (c: char)
    requires d < 10
    ensures IsDigit(c)
  {
    ('0' as int + d) as char
  }

  function DigitValue(c: char): (d: nat)
    requires IsDigit(c)
    ensures d < 10
  {
    c as int - '0' as int
  }

  /** Value of a string of decimal digits (the empty string counts as 0). */
  function DigitsValue(s: string): nat
    requires AllDigits(s)
  {
    if s == [] then 0 else 10 * DigitsValue(s[..|s| - 1]) + DigitValue(s[|s| - 1])
  }

  /** Decimal rendering of a natural number without leading zeros, as Rust's `{}` prints it. */
  function NatToDigits(n: nat): (r: string)
    ensures 1 <= |r| && AllDigits(r)
  {
    if n < 10 then [DigitChar(n)] else NatToDigits(n / 10) + [DigitChar(n % 10)]
  }

  lemma {:induction false} DigitsRoundTrip(n: nat)
    ensures DigitsValue(NatToDigits(n)) == n
  {
    if n >= 10 {
      DigitsRoundTrip(n / 10);
      var r := NatToDigits(n);
      assert r[..|r| - 1] == NatToDigits(n / 10);
    }
  }

  /** A number below 10^k needs at most k digits. */
  lemma {:induction false} DigitsLength(n: nat, k: nat)
    requires 1 <= k && n < Pow10(k)
    ensures |NatToDigits(n)| <= k
  {
    if n >= 10 {
      DigitsLength(n / 10, k - 1);
    }
  }

  function Zeros(k: nat): (z: string)
    ensures |z| == k && AllDigits(z)
  {
    if k == 0 then [] else Zeros(k - 1) + "0"
  }

  lemma {:induction false} LeadingZeros(k: nat, s: string)
    requires AllDigits(s)
    ensures AllDigits(Zeros(k) + s) && DigitsValue(Zeros(k) + s) == DigitsValue(s)
  {
    if s == [] {
      ZerosValue(k);
      assert Zeros(k) + s == Zeros(k);
    } else {
      LeadingZeros(k, s[..|s| - 1]);
      assert (Zeros(k) + s)[..|Zeros(k) + s| - 1] == Zeros(k) + s[..|s| - 1];
    }
  }

  lemma {:induction false} ZerosValue(k: nat)
    ensures DigitsValue(Zeros(k)) == 0
  {
    if k > 0 {
      ZerosValue(k - 1);
      assert Zeros(k)[..k - 1] == Zeros(k - 1);
    }
  }

  /**
   * Rust's `{:0w}` rendering of an integer: the sign, if any, then zeros up to a
   * total width of w, then the digits of the magnitude. A number too wide for w is
   * printed in full.
   */
  function ZeroPad(n: int, width: nat): string
    decreases if n < 0 then 1 else 0, width
  {
    if n < 0 then "-" + ZeroPad(-n, if width > 0 then width - 1 else 0)
    else if |NatToDigits(n)| >= width then NatToDigits(n)
    else "0" + ZeroPad(n, width - 1)
  }

  /** A non-negative number is padded to at least the width, with digits only, keeping its value. */
  lemma {:induction false} PaddedValue(n: nat, width: nat)
    ensures AllDigits(ZeroPad(n, width)) && |ZeroPad(n, width)| >= width
    ensures DigitsValue(ZeroPad(n, width)) == n
  {
    if |NatToDigits(n)| >= width {
      DigitsRoundTrip(n);
    } else {
      var rest := ZeroPad(n, width - 1);
      PaddedValue(n, width - 1);
      assert Zeros(1) == "0";
      LeadingZeros(1, rest);
    }
  }

  /** A non-negative number is printed in as many characters as the width or its digits, whichever is more. */
  lemma {:induction false} PaddedLength(n: nat, width: nat)
    ensures |ZeroPad(n, width)| == if |NatToDigits(n)| >= width then |NatToDigits(n)| else width
  {
    if |NatToDigits(n)| < width {
      PaddedLength(n, width - 1);
    }
  }

  /** A non-negative number below 10^w is printed in exactly w digits. */
  lemma {:induction false} PaddedWidth(n: nat, width: nat)
    requires 1 <= width && n < Pow10(width)
    ensures |ZeroPad(n, width)| == width
  {
    DigitsLength(n, width);
    PaddedLength(n, width);
  }

  /** The pieces of `s` between occurrences of `sep`, as Rust's `s.split(sep)` yields them. */
  function Split(s: string, sep: char): (parts: seq<string>)
    ensures |parts| >= 1
    ensures forall i :: 0 <= i < |parts| ==> sep !in parts[i]
  {
    if s == [] then [""]
    else
      var rest := Split(s[1..], sep);
      if s[0] == sep then [""] + rest else [[s[0]] + rest[0]] + rest[1..]
  }

  /** The pieces joined back with `sep` between them. */
  function Join(parts: seq<string>, sep: char): string
    requires |parts| >= 1
  {
    if |parts| == 1 then parts[0] else parts[0] + [sep] + Join(parts[1..], sep)
  }

  /** Splitting loses nothing: joining the pieces gives back the input. */
  lemma {:induction false} SplitJoin(s: string, sep: char)
    ensures Join(Split(s, sep), sep) == s
  {
    if s != [] {
      SplitJoin(s[1..], sep);
      var rest := Split(s[1..], sep);
      if s[0] != sep {
        var parts := Split(s, sep);
        assert parts[1..] == rest[1..];
        if |rest| == 1 {
          assert Join(parts, sep) == [s[0]] + rest[0];
        } else {
          assert rest == [rest[0]] + rest[1..];
          assert Join(rest, sep) == rest[0] + [sep] + Join(rest[1..], sep);
        }
      }
    }
  }

  /** A character other than `sep` in front of a string joins the string's first piece. */
  lemma {:induction false} SplitCons(c: char, s: string, sep: char)
    requires c != sep
    ensures Split([c] + s, sep) == [[c] + Split(s, sep)[0]] + Split(s, sep)[1..]
  {
    assert ([c] + s)[0] == c && ([c] + s)[1..] == s;
  }

  /** Splitting a piece free of `sep` in front of the rest extends the rest's first piece. */
  lemma {:induction false} SplitPrefix(a: string, b: string, sep: char)
    requires sep !in a
    ensures Split(a + b, sep) == [a + Split(b, sep)[0]] + Split(b, sep)[1..]
  {
    var parts := Split(b, sep);
    if a != [] {
      SplitPrefix(a[1..], b, sep);
      assert a + b == [a[0]] + (a[1..] + b);
      SplitCons(a[0], a[1..] + b, sep);
      assert [a[0]] + (a[1..] + parts[0]) == a + parts[0];
    } else {
      assert a + b == b;
      assert a + parts[0] == parts[0];
      assert parts == [parts[0]] + parts[1..];
    }
  }

  /** Joining pieces free of `sep` and splitting again gives back the pieces. */
  lemma {:induction false} JoinSplit(parts: seq<string>, sep: char)
    requires |parts| >= 1
    requires forall i :: 0 <= i < |parts| ==> sep !in parts[i]
    ensures Split(Join(parts, sep), sep) == parts
  {
    if |parts| == 1 {
      SplitPrefix(parts[0], "", sep);
      assert parts[0] + "" == parts[0];
    } else {
      var tail := Join(parts[1..], sep);
      JoinSplit(parts[1..], sep);
      assert ([sep] + tail)[1..] == tail;
      assert Split([sep] + tail, sep) == [""] + Split(tail, sep);
      SplitPrefix(parts[0], [sep] + tail, sep);
      assert parts[0] + [sep] + tail == parts[0] + ([sep] + tail);
      assert parts[0] + "" == parts[0];
      assert parts == [parts[0]] + parts[1..];
    }
  }

  /** Digits contain neither a decimal point nor a colon. */
  lemma {:induction false} NoSeparatorInDigits(t: string)
    requires AllDigits(t)
    ensures '.' !in t && ':' !in t
  {
  }

  /** Digits, a point and digits contain no colon. */
  lemma {:induction false} NoColonInDecimal(a: string, b: string)
    requires AllDigits(a) && AllDigits(b)
    ensures ':' !in a + "." + b
  {
    var t := a + "." + b;
    forall j | 0 <= j < |t|
      ensures t[j] != ':'
    {
      if j < |a| {
        assert t[j] == a[j];
      } else if j > |a| {
        assert t[j] == b[j - |a| - 1];
      }
    }
  }

  /** Two pieces free of the separator, joined by it, split back into the same two. */
  lemma {:induction false} SplitTwo(t: string, x: string, y: string, sep: char)
    requires t == x + [sep] + y
    requires sep !in x && sep !in y
    ensures Split(t, sep) == [x, y]
  {
    var parts := [x, y];
    assert Join(parts, sep) == x + [sep] + y by {
      assert parts[1..] == [y];
    }
    JoinSplit(parts, sep);
  }

  /** Three pieces free of the separator, joined by it, split back into the same three. */
  lemma {:induction false} SplitThree(t: string, x: string, y: string, z: string, sep: char)
    requires t == x + [sep] + y + [sep] + z
    requires sep !in x && sep !in y && sep !in z
    ensures Split(t, sep) == [x, y, z]
  {
    var parts := [x, y, z];
    assert Join([y, z], sep) == y + [sep] + z by {
      assert [y, z][1..] == [z];
    }
    assert Join(parts, sep) == x + [sep] + y + [sep] + z by {
      assert parts[1..] == [y, z];
    }
    JoinSplit(parts, sep);
  }
}
