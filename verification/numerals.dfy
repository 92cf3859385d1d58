/** Decimal rendering of numbers and the numeric reading of layer strings. */
module Numerals {
  import opened Wrappers
  import opened Strings

  predicate IsDigit(c: char) {
    '0' <= c <= '9'
  }

  function DigitValue(c: char): nat
    requires IsDigit(c)
  {
    c as int - '0' as int
  }

  function DigitChar(d: nat): (c: char)
    requires d < 10
    ensures IsDigit(c) && DigitValue(c) == d
  {
    ('0' as int + d) as char
  }

  predicate AllDigits(s: string) {
    forall i :: 0 <= i < |s| ==> IsDigit(s[i])
  }

  /** The value of a run of decimal digits (the empty run is 0). */
  function DigitsValue(s: string): nat
    requires AllDigits(s)
  {
    if |s| == 0 then 0 else 10 * DigitsValue(s[..|s| - 1]) + DigitValue(s[|s| - 1])
  }

  /** The decimal form JavaScript gives a non-negative integer
      (`n.toString()`, and `${n}` in a template literal). */
  function NatToString(n: nat): (s: string)
    ensures |s| > 0 && AllDigits(s)
    ensures |s| > 1 ==> s[0] != '0'
  {
    if n < 10 then [DigitChar(n)] else NatToString(n / 10) + [DigitChar(n % 10)]
  }

  /** Reading back the decimal form gives the number. */
  lemma {:induction false} DigitsOfNatToString(n: nat)
    ensures DigitsValue(NatToString(n)) == n
  {
    var s := NatToString(n);
    if n >= 10 {
      DigitsOfNatToString(n / 10);
      assert s[..|s| - 1] == NatToString(n / 10);
    }
  }

  /** Distinct numbers have distinct decimal forms. */
  lemma NatToStringInjective(m: nat, n: nat)
    requires NatToString(m) == NatToString(n)
    ensures m == n
  {
    DigitsOfNatToString(m);
    DigitsOfNatToString(n);
  }

  /** 2 to the power `k`. */
  function Pow2(k: nat): (p: nat)
    ensures p >= 1
  {
    if k == 0 then 1 else 2 * Pow2(k - 1)
  }

  /** 10 to the power `k`. */
  function Pow10(k: nat): (p: nat)
    ensures p >= 1
  {
    if k == 0 then 1 else 10 * Pow10(k - 1)
  }

  lemma {:induction false} Pow2Monotone(i: nat, j: nat)
    requires i <= j
    ensures Pow2(i) <= Pow2(j)
    decreases j
  {
    if i < j {
      Pow2Monotone(i, j - 1);
    }
  }

  /** IEEE 754 binary64, the number type of JavaScript: 53 significant bits
      counting the hidden one, and binary exponents from -1022 to 1023 for
      normal numbers. */
  const Precision: nat := 53
  const MinExponent: int := -1022
  const MaxExponent: int := 1023

  /** `2^53`, the number of significands: every integer up to it is a double
      (`SignificandsArePow2`). */
  const Significands: nat := 9007199254740992

  /** The exponent of the highest power of two not above `n`. */
  function Log2(n: nat): (k: nat)
    requires n >= 1
    ensures Pow2(k) <= n < Pow2(k + 1)
  {
    if n == 1 then 0 else 1 + Log2(n / 2)
  }

  /** For `n < d`: how often `n` must be doubled to reach `d`. */
  function Shortfall(n: nat, d: nat): (j: nat)
    requires 0 < n < d
    ensures j >= 1
    decreases d - n
  {
    if d <= 2 * n then 1 else 1 + Shortfall(2 * n, d)
  }

  lemma {:induction false} ShortfallBounds(n: nat, d: nat)
    requires 0 < n < d
    ensures n * Pow2(Shortfall(n, d) - 1) < d <= n * Pow2(Shortfall(n, d))
    decreases d - n
  {
    if d > 2 * n {
      var j := Shortfall(2 * n, d);
      ShortfallBounds(2 * n, d);
      assert Shortfall(n, d) == j + 1;
      Doubling(n, Pow2(j - 1));
      Doubling(n, Pow2(j));
    }
  }

  lemma Doubling(n: nat, p: nat)
    ensures n * (2 * p) == (2 * n) * p
  {
  }

  lemma MulLe(a: nat, b: nat, c: nat)
    requires a <= b
    ensures a * c <= b * c
  {
  }

  lemma DivBounds(n: nat, d: nat)
    requires 0 < d
    ensures (n / d) * d <= n < (n / d + 1) * d
  {
  }

  /** The binary exponent of the positive fraction `n / d`: the `k` with
      `2^k <= n / d < 2^(k+1)`, proved in `ExponentBounds`; 0 for `n = 0`. */
  function Exponent(n: nat, d: nat): int
    requires d > 0
  {
    if n == 0 then 0
    else if n >= d then
      DivBounds(n, d);
      Log2(n / d)
    else
      -(Shortfall(n, d) as int)
  }

  lemma ExponentBounds(n: nat, d: nat)
    requires n > 0 && d > 0
    ensures Exponent(n, d) >= 0 ==> Pow2(Exponent(n, d)) * d <= n < Pow2(Exponent(n, d) + 1) * d
    ensures Exponent(n, d) < 0 ==> d <= n * Pow2(-Exponent(n, d)) < 2 * d
  {
    if n >= d {
      WholeExponent(n, d);
    } else {
      FractionExponent(n, d);
    }
  }

  lemma WholeExponent(n: nat, d: nat)
    requires 0 < d <= n
    ensures n / d >= 1
    ensures Pow2(Log2(n / d)) * d <= n < Pow2(Log2(n / d) + 1) * d
  {
    var q := n / d;
    DivBounds(n, d);
    assert q >= 1;
    var k := Log2(q);
    var a, b := Pow2(k), Pow2(k + 1);
    MulLe(a, q, d);
    MulLe(q + 1, b, d);
  }

  lemma FractionExponent(n: nat, d: nat)
    requires 0 < n < d
    ensures d <= n * Pow2(Shortfall(n, d)) < 2 * d
  {
    var j := Shortfall(n, d);
    ShortfallBounds(n, d);
    assert Pow2(j) == 2 * Pow2(j - 1);
    assert n * Pow2(j) == 2 * (n * Pow2(j - 1));
  }

  /** `a / b` rounded to the nearest integer, a tie going to the even one:
      the rounding IEEE 754 uses for a decimal literal (`RoundingIsNearest`). */
  function RoundHalfEven(a: nat, b: nat): nat
    requires b > 0
  {
    var q := a / b;
    var r := a % b;
    if 2 * r < b || (2 * r == b && q % 2 == 0) then q else q + 1
  }

  lemma RoundingIsNearest(a: nat, b: nat)
    requires b > 0
    ensures var m := RoundHalfEven(a, b);
      2 * (a - b * m) <= b && 2 * (b * m - a) <= b
      && (2 * (a - b * m) == b || 2 * (b * m - a) == b ==> m % 2 == 0)
  {
    var q := a / b;
    var r := a % b;
    assert a == b * q + r;
    assert b * (q + 1) == b * q + b;
  }

  /** The double a decimal literal of value `n / d` reads as, when that
      double is an integer: `None` when it has a fraction or overflows to
      Infinity. The significand keeps `Precision` bits, fewer below the
      normal range; `m * 2^e` is the nearest such number to `n / d`. */
  function RoundedInteger(n: nat, d: nat): Option<nat>
    requires d > 0
  {
    if n == 0 then Some(0)
    else
      var k := Exponent(n, d);
      var e := (if k < MinExponent then MinExponent else k) - (Precision - 1);
      if e >= 0 then
        var m := RoundHalfEven(n, d * Pow2(e));
        if k > MaxExponent || (k == MaxExponent && m == Significands) then None
        else Some(m * Pow2(e))
      else
        var m := RoundHalfEven(n * Pow2(-e), d);
        if m % Pow2(-e) == 0 then Some(m / Pow2(-e)) else None
  }

  /** An unsigned decimal literal `digits[.digits]` as its digits read
      together and the number of fraction digits, so that its value is
      `n / 10^f`; `None` for anything else. */
  function UnsignedDecimal(t: string): (r: Option<(nat, nat)>)
    ensures r.Some? && IndexOf(t, '.') == -1 ==> |t| > 0 && AllDigits(t) && r.value == (DigitsValue(t), 0)
  {
    var dot := IndexOf(t, '.');
    if dot == -1 then
      if |t| > 0 && AllDigits(t) then Some((DigitsValue(t), 0)) else None
    else
      var whole := t[..dot];
      var fraction := t[dot + 1..];
      if (|whole| > 0 || |fraction| > 0) && AllDigits(whole) && AllDigits(fraction)
      then
        assert AllDigits(whole + fraction) by {
          forall i | 0 <= i < |whole + fraction|
            ensures IsDigit((whole + fraction)[i])
          {
            if i >= |whole| {
              assert (whole + fraction)[i] == fraction[i - |whole|];
            }
          }
        }
        Some((DigitsValue(whole + fraction), |fraction|))
      else None
  }

  /** The integer an unsigned decimal literal reads as, if it reads as one. */
  function UnsignedInteger(t: string): Option<nat> {
    match UnsignedDecimal(t)
    case Some((n, f)) => RoundedInteger(n, Pow10(f))
    case None => None
  }

  /** What JavaScript's unary plus (`+layer`) yields for a layer string, as far
      as integer comparisons can tell: `Some(n)` when the double it reads is
      the integer `n`, `None` when it is `NaN`, Infinity or has a fraction.
      The string is trimmed first and the empty string reads as 0. A decimal
      literal is rounded to the nearest double first, so digits below double
      precision are lost. Only decimal literals are read: the exponent,
      hexadecimal, binary and octal forms and `Infinity` give `None` here. */
  function NumericValue(s: string): (r: Option<int>)
  {
    var t := Trim(s);
    if |t| == 0 then Some(0)
    else if t[0] == '-' then
      match UnsignedInteger(t[1..])
      case Some(n) => Some(-(n as int))
      case None => None
    else if t[0] == '+' then
      match UnsignedInteger(t[1..])
      case Some(n) => Some(n)
      case None => None
    else
      match UnsignedInteger(t)
      case Some(n) => Some(n)
      case None => None
  }

  /** Division is determined by the quotient and remainder it leaves. */
  lemma DivModUnique(a: nat, b: nat, q: nat, r: nat)
    requires b > 0 && a == q * b + r && r < b
    ensures a / b == q && a % b == r
  {
    DivBounds(a, b);
    if a / b < q {
      MulLe(a / b + 1, q, b);
    } else if a / b > q {
      MulLe(q + 1, a / b, b);
    }
  }

  /** A multiple of `b` divides exactly. */
  lemma RoundExact(q: nat, b: nat)
    requires b > 0
    ensures RoundHalfEven(q * b, b) == q
  {
    DivModUnique(q * b, b, q, 0);
  }

  /** Every integer up to `2^53` is a double, so a literal of such an
      integer value reads as exactly that integer, whatever the form of its
      fraction `n / d`. */
  lemma {:induction false} ExactIntegerRounds(x: nat, d: nat)
    requires d > 0 && 1 <= x <= Significands
    ensures RoundedInteger(x * d, d) == Some(x)
  {
    ExactExponent(x, d);
    var k := Log2(x);
    if k == Precision {
      TopIntegerRounds(x, d);
    } else if k == Precision - 1 {
      MidIntegerRounds(x, d);
    } else {
      LowIntegerRounds(x, d, k);
    }
  }

  lemma ExactExponent(x: nat, d: nat)
    requires d > 0 && 1 <= x <= Significands
    ensures Exponent(x * d, d) == Log2(x) <= Precision
    ensures Log2(x) == Precision ==> x == Significands
  {
    MulDivCancel(x, d);
    ExponentOfMultiple(x, d);
    Log2Bound(x);
  }

  lemma MulDivCancel(x: nat, d: nat)
    requires d > 0 && 1 <= x
    ensures x * d >= d && (x * d) / d == x
  {
    MulLe(1, x, d);
    DivModUnique(x * d, d, x, 0);
  }

  lemma ExponentOfMultiple(x: nat, d: nat)
    requires d > 0 && 1 <= x && x * d >= d && (x * d) / d == x
    ensures Exponent(x * d, d) == Log2(x)
  {
  }

  lemma Log2Bound(x: nat)
    requires 1 <= x <= Significands
    ensures Log2(x) <= Precision
    ensures Log2(x) == Precision ==> x == Significands
  {
    SignificandsArePow2();
    var k := Log2(x);
    if k > Precision {
      Pow2Monotone(Precision + 1, k);
    }
  }

  lemma MidIntegerRounds(x: nat, d: nat)
    requires d > 0 && x > 0 && Exponent(x * d, d) == Precision - 1
    ensures RoundedInteger(x * d, d) == Some(x)
  {
    MulLe(1, x, d);
    assert Pow2(0) == 1;
    assert RoundHalfEven(x * d, d * Pow2(0)) == x by {
      RoundExact(x, d);
    }
  }

  lemma TopIntegerRounds(x: nat, d: nat)
    requires d > 0 && x == Significands && Exponent(x * d, d) == Precision
    ensures RoundedInteger(x * d, d) == Some(x)
  {
    MulLe(1, x, d);
    var h := Significands / 2;
    assert Pow2(1) == 2;
    Doubling(h, d);
    RoundExact(h, d * 2);
    assert RoundHalfEven(x * d, d * Pow2(1)) == h;
  }

  lemma LowIntegerRounds(x: nat, d: nat, k: nat)
    requires d > 0 && x > 0 && k < Precision - 1 && Exponent(x * d, d) == k
    ensures RoundedInteger(x * d, d) == Some(x)
  {
    MulLe(1, x, d);
    var p := Pow2(Precision - 1 - k);
    MulLe(0, x, p);
    MulComm3(x, d, p);
    RoundExact(x * p, d);
    DivModUnique(x * p, p, x, 0);
    assert RoundHalfEven(x * d * p, d) == x * p;
  }

  lemma MulComm3(a: nat, b: nat, c: nat)
    ensures (a * b) * c == (a * c) * b == a * (b * c) == a * (c * b)
  {
  }

  /** A fraction just above 1, nearer to it than half the gap `2^-52` to the
      next double, reads as 1. */
  lemma JustAboveOneRounds(d: nat, t: nat)
    requires d > 0 && t * Significands < d
    ensures RoundedInteger(d + t, d) == Some(1)
  {
    var n := d + t;
    var p := Pow2(Precision - 1);
    SignificandsArePow2();
    MulLe(1, p, t);
    DivModUnique(n, d, 1, t);
    assert Exponent(n, d) == 0;
    assert n * p == p * d + t * p;
    DivModUnique(n * p, d, p, t * p);
    DivModUnique(p, p, 1, 0);
  }

  /** The numeric reading of a decimal form is the number it renders, for
      every number up to `2^53`, below which every integer is a double. */
  lemma NumericValueOfNatToString(n: nat)
    requires n <= Significands
    ensures NumericValue(NatToString(n)) == Some(n)
  {
    var s := NatToString(n);
    DigitIsNoWhitespace(s[0]);
    DigitIsNoWhitespace(s[|s| - 1]);
    TrimPadded(s, 0, |s|);
    assert s[0..|s|] == s;
    DigitsOfNatToString(n);
    DigitsRead(s, n);
    UnsignedRead(s, s);
  }

  lemma DigitIsNoWhitespace(c: char)
    requires IsDigit(c)
    ensures !IsJsWhitespace(c)
  {
  }

  /** Unary plus on a string that trims to an unsigned literal reads that
      literal. */
  lemma UnsignedRead(s: string, t: string)
    requires Trim(s) == t && |t| > 0 && IsDigit(t[0])
    ensures NumericValue(s) == UnsignedInteger(t)
  {
  }

  /** A run of digits reads as its value, up to `2^53`. */
  lemma DigitsRead(t: string, n: nat)
    requires |t| > 0 && AllDigits(t) && DigitsValue(t) == n <= Significands
    ensures UnsignedInteger(t) == Some(n)
  {
    assert forall i :: 0 <= i < |t| ==> t[i] != '.';
    assert UnsignedDecimal(t) == Some((n, 0));
    if n > 0 {
      ExactIntegerRounds(n, 1);
    }
  }

  /** A literal with a fraction reads as `RoundedInteger` of its digits over
      the fraction's power of ten. */
  lemma FractionRead(t: string, dot: nat, n: nat, f: nat)
    requires dot < |t| && t[dot] == '.' && (forall i :: 0 <= i < dot ==> t[i] != '.')
    requires AllDigits(t[..dot]) && AllDigits(t[dot + 1..]) && |t| > 1
    requires DigitsValue(t[..dot] + t[dot + 1..]) == n && f == |t| - dot - 1
    ensures UnsignedInteger(t) == RoundedInteger(n, Pow10(f))
  {
    var r := IndexOf(t, '.');
    assert t[dot] in t;
    assert r >= dot;
    assert r <= dot;
  }

  /** A leading zero reads as the same number, although the string differs
      from the number's decimal form. */
  lemma LeadingZeroReadsAsNumber()
    ensures NumericValue("01") == Some(1) && "01" != NatToString(1)
  {
    assert Trim("01") == "01";
    assert DigitsValue("01") == 1 by { assert "01"[..1] == "0"; }
    DigitsRead("01", 1);
    UnsignedRead("01", "01");
  }

  /** Surrounding blanks are ignored. */
  lemma BlanksAreIgnored()
    ensures NumericValue(" 84 ") == Some(84)
  {
    assert Lead(" 84 ") == 1;
    assert " 84 "[1..] == "84 ";
    assert TrimEnd("84 ") == "84" by { assert "84 "[..2] == "84"; }
    assert DigitsValue("84") == 84 by { assert "84"[..1] == "8"; }
    DigitsRead("84", 84);
    UnsignedRead(" 84 ", "84");
  }

  /** A zero fraction still reads as an integer. */
  lemma ZeroFractionReadsAsInteger()
    ensures NumericValue("1.0") == Some(1)
  {
    var s := "1.0";
    assert Trim(s) == s;
    assert s[..1] == "1" && s[2..] == "0";
    assert DigitsValue("1") == 1;
    DigitsValueAppend("1", "0");
    FractionRead(s, 1, 10, 1);
    ExactIntegerRounds(1, 10);
    UnsignedRead(s, s);
  }

  /** A non-zero fraction above double precision does not read as an integer. */
  lemma FractionIsNoInteger()
    ensures NumericValue("1.5") == None
  {
    var s := "1.5";
    assert Trim(s) == s;
    assert s[..1] == "1" && s[2..] == "5";
    assert DigitsValue("1") == 1 && DigitsValue("5") == 5;
    DigitsValueAppend("1", "5");
    FractionRead(s, 1, 15, 1);
    OneAndAHalfIsNoInteger();
    UnsignedRead(s, s);
  }

  lemma OneAndAHalfIsNoInteger()
    ensures RoundedInteger(15, 10) == None
  {
    var h := Pow2(Precision - 2);
    var p := Pow2(Precision - 1);
    assert p == 2 * h;
    DivModUnique(15, 10, 1, 5);
    assert Exponent(15, 10) == 0;
    assert 15 * p == (3 * h) * 10;
    RoundExact(3 * h, 10);
    DivModUnique(3 * h, p, 1, h);
  }

  /** The digits of a literal read left to right: appending `t` shifts the
      value of `s` by `|t|` places. */
  lemma {:induction false} DigitsValueAppend(s: string, t: string)
    requires AllDigits(s) && AllDigits(t)
    ensures AllDigits(s + t)
    ensures DigitsValue(s + t) == DigitsValue(s) * Pow10(|t|) + DigitsValue(t)
    decreases |t|
  {
    assert forall i :: 0 <= i < |s + t| ==> (s + t)[i] == if i < |s| then s[i] else t[i - |s|];
    if |t| == 0 {
      assert s + t == s;
    } else {
      var u := t[..|t| - 1];
      assert (s + t)[..|s + t| - 1] == s + u;
      DigitsValueAppend(s, u);
      Tenfold(DigitsValue(s), Pow10(|u|));
    }
  }

  lemma Tenfold(v: nat, p: nat)
    ensures v * (10 * p) == 10 * (v * p)
  {
  }

  /** A run of zeros is worth nothing. */
  lemma {:induction false} ZerosValue(z: string)
    requires forall i :: 0 <= i < |z| ==> z[i] == '0'
    ensures AllDigits(z) && DigitsValue(z) == 0
  {
    if |z| > 0 {
      ZerosValue(z[..|z| - 1]);
    }
  }

  /** `k` zeros. */
  function Zeros(k: nat): (z: string)
    ensures |z| == k && forall i :: 0 <= i < k ==> z[i] == '0'
  {
    seq(k, _ => '0')
  }

  /** A decimal fraction below double precision is lost: with fifteen or more
      zeros after the point, "1.0…01" lies nearer to 1 than to the next
      double `1 + 2^-52`, so JavaScript reads it as 1. */
  lemma FractionBelowPrecisionIsLost(s: string, z: nat)
    requires z >= 15 && s == "1." + Zeros(z) + "1"
    ensures NumericValue(s) == Some(1)
  {
    TinyFractionReads(s, z);
    TrimPadded(s, 0, |s|);
    assert s[0..|s|] == s;
    UnsignedRead(s, s);
  }

  /** The shortest such literal: "1.0000000000000001" reads as 1. */
  lemma DecimalBelowPrecisionReadsAsInteger(s: string)
    requires s == "1.0000000000000001"
    ensures NumericValue(s) == Some(1)
  {
    ShortestTinyFraction(s);
    FractionBelowPrecisionIsLost(s, 15);
  }

  lemma ShortestTinyFraction(s: string)
    requires s == "1.0000000000000001"
    ensures s == "1." + Zeros(15) + "1"
  {
    assert Zeros(15) == "000000000000000";
  }

  lemma TinyFractionReads(s: string, z: nat)
    requires z >= 15 && s == "1." + Zeros(z) + "1"
    ensures UnsignedInteger(s) == Some(1)
  {
    TinyFractionParses(s, z);
    JustAboveOneIsOne(z);
  }

  lemma TinyFractionParses(s: string, z: nat)
    requires s == "1." + Zeros(z) + "1"
    ensures UnsignedInteger(s) == RoundedInteger(Pow10(z + 1) + 1, Pow10(z + 1))
  {
    var fraction := s[2..];
    assert s[..1] == "1";
    assert fraction == Zeros(z) + "1";
    ZerosValue(Zeros(z));
    assert DigitsValue("1") == 1;
    DigitsValueAppend(Zeros(z), "1");
    DigitsValueAppend("1", fraction);
    FractionRead(s, 1, Pow10(z + 1) + 1, z + 1);
  }

  lemma {:induction false} Pow10Monotone(i: nat, j: nat)
    requires i <= j
    ensures Pow10(i) <= Pow10(j)
    decreases j
  {
    if i < j {
      Pow10Monotone(i, j - 1);
    }
  }

  lemma JustAboveOneIsOne(z: nat)
    requires z >= 15
    ensures RoundedInteger(Pow10(z + 1) + 1, Pow10(z + 1)) == Some(1)
  {
    Pow10Monotone(16, z + 1);
    TenToTheSixteen();
    JustAboveOneRounds(Pow10(z + 1), 1);
  }

  lemma {:induction false} Pow2Add(i: nat, j: nat)
    ensures Pow2(i + j) == Pow2(i) * Pow2(j)
    decreases j
  {
    if j > 0 {
      Pow2Add(i, j - 1);
    }
  }

  lemma {:induction false} Pow10Add(i: nat, j: nat)
    ensures Pow10(i + j) == Pow10(i) * Pow10(j)
    decreases j
  {
    if j > 0 {
      Pow10Add(i, j - 1);
    }
  }

  lemma SignificandsArePow2()
    ensures Pow2(Precision) == Significands
    ensures 2 * Pow2(Precision - 1) == Significands
  {
    assert Pow2(13) == 8192;
    Pow2Add(13, 13);
    Pow2Add(26, 26);
    Pow2Add(52, 1);
  }

  lemma TenToTheSixteen()
    ensures Pow10(16) == 10000000000000000
  {
    assert Pow10(8) == 100000000;
    Pow10Add(8, 8);
  }
}
