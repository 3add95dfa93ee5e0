/** What JavaScript's `==` does when one side is a string and the other a
    number: the string is read by ToNumber (section 7.1.3.1 of ECMAScript
    2015, "ToNumber Applied to the String Type") and the two doubles are
    compared. A double is rounded as in section 4.3.1 of IEEE 754-2008
    (round to nearest, ties to even). */
module JsNumber {
  import opened Wrappers
  import opened PyText

  /** Every finite double is a whole multiple of the smallest subnormal,
      2^-1074; `Finite(units)` is the double `units * 2^-1074`. The two
      zeros are one value here, as they are to `==`. */
  datatype Double = NaN | PosInf | NegInf | Finite(units: int)

  /** `a == b` on numbers: NaN equals nothing, not even itself. */
  predicate NumberEquals(a: Double, b: Double) {
    !a.NaN? && a == b
  }

  /** `n * 2^k`. */
  function Shl(n: nat, k: nat): (r: nat)
    ensures r >= n
  {
    if k == 0 then n else 2 * Shl(n, k - 1)
  }

  /** `n / 2^k`, rounded down. */
  function Shr(n: nat, k: nat): nat {
    if k == 0 then n else Shr(n / 2, k - 1)
  }

  /** `n % 2^k`: the `k` low bits of `n`. */
  function Low(n: nat, k: nat): nat {
    if k == 0 then 0 else n % 2 + 2 * Low(n / 2, k - 1)
  }

  /** `10^k`. */
  function Pow10(k: nat): (r: nat)
    ensures r >= 1
  {
    if k == 0 then 1 else 10 * Pow10(k - 1)
  }

  /** The number of binary digits of `n`; none for 0. */
  function BitLength(n: nat): nat
    decreases n
  {
    if n == 0 then 0 else 1 + BitLength(n / 2)
  }

  /** 2^-1074, the smallest subnormal, is one unit. */
  const UnitScale: nat := 1074
  /** Bits in a significand. */
  const Precision: nat := 53
  /** 2^1024, where doubles overflow, is 2^2098 units. */
  const OverflowBits: nat := 2099
  /** 2^53: from here on not every whole number is a double. */
  const TwoTo53: nat := Shl(1, Precision)

  /** How many low bits of a whole number of units rounding drops: none
      for a subnormal, all but the top 53 otherwise. */
  function DroppedBits(whole: nat): nat {
    var l := BitLength(whole);
    if l <= Precision then 0 else l - Precision
  }

  /** `q0` or `q0 + 1`, whichever is nearer, `twice` being twice the part
      dropped and `unit` what one more step is worth; a tie goes to the
      even one. */
  function RoundHalf(q0: nat, twice: nat, unit: nat): (q: nat)
    ensures q == q0 || q == q0 + 1
    ensures twice < unit ==> q == q0
    ensures twice > unit ==> q == q0 + 1
  {
    if twice > unit || (twice == unit && q0 % 2 == 1) then q0 + 1 else q0
  }

  /** `a / d` and `a % d` on naturals. */
  function Quotient(a: nat, d: nat): nat
    requires d >= 1
  {
    a / d
  }

  function Remainder(a: nat, d: nat): nat
    requires d >= 1
  {
    a % d
  }

  /** The whole number of units nearest to the non-negative fraction
      `num / den * 2^1074` among the multiples of the unit at its
      magnitude, ties to the even multiple. That value is cut to its top
      53 bits (all its whole units when it is below 2^53 units), and what
      is cut decides between rounding down and up; a remainder of the
      division counts as more than nothing. */
  function Nearest(num: nat, den: nat): nat
    requires den >= 1
  {
    var a := Shl(num, UnitScale);
    var whole, rest := Quotient(a, den), Remainder(a, den);
    var s := DroppedBits(whole);
    var q := if s == 0 then RoundHalf(whole, 2 * rest, den)
             else RoundHalf(Shr(whole, s), 2 * Low(whole, s) + (if rest == 0 then 0 else 1), Shl(1, s));
    Shl(q, s)
  }

  /** The double nearest to the non-negative fraction `num / den`, or
      +Infinity when the rounded value reaches 2^1024, that is 2^2098
      units (see BitLengthAtLeast). */
  function Round(num: nat, den: nat): (r: Double)
    requires den >= 1
    ensures r.PosInf? || (r.Finite? && r.units >= 0)
    ensures r.PosInf? <==> BitLength(Nearest(num, den)) >= OverflowBits
    ensures r.Finite? ==> r.units == Nearest(num, den)
  {
    var units := Nearest(num, den);
    if BitLength(units) >= OverflowBits then PosInf else Finite(units)
  }

  /** Unary minus on a double. */
  function Negate(d: Double): (r: Double)
    ensures r.NaN? <==> d.NaN?
    ensures d.Finite? ==> r == Finite(-d.units)
  {
    match d
    case NaN => NaN
    case PosInf => NegInf
    case NegInf => PosInf
    case Finite(u) => Finite(-u)
  }

  /** The double a JSON integer literal decodes to. */
  function NumberOfInt(n: int): (r: Double)
    ensures !r.NaN?
  {
    if n >= 0 then Round(n, 1) else Negate(Round(-n, 1))
  }

  /** StrWhiteSpaceChar: the white space and line terminators ToNumber
      trims (the Zs category, tab, vertical tab, form feed, no-break
      space, byte order mark, and the four line terminators). */
  const JsSpace: set<char> := {
    '\t', '\n', '\U{000B}', '\U{000C}', '\r', ' ', '\U{00A0}', '\U{1680}',
    '\U{2000}', '\U{2001}', '\U{2002}', '\U{2003}', '\U{2004}', '\U{2005}',
    '\U{2006}', '\U{2007}', '\U{2008}', '\U{2009}', '\U{200A}',
    '\U{2028}', '\U{2029}', '\U{202F}', '\U{205F}', '\U{3000}', '\U{FEFF}'}

  /** The value of a digit of `0-9a-fA-F`; 16 for any other character. */
  function JsDigit(c: char): nat {
    if '0' <= c <= '9' then c as int - '0' as int
    else if 'a' <= c <= 'f' then c as int - 'a' as int + 10
    else if 'A' <= c <= 'F' then c as int - 'A' as int + 10
    else 16
  }

  predicate IsRadix(s: string, base: nat) {
    forall i :: 0 <= i < |s| ==> JsDigit(s[i]) < base
  }

  function RadixValue(s: string, base: nat): nat
    requires IsRadix(s, base)
    decreases |s|
  {
    if s == [] then 0 else RadixValue(s[..|s| - 1], base) * base + JsDigit(s[|s| - 1])
  }

  /** The digits after `0x`, `0o` or `0b`: at least one, all of the base. */
  function RadixLiteral(digits: string, base: nat): (r: Double)
    ensures !r.NegInf?
  {
    if digits != [] && IsRadix(digits, base) then Round(RadixValue(digits, base), 1) else NaN
  }

  /** The index of the first exponent mark `e` or `E`, or `|u|`. */
  function ExpAt(u: string): (i: nat)
    ensures i <= |u|
    ensures forall k :: 0 <= k < i ==> u[k] != 'e' && u[k] != 'E'
    ensures i < |u| ==> u[i] == 'e' || u[i] == 'E'
  {
    if u == [] then 0 else if u[0] == 'e' || u[0] == 'E' then 0 else 1 + ExpAt(u[1..])
  }

  /** The index of the first `.`, or `|u|`. */
  function DotAt(u: string): (i: nat)
    ensures i <= |u|
    ensures forall k :: 0 <= k < i ==> u[k] != '.'
    ensures i < |u| ==> u[i] == '.'
  {
    if u == [] then 0 else if u[0] == '.' then 0 else 1 + DotAt(u[1..])
  }

  /** SignedInteger: an optional sign and at least one decimal digit. */
  predicate IsSignedInteger(t: string) {
    var d := if t != [] && (t[0] == '+' || t[0] == '-') then t[1..] else t;
    d != [] && IsDecimal(d)
  }

  function SignedValue(t: string): int
    requires IsSignedInteger(t)
  {
    if t[0] == '-' then -(DecimalValue(t[1..]) as int)
    else if t[0] == '+' then DecimalValue(t[1..])
    else DecimalValue(t)
  }

  /** The double nearest to `m * 10^k`. */
  function Scaled(m: nat, k: int): (r: Double)
    ensures !r.NaN? && !r.NegInf?
  {
    if k >= 0 then Round(m * Pow10(k), 1) else Round(m, Pow10(-k))
  }

  /** StrUnsignedDecimalLiteral: `Infinity`, or a mantissa followed by an
      optional exponent after the first `e` or `E`. */
  function Unsigned(u: string): (r: Double)
    ensures !r.NegInf?
  {
    if u == "Infinity" then PosInf
    else
      var e := ExpAt(u);
      DecimalLiteral(u[..e], if e < |u| then Some(u[e + 1..]) else None)
  }

  /** Digits with an optional `.` and fraction, with at least one digit in
      all, and an exponent that is a SignedInteger when there is one;
      anything else is NaN. */
  function DecimalLiteral(mant: string, exponent: Option<string>): (r: Double)
    ensures !r.NegInf?
  {
    var d := DotAt(mant);
    var fraction := if d < |mant| then mant[d + 1..] else "";
    var digits := mant[..d] + fraction;
    if digits == [] || !IsDecimal(digits) then NaN
    else if exponent.Some? && !IsSignedInteger(exponent.value) then NaN
    else
      var exp := if exponent.Some? then SignedValue(exponent.value) else 0;
      Scaled(DecimalValue(digits), exp - |fraction|)
  }

  /** ToNumber of a string: white space around it is ignored. */
  function StringToNumber(s: string): Double {
    Literal(Strip(s, JsSpace))
  }

  /** StringNumericLiteral once trimmed: an empty text is 0, `0x`, `0o`
      and `0b` introduce hexadecimal, octal and binary digits (no sign
      allowed), and a decimal literal may carry a sign. */
  function Literal(t: string): Double {
    if t == [] then Finite(0)
    else if |t| >= 2 && t[0] == '0' && (t[1] == 'x' || t[1] == 'X') then RadixLiteral(t[2..], 16)
    else if |t| >= 2 && t[0] == '0' && (t[1] == 'o' || t[1] == 'O') then RadixLiteral(t[2..], 8)
    else if |t| >= 2 && t[0] == '0' && (t[1] == 'b' || t[1] == 'B') then RadixLiteral(t[2..], 2)
    else if t[0] == '+' then Unsigned(t[1..])
    else if t[0] == '-' then Negate(Unsigned(t[1..]))
    else Unsigned(t)
  }

  lemma {:induction false} ShlAdd(n: nat, i: nat, j: nat)
    ensures Shl(Shl(n, i), j) == Shl(n, i + j)
    decreases j
  {
    if j > 0 {
      ShlAdd(n, i, j - 1);
    }
  }

  lemma {:induction false} ShrShl(n: nat, i: nat, j: nat)
    ensures Shr(Shl(n, i + j), j) == Shl(n, i)
    ensures Low(Shl(n, i + j), j) == 0
    decreases j
  {
    if j > 0 {
      assert Shl(n, i + j) == 2 * Shl(n, i + (j - 1));
      ShrShl(n, i, j - 1);
    }
  }

  lemma {:induction false} ShlInjective(m: nat, n: nat, k: nat)
    requires m != n
    ensures Shl(m, k) != Shl(n, k)
    decreases k
  {
    if k > 0 {
      ShlInjective(m, n, k - 1);
    }
  }

  /** Doubling a positive number adds one bit. */
  lemma {:induction false} BitLengthShift(n: nat, k: nat)
    requires n > 0
    ensures BitLength(Shl(n, k)) == BitLength(n) + k
    decreases k
  {
    if k > 0 {
      BitLengthShift(n, k - 1);
      var m := Shl(n, k - 1);
      assert (2 * m) / 2 == m;
    }
  }

  /** A positive number below 2^53 has from one to 53 bits. */
  lemma {:induction false} BitLengthBound(n: nat, k: nat)
    requires n < Shl(1, k)
    ensures BitLength(n) <= k
    decreases k
  {
    if k > 0 && n > 0 {
      BitLengthBound(n / 2, k - 1);
    }
  }

  /** Every whole number below 2^53 is a double: rounding leaves it as it
      is. */
  lemma RoundExact(n: nat)
    requires n < TwoTo53
    ensures Round(n, 1) == Finite(Shl(n, UnitScale))
  {
    var a := Shl(n, UnitScale);
    assert Quotient(a, 1) == a && Remainder(a, 1) == 0;
    if n == 0 {
      ZeroShl(UnitScale);
    } else {
      BitLengthBound(n, Precision);
      BitLengthShift(n, UnitScale);
      var s := BitLength(n) + UnitScale - Precision;
      var i := UnitScale - s;
      ShrShl(n, i, s);
      ShlAdd(n, i, s);
    }
  }

  // ---------------------------------------------------------------------
  // Rounding to nearest, ties to even

  /** The distance between two numbers. */
  function Dist(x: int, y: int): nat {
    if x >= y then x - y else y - x
  }

  /** A number has more than `k` bits exactly when it reaches 2^k. */
  lemma {:induction false} BitLengthAtLeast(n: nat, k: nat)
    ensures BitLength(n) > k <==> n >= Shl(1, k)
    decreases k
  {
    if k > 0 && n > 0 {
      BitLengthAtLeast(n / 2, k - 1);
    }
  }

  /** Rounding a fraction `num / den` (scaled to units) picks the double
      nearest to it. With `s` the bits dropped at the magnitude of the
      scaled value (none below 2^53 units, where the spacing of doubles is
      one unit; otherwise the value lies in [2^(52+s), 2^(53+s)) and the
      spacing is 2^s), the result is a multiple of 2^s, lies within half
      of 2^s of the exact value, and on a tie is the even multiple. */
  lemma NearestEven(num: nat, den: nat)
    requires den >= 1
    ensures var a := Shl(num, UnitScale);
      var whole := Quotient(a, den);
      var s := DroppedBits(whole);
      var u := Nearest(num, den);
      && (s == 0 <==> whole < TwoTo53)
      && (s > 0 ==> Shl(1, Precision + s - 1) <= whole < Shl(1, Precision + s))
      && Low(u, s) == 0
      && 2 * Dist(u * den, a) <= Shl(1, s) * den
      && (2 * Dist(u * den, a) == Shl(1, s) * den ==> Shr(u, s) % 2 == 0)
  {
    var a := Shl(num, UnitScale);
    var whole, rest := Quotient(a, den), Remainder(a, den);
    Magnitude(whole);
    DivParts(a, den);
    var s := DroppedBits(whole);
    var q := if s == 0 then RoundHalf(whole, 2 * rest, den)
             else RoundHalf(Shr(whole, s), 2 * Low(whole, s) + (if rest == 0 then 0 else 1), Shl(1, s));
    assert Nearest(num, den) == Shl(q, s);
    RoundedNear(a, den, whole, rest, s, q);
  }

  /** The arithmetic of `NearestEven`, over the parts of the division:
      `a == whole * den + rest`, and `q` the rounded top bits of `whole`. */
  lemma RoundedNear(a: nat, den: nat, whole: nat, rest: nat, s: nat, q: nat)
    requires den >= 1 && a == whole * den + rest && rest < den
    requires s == 0 ==> q == RoundHalf(whole, 2 * rest, den)
    requires s > 0 ==> q == RoundHalf(Shr(whole, s), 2 * Low(whole, s) + (if rest == 0 then 0 else 1), Shl(1, s))
    ensures var u := Shl(q, s);
      && Low(u, s) == 0
      && 2 * Dist(u * den, a) <= Shl(1, s) * den
      && (2 * Dist(u * den, a) == Shl(1, s) * den ==> Shr(u, s) % 2 == 0)
  {
    var u := Shl(q, s);
    ShrShl(q, 0, s);
    ShlMul(q, s);
    if s == 0 {
      assert u == q * 1 && a == (whole * 1 + 0) * den + rest;
      Rounded(a, den, whole, 1, 0, rest, true, q, u);
    } else {
      ShrLow(whole, s);
      ShlEven(s);
      Rounded(a, den, Shr(whole, s), Shl(1, s), Low(whole, s), rest, false, q, u);
    }
  }

  /** The same over plain numbers: the exact scaled value `a` is
      `q0 * unit + low` steps of `den` plus `rest`, and `u` is the rounded
      count of steps `q` times `unit`. */
  lemma Rounded(a: nat, den: nat, q0: nat, unit: nat, low: nat, rest: nat, whole: bool, q: nat, u: nat)
    requires den >= 1 && rest < den && low < unit
    requires whole ==> low == 0 && unit == 1
    requires !whole ==> unit % 2 == 0
    requires a == (q0 * unit + low) * den + rest
    requires q == RoundHalf(q0, if whole then 2 * rest else 2 * low + (if rest == 0 then 0 else 1),
                            if whole then den else unit)
    requires u == q * unit
    ensures 2 * Dist(u * den, a) <= unit * den
    ensures 2 * Dist(u * den, a) == unit * den ==> q % 2 == 0
  {
    var twice := if whole then 2 * rest else 2 * low + (if rest == 0 then 0 else 1);
    var step := if whole then den else unit;
    var x: int := unit * den;
    var y: int := low * den + rest;
    Below(low, unit, rest, den);
    Decision(low, unit, rest, den, whole);
    ScaledParts(q0, unit, low, den, rest, q0 * unit + low, a);
    ScaledRounded(q, q0, unit, den, u);
    Closest(q0 * x, x, y, a, u * den, q0, twice, step);
  }

  /** The bits `DroppedBits` drops place a number in its binade. */
  lemma Magnitude(whole: nat)
    ensures var s := DroppedBits(whole);
      && (s == 0 <==> whole < TwoTo53)
      && (s > 0 ==> Shl(1, Precision + s - 1) <= whole < Shl(1, Precision + s))
  {
    var s := DroppedBits(whole);
    BitLengthAtLeast(whole, Precision);
    if s > 0 {
      BitLengthAtLeast(whole, Precision + s - 1);
      BitLengthAtLeast(whole, Precision + s);
    }
  }

  lemma DivParts(a: nat, den: nat)
    requires den >= 1
    ensures a == Quotient(a, den) * den + Remainder(a, den) && Remainder(a, den) < den
  {
  }

  /** The cut part is less than a whole step. */
  lemma Below(low: nat, unit: nat, rest: nat, den: nat)
    requires low < unit && rest < den
    ensures low * den + rest < unit * den
  {
    MulMono(low + 1, unit, den);
    assert (low + 1) * den == low * den + den;
  }

  /** Given how `RoundHalf` decided, the value it gives is within half a
      step of the exact one, and even on a tie. */
  lemma Closest(base: int, x: int, y: int, a: int, ud: int, q0: nat, twice: nat, step: nat)
    requires a == base + y && 0 <= y < x
    requires RoundHalf(q0, twice, step) == q0 ==> ud == base
    requires RoundHalf(q0, twice, step) == q0 + 1 ==> ud == base + x
    requires twice < step <==> 2 * y < x
    requires twice == step <==> 2 * y == x
    ensures 2 * Dist(ud, a) <= x
    ensures 2 * Dist(ud, a) == x ==> RoundHalf(q0, twice, step) % 2 == 0
  {
  }

  /** The choice of `RoundHalf` between the two neighbours compares twice
      the cut part with a step, as comparing the exact remainders does. */
  lemma Decision(low: nat, unit: nat, rest: nat, den: nat, whole: bool)
    requires den >= 1 && rest < den && low < unit
    requires whole ==> low == 0 && unit == 1
    requires !whole ==> unit % 2 == 0
    ensures var twice := if whole then 2 * rest else 2 * low + (if rest == 0 then 0 else 1);
      var step := if whole then den else unit;
      && (twice < step <==> 2 * (low * den + rest) < unit * den)
      && (twice == step <==> 2 * (low * den + rest) == unit * den)
  {
    if whole {
      assert low * den == 0 && unit * den == den;
    } else if rest == 0 {
      ExactCut(low, unit, den);
    } else if 2 * low + 1 < unit {
      RoundsDown(low, unit, rest, den);
    } else {
      RoundsUp(low, unit, rest, den);
    }
  }

  lemma ExactCut(low: nat, unit: nat, den: nat)
    requires den >= 1
    ensures 2 * low < unit <==> 2 * (low * den) < unit * den
    ensures 2 * low == unit <==> 2 * (low * den) == unit * den
  {
    MulSign(unit - 2 * low, den);
    assert (unit - 2 * low) * den == unit * den - 2 * (low * den);
  }

  lemma RoundsDown(low: nat, unit: nat, rest: nat, den: nat)
    requires rest < den && unit % 2 == 0 && 2 * low + 1 < unit
    ensures 2 * (low * den + rest) < unit * den
  {
    MulMono(2 * low + 2, unit, den);
    assert (2 * low + 2) * den == 2 * (low * den) + 2 * den;
  }

  lemma RoundsUp(low: nat, unit: nat, rest: nat, den: nat)
    requires 0 < rest && unit % 2 == 0 && 2 * low + 1 >= unit
    ensures 2 * (low * den + rest) > unit * den
  {
    MulMono(unit, 2 * low, den);
    assert (2 * low) * den == 2 * (low * den);
  }

  /** `a` is the multiple `q0 * unit` of `den` plus the cut part. */
  lemma ScaledParts(q0: nat, unit: nat, low: nat, den: nat, rest: nat, whole: nat, a: nat)
    requires whole == q0 * unit + low && a == whole * den + rest
    ensures a == q0 * (unit * den) + (low * den + rest)
  {
  }

  /** Rounding up adds one `unit * den` to the scaled value. */
  lemma ScaledRounded(q: nat, q0: nat, unit: nat, den: nat, u: nat)
    requires u == q * unit && (q == q0 || q == q0 + 1)
    ensures q == q0 ==> u * den == q0 * (unit * den)
    ensures q == q0 + 1 ==> u * den == q0 * (unit * den) + unit * den
  {
    if q == q0 + 1 {
      assert u * den == (q0 * unit + unit) * den;
    }
  }

  /** `n` is its high part times 2^k plus its low `k` bits. */
  lemma {:induction false} ShrLow(n: nat, k: nat)
    ensures n == Shr(n, k) * Shl(1, k) + Low(n, k) && Low(n, k) < Shl(1, k)
    decreases k
  {
    if k > 0 {
      ShrLow(n / 2, k - 1);
      assert Shr(n, k) * Shl(1, k) == 2 * (Shr(n / 2, k - 1) * Shl(1, k - 1));
    }
  }

  /** Shifting left multiplies by a power of two. */
  lemma {:induction false} ShlMul(n: nat, k: nat)
    ensures Shl(n, k) == n * Shl(1, k)
    decreases k
  {
    if k > 0 {
      ShlMul(n, k - 1);
    }
  }

  /** A positive power of two is even. */
  lemma ShlEven(k: nat)
    requires k > 0
    ensures Shl(1, k) % 2 == 0
  {
    assert Shl(1, k) == 2 * Shl(1, k - 1);
  }

  lemma MulSign(x: int, d: nat)
    requires d >= 1
    ensures x * d > 0 <==> x > 0
    ensures x * d == 0 <==> x == 0
  {
  }

  lemma MulMono(x: nat, y: nat, d: nat)
    requires x <= y
    ensures x * d <= y * d
  {
  }

  lemma {:induction false} ZeroShl(k: nat)
    ensures Shl(0, k) == 0
  {
    if k > 0 {
      ZeroShl(k - 1);
    }
  }

  /** Two whole numbers below 2^53 read as equal doubles exactly when they
      are equal. */
  lemma SmallIntegersCompareExactly(m: nat, n: int)
    requires m < TwoTo53 && -(TwoTo53 as int) < n < TwoTo53
    ensures NumberEquals(Round(m, 1), NumberOfInt(n)) <==> m == n
  {
    RoundExact(m);
    if n >= 0 {
      RoundExact(n);
      if m != n {
        ShlInjective(m, n, UnitScale);
      }
    } else {
      RoundExact(-n);
    }
  }

  /** A trimmed text `0x`, `0o` or `0b` (either case) followed by digits
      reads as their value in base 16, 8 or 2, rounded to a double; with
      no digits, or with a digit outside the base, it is NaN. */
  lemma RadixText(mark: char, d: string)
    requires mark in {'x', 'X', 'o', 'O', 'b', 'B'}
    ensures var base := if mark in {'x', 'X'} then 16 else if mark in {'o', 'O'} then 8 else 2;
      Literal(['0', mark] + d) ==
        if d != [] && IsRadix(d, base) then Round(RadixValue(d, base), 1) else NaN
  {
    var t := ['0', mark] + d;
    assert t[0] == '0' && t[1] == mark && t[2..] == d;
  }

  /** A text of decimal digits reads as the number it denotes. */
  lemma DecimalText(d: string)
    requires d != [] && IsDecimal(d)
    ensures StringToNumber(d) == Round(DecimalValue(d), 1)
  {
    DigitsNotSpace(d);
    LiteralDigits(d);
  }

  /** White space is not a digit, so nothing is trimmed from digits. */
  lemma DigitsNotSpace(d: string)
    requires d != [] && IsDecimal(d)
    ensures Strip(d, JsSpace) == d
  {
    assert DigitValue(d[0]) < 10 && DigitValue(d[|d| - 1]) < 10;
    StripUnchanged(d, JsSpace);
  }

  lemma LiteralDigits(d: string)
    requires d != [] && IsDecimal(d)
    ensures Literal(d) == Round(DecimalValue(d), 1)
  {
    assert d[0] != '+' && d[0] != '-' by {
      assert DigitValue(d[0]) < 10;
    }
    assert |d| >= 2 ==> !(d[1] in {'x', 'X', 'o', 'O', 'b', 'B'}) by {
      if |d| >= 2 {
        assert DigitValue(d[1]) < 10;
      }
    }
    UnsignedDigits(d);
  }

  lemma UnsignedDigits(d: string)
    requires d != [] && IsDecimal(d)
    ensures Unsigned(d) == Round(DecimalValue(d), 1)
  {
    assert d != "Infinity" by {
      assert DigitValue(d[0]) < 10;
    }
    NoMarks(d);
    assert d[..|d|] == d;
    MantissaDigits(d, None);
  }

  /** A mantissa of digits alone is read with the exponent as given. */
  lemma MantissaDigits(d: string, exponent: Option<string>)
    requires d != [] && IsDecimal(d)
    requires exponent.Some? ==> exponent.value != [] && IsDecimal(exponent.value)
    ensures DecimalLiteral(d, exponent) ==
      Round(DecimalValue(d) * Pow10(if exponent.Some? then DecimalValue(exponent.value) else 0), 1)
  {
    WholeMantissa(d, exponent);
    if exponent.Some? {
      SignedDigits(exponent.value);
    }
  }

  /** A mantissa without a dot has no fraction. */
  lemma WholeMantissa(d: string, exponent: Option<string>)
    requires d != [] && IsDecimal(d)
    ensures DecimalLiteral(d, exponent) ==
      if exponent.Some? && !IsSignedInteger(exponent.value) then NaN
      else Scaled(DecimalValue(d), if exponent.Some? then SignedValue(exponent.value) else 0)
  {
    NoMarks(d);
    assert d[..|d|] + "" == d;
  }

  /** A text of digits holds no exponent mark and no dot. */
  lemma NoMarks(d: string)
    requires IsDecimal(d)
    ensures ExpAt(d) == |d| && DotAt(d) == |d|
  {
  }

  /** Digits, an exponent mark and more digits read as the first number
      times ten to the power of the second. */
  lemma ExponentText(d: string, x: string)
    requires d != [] && IsDecimal(d) && x != [] && IsDecimal(x)
    ensures StringToNumber(d + "e" + x) == Round(DecimalValue(d) * Pow10(DecimalValue(x)), 1)
  {
    var u := d + "e" + x;
    assert u[0] == d[0] && u[|u| - 1] == x[|x| - 1];
    assert DigitValue(u[0]) < 10 && DigitValue(u[|u| - 1]) < 10;
    StripUnchanged(u, JsSpace);
    assert u[0] != '+' && u[0] != '-';
    assert |u| >= 2 ==> !(u[1] in {'x', 'X', 'o', 'O', 'b', 'B'}) by {
      if |d| >= 2 {
        assert u[1] == d[1] && DigitValue(d[1]) < 10;
      } else {
        assert u[1] == 'e';
      }
    }
    ExponentParts(d, x);
  }

  lemma ExponentParts(d: string, x: string)
    requires d != [] && IsDecimal(d) && x != [] && IsDecimal(x)
    ensures Unsigned(d + "e" + x) == Round(DecimalValue(d) * Pow10(DecimalValue(x)), 1)
  {
    var u := d + "e" + x;
    assert u != "Infinity" by {
      assert u[0] == d[0] && DigitValue(d[0]) < 10;
    }
    NoMarks(d);
    ExpAtJoin(d, x);
    assert u[..|d|] == d && u[|d| + 1..] == x;
    MantissaDigits(d, Some(x));
  }

  lemma SignedDigits(x: string)
    requires x != [] && IsDecimal(x)
    ensures IsSignedInteger(x) && SignedValue(x) == DecimalValue(x)
  {
    assert DigitValue(x[0]) < 10;
  }

  lemma {:induction false} ExpAtJoin(d: string, x: string)
    requires ExpAt(d) == |d|
    ensures ExpAt(d + "e" + x) == |d|
    decreases |d|
  {
    if d != [] {
      assert (d + "e" + x)[1..] == d[1..] + "e" + x;
      ExpAtJoin(d[1..], x);
    }
  }
}
