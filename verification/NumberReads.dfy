/** Numbers are JSON numbers: the reader gets the number back, and the text is the one ECMA-262 asks for. */
module NumberReads {
  import opened Common
  import opened JsonText
  import opened CanonicalJson
  import opened CanonicalProof
  import opened JsonReader

  predicate AllDigits(t: Text) { forall i :: 0 <= i < |t| ==> IsDigit(t[i]) }

  /** A text that does not go on with digits. */
  predicate Stops(x: Text) { x == [] || !IsDigit(x[0]) }

  lemma {:induction false} RunOf(a: Text, x: Text)
    requires AllDigits(a) && Stops(x)
    ensures Run(a + x) == |a| && (a + x)[..|a|] == a && (a + x)[|a|..] == x
  {
    var t := a + x;
    if a == [] {
      assert t == x;
    } else {
      RunOf(a[1..], x);
      assert t[0] == a[0] && t[1..] == a[1..] + x;
    }
  }

  lemma CharsRead(digits: seq<Digit>)
    ensures AllDigits(Chars(digits)) && ToDigits(Chars(digits)) == digits
  {
  }

  lemma OneDigit(d: Digit)
    ensures ToDigits([Char(d)]) == [d]
  {
  }

  lemma NaturalPush(digits: seq<Digit>, d: Digit)
    ensures Natural(digits + [d]) == Natural(digits) * 10 + d
    ensures [] + [d] == [d]
  {
    assert (digits + [d])[..|digits|] == digits;
  }

  lemma {:induction false} DecimalReads(n: nat)
    ensures AllDigits(Decimal(n)) && Natural(ToDigits(Decimal(n))) == n
  {
    DecimalDigits(n);
    if n >= 10 {
      DecimalReads(n / 10);
      ToDigitsJoin(Decimal(n / 10), [Char(n % 10)]);
      OneDigit(n % 10);
      NaturalPush(ToDigits(Decimal(n / 10)), n % 10);
    } else {
      OneDigit(n);
      NaturalPush([], n);
    }
  }

  function Noughts(n: nat): seq<Digit> { seq(n, i => 0) }

  lemma ZerosRead(n: nat)
    ensures AllDigits(Zeros(n)) && ToDigits(Zeros(n)) == Noughts(n)
  {
  }

  lemma ToDigitsJoin(a: Text, b: Text)
    ensures ToDigits(a + b) == ToDigits(a) + ToDigits(b)
    ensures AllDigits(a) && AllDigits(b) ==> AllDigits(a + b)
  {
  }

  lemma {:induction false} TrailingZeros(negative: bool, digits: seq<Digit>, n: nat, point: int)
    requires digits != [] && digits[0] != 0 && digits[|digits| - 1] != 0
    ensures Normal(negative, digits + Noughts(n), point) == Finite(negative, digits, point)
  {
    if n == 0 {
      assert digits + Noughts(0) == digits;
    } else {
      var all := digits + Noughts(n);
      assert all[..|all| - 1] == digits + Noughts(n - 1);
      TrailingZeros(negative, digits, n - 1, point);
    }
  }

  lemma {:induction false} LeadingZeros(negative: bool, n: nat, digits: seq<Digit>, point: int)
    requires digits != [] && digits[0] != 0 && digits[|digits| - 1] != 0
    ensures Normal(negative, Noughts(n) + digits, point) == Finite(negative, digits, point - n)
  {
    if n == 0 {
      assert Noughts(0) + digits == digits;
    } else {
      var all := Noughts(n) + digits;
      assert all[1..] == Noughts(n - 1) + digits;
      LeadingZeros(negative, n - 1, digits, point - 1);
    }
  }

  /** Nothing that can follow a value continues a number. */
  lemma NoMore(x: Text)
    requires Follows(x)
    ensures Stops(x) && (x == [] || x[0] != 0x2E) && ReadExponent(x) == Some((0, x))
  {
  }

  function Signed(sign: Unit, size: nat): int { if sign == 0x2D then 0 - size else size }

  lemma SignAndSize(t: Text, sign: Unit, size: Text, x: Text)
    requires t == [0x65, sign] + (size + x) && (sign == 0x2B || sign == 0x2D) && size != [] && AllDigits(size) && Stops(x)
    ensures ReadExponent(t) == Some((Signed(sign, Natural(ToDigits(size))), x))
  {
    assert t[0] == 0x65 && t[1] == sign && t[2..] == size + x;
    RunOf(size, x);
  }

  lemma ExponentIs(e: int)
    ensures Exponent(e) == [0x65, if e < 0 then 0x2D else 0x2B] + Decimal(if e < 0 then -e else e)
  {
  }

  lemma ExponentReads(e: int, x: Text)
    requires Follows(x)
    ensures ReadExponent(Exponent(e) + x) == Some((e, x))
    ensures var t := Exponent(e) + x; t != [] && t[0] == 0x65 && Stops(t)
  {
    var sign: Unit := if e < 0 then 0x2D else 0x2B;
    var size := Decimal(if e < 0 then -e else e);
    ExponentIs(e);
    assert Exponent(e) + x == [0x65, sign] + (size + x);
    DecimalReads(if e < 0 then -e else e);
    NoMore(x);
    SignAndSize(Exponent(e) + x, sign, size, x);
  }

  /** The text of a fraction, if there are digits after the point. */
  function Fraction(digits: Text): Text { if digits == [] then [] else [0x2E] + digits }

  lemma FractionReads(fraction: Text, tail: Text)
    requires AllDigits(fraction) && Stops(tail) && (tail == [] || tail[0] != 0x2E)
    ensures ReadFraction(Fraction(fraction) + tail) == Some((fraction, tail)) && Stops(Fraction(fraction) + tail)
  {
    if fraction == [] {
      assert Fraction(fraction) + tail == tail;
    } else {
      var t := Fraction(fraction) + tail;
      assert t[0] == 0x2E && t[1..] == fraction + tail;
      RunOf(fraction, tail);
    }
  }

  lemma Assembled(t: Text, n: nat, whole: Text, after: Text, fraction: Text, tail: Text, exponent: int, x: Text)
    requires n == Run(t) && n > 0 && (n > 1 ==> t[0] != 0x30) && t[..n] == whole && t[n..] == after
    requires ReadFraction(after) == Some((fraction, tail)) && ReadExponent(tail) == Some((exponent, x))
    ensures ReadMagnitude(t) == Some((Numeral(ToDigits(whole) + ToDigits(fraction), n + exponent), x))
  {
  }

  lemma PartsRead(whole: Text, after: Text, fraction: Text, tail: Text, exponent: int, x: Text)
    requires whole != [] && (|whole| > 1 ==> whole[0] != 0x30) && AllDigits(whole) && Stops(after)
    requires ReadFraction(after) == Some((fraction, tail)) && ReadExponent(tail) == Some((exponent, x))
    ensures ReadMagnitude(whole + after) == Some((Numeral(ToDigits(whole) + ToDigits(fraction), |whole| + exponent), x))
  {
    RunOf(whole, after);
    assert (whole + after)[0] == whole[0];
    Assembled(whole + after, |whole|, whole, after, fraction, tail, exponent, x);
  }

  /** Digits that begin and end with something. */
  predicate Tight(digits: seq<Digit>) { digits != [] && digits[0] != 0 && digits[|digits| - 1] != 0 }

  lemma WholeReads(digits: seq<Digit>, zeros: nat)
    requires digits != []
    ensures var whole := Chars(digits) + Zeros(zeros);
      && AllDigits(whole) && ToDigits(whole) + ToDigits([]) == digits + Noughts(zeros)
      && |whole| == |digits| + zeros && whole[0] == Char(digits[0])
  {
    CharsRead(digits);
    ZerosRead(zeros);
    ToDigitsJoin(Chars(digits), Zeros(zeros));
    assert ToDigits([]) == [];
  }

  lemma WholeFollowed(whole: Text, x: Text)
    requires whole != [] && AllDigits(whole) && (|whole| > 1 ==> whole[0] != 0x30) && Follows(x)
    ensures ReadMagnitude(whole + x) == Some((Numeral(ToDigits(whole) + ToDigits([]), |whole|), x))
  {
    NoMore(x);
    assert ReadFraction(x) == Some(([], x));
    PartsRead(whole, x, [], x, 0, x);
  }

  lemma PlainReads(digits: seq<Digit>, zeros: nat, x: Text)
    requires Tight(digits) && Follows(x)
    ensures ReadMagnitude(Chars(digits) + Zeros(zeros) + x) == Some((Numeral(digits + Noughts(zeros), |digits| + zeros), x))
  {
    var whole := Chars(digits) + Zeros(zeros);
    WholeReads(digits, zeros);
    WholeFollowed(whole, x);
  }

  lemma WithPoint(whole: Text, fraction: Text, tail: Text)
    requires fraction != []
    ensures whole + [DOT] + fraction + tail == whole + (Fraction(fraction) + tail)
  {
  }

  /** Digits cut in two, as text. */
  lemma CutReads(digits: seq<Digit>, at: nat)
    requires 0 < at <= |digits|
    ensures var whole, fraction := Chars(digits[..at]), Chars(digits[at..]);
      && AllDigits(whole) && AllDigits(fraction) && |whole| == at && whole[0] == Char(digits[0])
      && ToDigits(whole) + ToDigits(fraction) == digits
  {
    CharsRead(digits[..at]);
    CharsRead(digits[at..]);
    assert digits[..at] + digits[at..] == digits;
  }

  lemma SplitReads(digits: seq<Digit>, point: int, x: Text)
    requires Tight(digits) && Follows(x) && 0 < point < |digits|
    ensures ReadMagnitude(Chars(digits[..point]) + [DOT] + Chars(digits[point..]) + x) == Some((Numeral(digits, point), x))
  {
    NoMore(x);
    CutReads(digits, point);
    WithPoint(Chars(digits[..point]), Chars(digits[point..]), x);
    FractionReads(Chars(digits[point..]), x);
    PartsRead(Chars(digits[..point]), Fraction(Chars(digits[point..])) + x, Chars(digits[point..]), x, 0, x);
  }

  lemma AfterPointReads(zeros: nat, digits: seq<Digit>)
    ensures var fraction := Zeros(zeros) + Chars(digits);
      AllDigits(fraction) && ToDigits([0x30]) + ToDigits(fraction) == Noughts(zeros + 1) + digits
  {
    CharsRead(digits);
    ZerosRead(zeros);
    ToDigitsJoin(Zeros(zeros), Chars(digits));
    OneDigit(0);
    assert [0] + (Noughts(zeros) + digits) == Noughts(zeros + 1) + digits;
  }

  lemma SmallJoins(zeros: Text, chars: Text, x: Text)
    requires chars != []
    ensures [0x30, DOT] + zeros + chars + x == [0x30] + (Fraction(zeros + chars) + x)
  {
  }

  lemma SmallReads(digits: seq<Digit>, zeros: nat, x: Text)
    requires Tight(digits) && Follows(x)
    ensures ReadMagnitude([0x30, DOT] + Zeros(zeros) + Chars(digits) + x) == Some((Numeral(Noughts(zeros + 1) + digits, 1), x))
  {
    NoMore(x);
    AfterPointReads(zeros, digits);
    SmallJoins(Zeros(zeros), Chars(digits), x);
    FractionReads(Zeros(zeros) + Chars(digits), x);
    PartsRead([0x30], Fraction(Zeros(zeros) + Chars(digits)) + x, Zeros(zeros) + Chars(digits), x, 0, x);
  }

  lemma MantissaJoins(digits: seq<Digit>, exponent: Text, x: Text)
    requires digits != []
    ensures Mantissa(digits) + exponent + x == Chars(digits[..1]) + (Fraction(Chars(digits[1..])) + (exponent + x))
  {
  }

  lemma ScientificReads(digits: seq<Digit>, exponent: int, x: Text)
    requires Tight(digits) && Follows(x)
    ensures ReadMagnitude(Mantissa(digits) + Exponent(exponent) + x) == Some((Numeral(digits, 1 + exponent), x))
  {
    ExponentReads(exponent, x);
    CutReads(digits, 1);
    MantissaJoins(digits, Exponent(exponent), x);
    var tail := Exponent(exponent) + x;
    FractionReads(Chars(digits[1..]), tail);
    PartsRead(Chars(digits[..1]), Fraction(Chars(digits[1..])) + tail, Chars(digits[1..]), tail, exponent, x);
  }

  lemma AsItIs(negative: bool, digits: seq<Digit>, point: int)
    requires Tight(digits)
    ensures Normal(negative, digits, point) == Finite(negative, digits, point)
  {
  }

  /** The digits as they are written, zeros included, and the place of the point among them. */
  function WrittenAs(digits: seq<Digit>, point: int): Numeral {
    if |digits| <= point <= 21 then Numeral(digits + Noughts(point - |digits|), point)
    else if 0 < point <= 21 then Numeral(digits, point)
    else if -6 < point <= 0 then Numeral(Noughts(1 - point) + digits, 1)
    else Numeral(digits, point)
  }

  lemma WrittenAsIsNormal(negative: bool, digits: seq<Digit>, point: int)
    requires Tight(digits)
    ensures Normal(negative, WrittenAs(digits, point).digits, WrittenAs(digits, point).point) == Finite(negative, digits, point)
  {
    if |digits| <= point <= 21 {
      TrailingZeros(negative, digits, point - |digits|, point);
    } else if -6 < point <= 0 {
      LeadingZeros(negative, 1 - point, digits, 1);
    } else {
      AsItIs(negative, digits, point);
    }
  }

  /** A text that is read, known by another name. */
  lemma ReadAs(t: Text, u: Text, m: Numeral, n: Numeral, x: Text)
    requires t == u && m == n && ReadMagnitude(u) == Some((n, x))
    ensures ReadMagnitude(t) == Some((m, x))
  {
  }

  lemma PlainMagnitude(digits: seq<Digit>, point: int, x: Text)
    requires Tight(digits) && Follows(x) && |digits| <= point <= 21
    ensures ReadMagnitude(Magnitude(digits, point) + x) == Some((WrittenAs(digits, point), x))
  {
    var zeros: nat := point - |digits|;
    PlainReads(digits, zeros, x);
    ReadAs(Magnitude(digits, point) + x, Chars(digits) + Zeros(zeros) + x, WrittenAs(digits, point),
           Numeral(digits + Noughts(zeros), |digits| + zeros), x);
  }

  lemma SplitMagnitude(digits: seq<Digit>, point: int, x: Text)
    requires Tight(digits) && Follows(x) && 0 < point < |digits| && point <= 21
    ensures ReadMagnitude(Magnitude(digits, point) + x) == Some((WrittenAs(digits, point), x))
  {
    SplitReads(digits, point, x);
    ReadAs(Magnitude(digits, point) + x, Chars(digits[..point]) + [DOT] + Chars(digits[point..]) + x,
           WrittenAs(digits, point), Numeral(digits, point), x);
  }

  lemma SmallMagnitude(digits: seq<Digit>, point: int, x: Text)
    requires Tight(digits) && Follows(x) && -6 < point <= 0
    ensures ReadMagnitude(Magnitude(digits, point) + x) == Some((WrittenAs(digits, point), x))
  {
    var zeros: nat := -point;
    SmallReads(digits, zeros, x);
    ReadAs(Magnitude(digits, point) + x, [0x30, DOT] + Zeros(zeros) + Chars(digits) + x, WrittenAs(digits, point),
           Numeral(Noughts(zeros + 1) + digits, 1), x);
  }

  lemma ScientificMagnitude(digits: seq<Digit>, point: int, x: Text)
    requires Tight(digits) && Follows(x) && (point > 21 || point <= -6)
    ensures ReadMagnitude(Magnitude(digits, point) + x) == Some((WrittenAs(digits, point), x))
  {
    ScientificReads(digits, point - 1, x);
    ReadAs(Magnitude(digits, point) + x, Mantissa(digits) + Exponent(point - 1) + x, WrittenAs(digits, point),
           Numeral(digits, 1 + (point - 1)), x);
  }

  lemma MagnitudeReads(digits: seq<Digit>, point: int, x: Text)
    requires Tight(digits) && Follows(x)
    ensures ReadMagnitude(Magnitude(digits, point) + x) == Some((WrittenAs(digits, point), x))
  {
    if |digits| <= point <= 21 {
      PlainMagnitude(digits, point, x);
    } else if 0 < point <= 21 {
      SplitMagnitude(digits, point, x);
    } else if -6 < point <= 0 {
      SmallMagnitude(digits, point, x);
    } else {
      ScientificMagnitude(digits, point, x);
    }
  }

  lemma ZeroReads(x: Text)
    requires Follows(x)
    ensures ReadMagnitude([0x30] + x) == Some((Numeral([0], 1), x)) && Normal(false, [0], 1) == Zero(false)
  {
    NoMore(x);
    assert ReadFraction(x) == Some(([], x));
    PartsRead([0x30], x, [], x, 0, x);
    assert ToDigits([0x30]) + ToDigits([]) == [0];
    assert [0][1..] == [] && Normal(false, [], 0) == Zero(false);
  }

  /** What a text that begins with a digit or a minus is read as. */
  lemma ANumber(t: Text, negative: bool, magnitude: Text, m: Numeral, x: Text)
    requires t == (if negative then [0x2D] + magnitude else magnitude) && magnitude != [] && IsDigit(magnitude[0])
    requires ReadMagnitude(magnitude) == Some((m, x))
    ensures ReadValue(t) == Some((Number(Normal(negative, m.digits, m.point)), x))
  {
    if negative { assert t[0] == 0x2D && t[1..] == magnitude; }
    NumberFirst(t);
  }

  lemma NumberFirst(t: Text)
    requires t != [] && (t[0] == 0x2D || IsDigit(t[0]))
    ensures ReadValue(t) == ReadNumber(t)
  {
  }

  lemma FiniteReads(n: Num, x: Text)
    requires n.Finite? && ValidNum(n) && Follows(x)
    ensures ReadValue(NumText(n) + x) == Some((Number(n), x))
  {
    var t := Magnitude(n.digits, n.point);
    ShapeShows(n.digits, n.point);
    MagnitudeReads(n.digits, n.point, x);
    WrittenAsIsNormal(n.negative, n.digits, n.point);
    assert (t + x)[0] == t[0];
    SignJoins(n.negative, t, x);
    ANumber(NumText(n) + x, n.negative, t + x, WrittenAs(n.digits, n.point), x);
  }

  lemma SignJoins(negative: bool, t: Text, x: Text)
    ensures (if negative then [MINUS] else []) + t + x == if negative then [0x2D] + (t + x) else t + x
  {
  }

  /** A number reads back; both zeros as the positive one. */
  lemma NumberReads(n: Num, x: Text)
    requires ValidNum(n) && !n.NotFinite? && Follows(x)
    ensures ReadValue(NumText(n) + x) == Some((Number(if n.Zero? then Zero(false) else n), x))
  {
    if n.Zero? {
      ZeroReads(x);
      ANumber([0x30] + x, false, [0x30] + x, Numeral([0], 1), x);
    } else {
      FiniteReads(n, x);
    }
  }

  lemma {:induction false} NoLeadingZero(n: nat)
    requires n > 0
    ensures Decimal(n)[0] != 0x30
  {
    if n >= 10 { NoLeadingZero(n / 10); }
  }

  /**
   * How a finite number is written (ECMA-262, Number::toString): with an exponent exactly below 1e-6
   * and from 1e21 on; then with one digit before the point, a sign, and no zero in front of the
   * exponent; otherwise without one, with zeros only where the digits do not reach the point.
   */
  lemma LargeAndSmallNumbersAre(digits: seq<Digit>, point: int) returns (size: Text)
    requires Tight(digits) && (point > 21 || point < -5)
    ensures size != [] && size[0] != 0x30
    ensures Magnitude(digits, point) ==
      Chars(digits[..1]) + Fraction(Chars(digits[1..])) + ([0x65, if point < 1 then 0x2D else 0x2B] + size)
  {
    var e := point - 1;
    size := Decimal(if e < 0 then -e else e);
    NoLeadingZero(if e < 0 then -e else e);
    MantissaIs(digits);
    ExponentIs(e);
    assert Magnitude(digits, point) == Mantissa(digits) + Exponent(e);
  }

  lemma MantissaIs(digits: seq<Digit>)
    requires digits != []
    ensures Mantissa(digits) == Chars(digits[..1]) + Fraction(Chars(digits[1..]))
  {
  }

  lemma OtherNumbersAre(digits: seq<Digit>, point: int)
    requires Tight(digits) && -5 <= point <= 21
    ensures var t := Magnitude(digits, point);
      0x65 !in t && |t| == if point >= |digits| then point else if point > 0 then |digits| + 1 else |digits| + 2 - point
  {
    ShapeShows(digits, point);
  }
}
