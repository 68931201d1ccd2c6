/**
 * How `JSON.stringify` writes a number and a string (ECMA-262, Number::toString and
 * QuoteJSONString), on UTF-16 code units, and that neither loses anything.
 */
module JsonText {

  /** A UTF-16 code unit. */
  type Unit = u: int | 0 <= u < 0x1_0000 witness 0
  type Text = seq<Unit>

  const QUOTE: Unit := 0x22
  const BACKSLASH: Unit := 0x5C
  const COMMA: Unit := 0x2C
  const MINUS: Unit := 0x2D
  const PLUS: Unit := 0x2B
  const DOT: Unit := 0x2E
  const COLON: Unit := 0x3A
  const LETTER_E: Unit := 0x65
  const LETTER_U: Unit := 0x75

  // ---- numbers ------------------------------------------------------------------------------------------

  /**
   * A double as its shortest decimal: `digits` read as 0.ddd times ten to the `point`. Which
   * decimal is the shortest is the runtime's business; no two doubles share one.
   */
  datatype Num = Zero(negative: bool) | Finite(negative: bool, digits: seq<Digit>, point: int) | NotFinite

  type Digit = d: int | 0 <= d < 10 witness 0

  predicate ValidNum(n: Num) {
    n.Finite? ==> n.digits != [] && n.digits[0] != 0 && n.digits[|n.digits| - 1] != 0
  }

  function Char(d: Digit): Unit { 0x30 + d }

  function Chars(digits: seq<Digit>): (t: Text)
    ensures |t| == |digits| && forall i :: 0 <= i < |t| ==> t[i] == Char(digits[i])
  {
    if digits == [] then [] else [Char(digits[0])] + Chars(digits[1..])
  }

  function Zeros(n: nat): (t: Text)
    ensures |t| == n && forall i :: 0 <= i < n ==> t[i] == 0x30
  {
    if n == 0 then [] else [0x30] + Zeros(n - 1)
  }

  function Decimal(n: nat): (t: Text)
    ensures t != []
  {
    if n < 10 then [Char(n)] else Decimal(n / 10) + [Char(n % 10)]
  }

  function Exponent(e: int): Text {
    [LETTER_E] + (if e < 0 then [MINUS] + Decimal(-e) else [PLUS] + Decimal(e))
  }

  function Magnitude(digits: seq<Digit>, point: int): Text
    requires digits != []
  {
    if |digits| <= point <= 21 then Chars(digits) + Zeros(point - |digits|)
    else if 0 < point <= 21 then Chars(digits[..point]) + [DOT] + Chars(digits[point..])
    else if -6 < point <= 0 then [0x30, DOT] + Zeros(-point) + Chars(digits)
    else Chars(digits[..1]) + (if |digits| == 1 then [] else [DOT] + Chars(digits[1..])) + Exponent(point - 1)
  }

  function NumText(n: Num): Text
    requires ValidNum(n) && !n.NotFinite?
  {
    if n.Zero? then [0x30] else (if n.negative then [MINUS] else []) + Magnitude(n.digits, n.point)
  }

  /** The same number, in the sense of RFC 8785: both zeros are written 0. */
  predicate SameNum(a: Num, b: Num) { a == b || (a.Zero? && b.Zero?) }

  lemma {:induction false} DecimalDigits(n: nat)
    ensures forall i :: 0 <= i < |Decimal(n)| ==> 0x30 <= Decimal(n)[i] <= 0x39
  {
    if n >= 10 { DecimalDigits(n / 10); }
  }

  lemma {:induction false} DecimalInjective(m: nat, n: nat)
    requires Decimal(m) == Decimal(n)
    ensures m == n
  {
    assert (m < 10 <==> |Decimal(m)| == 1) && (n < 10 <==> |Decimal(n)| == 1);
    if m >= 10 {
      assert Decimal(m)[..|Decimal(m)| - 1] == Decimal(m / 10);
      assert Decimal(n)[..|Decimal(n)| - 1] == Decimal(n / 10);
      DecimalInjective(m / 10, n / 10);
      assert Decimal(m)[|Decimal(m)| - 1] == Char(m % 10) && Decimal(n)[|Decimal(n)| - 1] == Char(n % 10);
    }
  }

  lemma CharsInjective(a: seq<Digit>, b: seq<Digit>)
    requires Chars(a) == Chars(b)
    ensures a == b
  {
    forall i | 0 <= i < |a| ensures a[i] == b[i] {
      assert Chars(a)[i] == Chars(b)[i];
    }
  }

  /** The shapes a magnitude can have. */
  datatype Shape = Plain | Split | Small | Scientific

  function ShapeOf(k: nat, point: int): Shape {
    if k <= point <= 21 then Plain else if 0 < point <= 21 then Split else if -6 < point <= 0 then Small else Scientific
  }

  /** The shape can be told from the text: from its letter, its dot and its leading zero. */
  lemma ShapeShows(digits: seq<Digit>, point: int)
    requires digits != [] && digits[0] != 0
    ensures var t := Magnitude(digits, point); var shape := ShapeOf(|digits|, point);
      && t != [] && 0x30 <= t[0] <= 0x39
      && (LETTER_E in t <==> shape.Scientific?)
      && (DOT in t ==> !shape.Plain?) && (DOT !in t ==> shape.Plain? || shape.Scientific?)
      && (t[0] == 0x30 <==> shape.Small?)
  {
    var t := Magnitude(digits, point);
    match ShapeOf(|digits|, point)
    case Plain =>
    case Split =>
      assert t[point] == DOT;
    case Small =>
      assert t[1] == DOT;
    case Scientific =>
      var head := Chars(digits[..1]) + (if |digits| == 1 then [] else [DOT] + Chars(digits[1..]));
      assert t == head + Exponent(point - 1);
      assert t[|head|] == LETTER_E;
  }

  /** Where the first `mark` is: a text splits at it in one way only. */
  lemma SplitAtMark(a: Text, b: Text, x: Text, y: Text, mark: Unit)
    requires a + [mark] + x == b + [mark] + y && mark !in a && mark !in b
    ensures a == b && x == y
  {
    var s, t := a + [mark] + x, b + [mark] + y;
    assert s[|a|] == mark && forall i :: 0 <= i < |a| ==> s[i] == a[i] != mark;
    assert t[|b|] == mark && forall i :: 0 <= i < |b| ==> t[i] == b[i] != mark;
    assert |a| == |b|;
    assert s[..|a|] == a && t[..|a|] == b && s[|a| + 1..] == x && t[|a| + 1..] == y;
  }

  lemma PlainInjective(a: seq<Digit>, p: int, b: seq<Digit>, q: int)
    requires a != [] && b != [] && a[|a| - 1] != 0 && b[|b| - 1] != 0 && |a| <= p && |b| <= q
    requires Chars(a) + Zeros(p - |a|) == Chars(b) + Zeros(q - |b|)
    ensures a == b && p == q
  {
    var s, t := Chars(a) + Zeros(p - |a|), Chars(b) + Zeros(q - |b|);
    assert |s| == p && |t| == q;
    assert s[|a| - 1] == Char(a[|a| - 1]) && t[|b| - 1] == Char(b[|b| - 1]);
    assert forall i :: |a| <= i < |s| ==> s[i] == 0x30;
    assert forall i :: |b| <= i < |t| ==> t[i] == 0x30;
    assert |a| == |b|;
    assert s[..|a|] == Chars(a) && t[..|b|] == Chars(b);
    CharsInjective(a, b);
  }

  lemma SmallInjective(a: seq<Digit>, p: int, b: seq<Digit>, q: int)
    requires a != [] && b != [] && a[0] != 0 && b[0] != 0 && p <= 0 && q <= 0
    requires [0x30, DOT] + Zeros(-p) + Chars(a) == [0x30, DOT] + Zeros(-q) + Chars(b)
    ensures a == b && p == q
  {
    var s, t := [0x30, DOT] + Zeros(-p) + Chars(a), [0x30, DOT] + Zeros(-q) + Chars(b);
    assert s[2 - p] == Char(a[0]) && t[2 - q] == Char(b[0]);
    assert forall i :: 2 <= i < 2 - p ==> s[i] == 0x30;
    assert forall i :: 2 <= i < 2 - q ==> t[i] == 0x30;
    assert p == q;
    assert s[2 - p..] == Chars(a) && t[2 - q..] == Chars(b);
    CharsInjective(a, b);
  }

  lemma SplitInjective(a: seq<Digit>, p: int, b: seq<Digit>, q: int)
    requires 0 < p < |a| && 0 < q < |b|
    requires Chars(a[..p]) + [DOT] + Chars(a[p..]) == Chars(b[..q]) + [DOT] + Chars(b[q..])
    ensures a == b && p == q
  {
    SplitAtMark(Chars(a[..p]), Chars(b[..q]), Chars(a[p..]), Chars(b[q..]), DOT);
    CharsInjective(a[..p], b[..q]);
    CharsInjective(a[p..], b[q..]);
    assert a == a[..p] + a[p..] && b == b[..q] + b[q..];
  }

  function Mantissa(digits: seq<Digit>): Text
    requires digits != []
  {
    Chars(digits[..1]) + if |digits| == 1 then [] else [DOT] + Chars(digits[1..])
  }

  lemma MantissaInjective(a: seq<Digit>, b: seq<Digit>)
    requires a != [] && b != [] && Mantissa(a) == Mantissa(b)
    ensures a == b
  {
    assert |Mantissa(a)| == (if |a| == 1 then 1 else |a| + 1) && |Mantissa(b)| == (if |b| == 1 then 1 else |b| + 1);
    assert Mantissa(a)[0] == Char(a[0]) && Mantissa(b)[0] == Char(b[0]);
    if |a| > 1 {
      assert Mantissa(a)[2..] == Chars(a[1..]) && Mantissa(b)[2..] == Chars(b[1..]);
      CharsInjective(a[1..], b[1..]);
    }
    assert a == [a[0]] + a[1..] && b == [b[0]] + b[1..];
  }

  lemma ExponentInjective(e: int, f: int)
    requires Exponent(e) == Exponent(f)
    ensures e == f
  {
    assert Exponent(e)[1] == Exponent(f)[1];
    assert Exponent(e)[2..] == Decimal(if e < 0 then -e else e) && Exponent(f)[2..] == Decimal(if f < 0 then -f else f);
    DecimalInjective(if e < 0 then -e else e, if f < 0 then -f else f);
  }

  lemma ScientificInjective(a: seq<Digit>, p: int, b: seq<Digit>, q: int)
    requires a != [] && b != []
    requires Mantissa(a) + Exponent(p) == Mantissa(b) + Exponent(q)
    ensures a == b && p == q
  {
    assert Mantissa(a) + Exponent(p) == Mantissa(a) + [LETTER_E] + Exponent(p)[1..];
    assert Mantissa(b) + Exponent(q) == Mantissa(b) + [LETTER_E] + Exponent(q)[1..];
    SplitAtMark(Mantissa(a), Mantissa(b), Exponent(p)[1..], Exponent(q)[1..], LETTER_E);
    assert Exponent(p) == [LETTER_E] + Exponent(p)[1..] && Exponent(q) == [LETTER_E] + Exponent(q)[1..];
    MantissaInjective(a, b);
    ExponentInjective(p, q);
  }

  lemma MagnitudeInjective(a: seq<Digit>, p: int, b: seq<Digit>, q: int)
    requires a != [] && a[0] != 0 && a[|a| - 1] != 0 && b != [] && b[0] != 0 && b[|b| - 1] != 0
    requires Magnitude(a, p) == Magnitude(b, q)
    ensures a == b && p == q
  {
    ShapeShows(a, p);
    ShapeShows(b, q);
    match ShapeOf(|a|, p)
    case Plain => PlainInjective(a, p, b, q);
    case Split => SplitInjective(a, p, b, q);
    case Small => SmallInjective(a, p, b, q);
    case Scientific =>
      assert Magnitude(a, p) == Mantissa(a) + Exponent(p - 1) && Magnitude(b, q) == Mantissa(b) + Exponent(q - 1);
      ScientificInjective(a, p - 1, b, q - 1);
  }

  /** Different numbers have different texts; only the two zeros share one. */
  lemma NumTextInjective(a: Num, b: Num)
    requires ValidNum(a) && ValidNum(b) && !a.NotFinite? && !b.NotFinite? && NumText(a) == NumText(b)
    ensures SameNum(a, b)
  {
    if a.Finite? { ShapeShows(a.digits, a.point); }
    if b.Finite? { ShapeShows(b.digits, b.point); }
    if a.Finite? && b.Finite? {
      assert a.negative == (NumText(a)[0] == MINUS) && b.negative == (NumText(b)[0] == MINUS);
      if a.negative {
        assert NumText(a)[1..] == Magnitude(a.digits, a.point) && NumText(b)[1..] == Magnitude(b.digits, b.point);
      } else {
        assert NumText(a) == Magnitude(a.digits, a.point) && NumText(b) == Magnitude(b.digits, b.point);
      }
      MagnitudeInjective(a.digits, a.point, b.digits, b.point);
    } else if a.Finite? {
      ZeroIsNot(a);
    } else if b.Finite? {
      ZeroIsNot(b);
    }
  }

  lemma ZeroIsNot(a: Num)
    requires a.Finite? && ValidNum(a)
    ensures NumText(a) != [0x30]
  {
    ShapeShows(a.digits, a.point);
    var t := Magnitude(a.digits, a.point);
    if !a.negative && t[0] == 0x30 {
      assert NumText(a) == t;
      assert t[1] == DOT;
    } else {
      assert NumText(a)[0] != 0x30;
    }
  }
}
