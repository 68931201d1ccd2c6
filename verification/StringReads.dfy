/** Quoted strings are JSON strings: the reader gets the string back, and no character is written longer than it has to be. */
module StringReads {
  import opened Common
  import opened JsonText
  import opened JsonStrings
  import opened JsonReader

  lemma HexReads(n: nat)
    requires n < 16
    ensures HexDigit(Hex(n)) == Some(n)
  {
  }

  lemma Hex4Reads(u: Unit)
    ensures ReadHex(Hex4(u)) == Some(u)
  {
    var a, b, c, d := u / 4096, u / 256 % 16, u / 16 % 16, u % 16;
    HexReads(a);
    HexReads(b);
    HexReads(c);
    HexReads(d);
    HexValue(u);
    assert HexNumber(a, b, c, d) == u;
  }

  /** A unit on its own reads back, whatever follows it. */
  lemma AloneReads(u: Unit, x: Text)
    ensures ReadUnit(Alone(u) + x) == Some((u, x)) && Alone(u)[0] != 0x22
  {
    var t := Alone(u) + x;
    if Letter(u) != 0 {
      assert t[0] == BACKSLASH && t[1] == Letter(u) && t[2..] == x;
    } else if Escaped(u) {
      assert t == [BACKSLASH, LETTER_U] + (Hex4(u) + x);
      assert t[2..6] == Hex4(u) && t[6..] == x && t[0] == BACKSLASH && t[1] == LETTER_U;
      Hex4Reads(u);
    } else {
      assert t[0] == u && t[1..] == x;
    }
  }

  lemma OneUnit(t: Text, u: Unit, s: Text, rest: Text, x: Text)
    requires t != [] && t[0] != 0x22 && ReadUnit(t) == Some((u, rest)) && ReadString(rest) == Some((s, x))
    ensures ReadString(t) == Some(([u] + s, x))
  {
  }

  lemma PairReads(high: Unit, low: Unit, s: Text, after: Text, x: Text)
    requires IsHigh(high) && IsLow(low) && ReadString(after) == Some((s, x))
    ensures ReadString([high, low] + after) == Some(([high, low] + s, x))
  {
    var t := [high, low] + after;
    assert t[0] == high && t[1..] == [low] + after && ([low] + after)[1..] == after;
    OneUnit([low] + after, low, s, after, x);
    OneUnit(t, high, [low] + s, [low] + after, x);
    assert [high] + ([low] + s) == [high, low] + s;
  }

  lemma SingleReads(u: Unit, s: Text, after: Text, x: Text)
    requires ReadString(after) == Some((s, x))
    ensures ReadString(Alone(u) + after) == Some(([u] + s, x))
  {
    AloneReads(u, after);
    assert (Alone(u) + after)[0] == Alone(u)[0];
    OneUnit(Alone(u) + after, u, s, after, x);
  }

  lemma {:induction false} EscapeReads(s: Text, x: Text)
    ensures ReadString(Closed(s, x)) == Some((s, x))
    decreases |s|
  {
    Unroll(s, x);
    if s == [] {
      assert ([QUOTE] + x)[1..] == x;
    } else {
      var after := Closed(s[Width(s)..], x);
      EscapeReads(s[Width(s)..], x);
      if StartsPair(s) {
        PairReads(s[0], s[1], s[2..], after, x);
        assert s[..2] == [s[0], s[1]] && [s[0], s[1]] + s[2..] == s;
      } else {
        SingleReads(s[0], s[1..], after, x);
        assert [s[0]] + s[1..] == s;
      }
    }
  }

  lemma QuoteReads(s: Text, x: Text)
    ensures Quote(s) + x == [0x22] + Closed(s, x)
    ensures (Quote(s) + x)[0] == 0x22 && ReadString((Quote(s) + x)[1..]) == Some((s, x))
  {
    assert ([0x22] + Closed(s, x))[1..] == Closed(s, x);
    EscapeReads(s, x);
  }

  predicate LowerHex(u: Unit) { 0x30 <= u <= 0x39 || 0x61 <= u <= 0x66 }

  predicate HexEscape(u: Unit, t: Text) {
    |t| == 6 && t[0] == 0x5C && t[1] == 0x75 && ReadHex(t[2..]) == Some(u) && forall k :: 2 <= k < 6 ==> LowerHex(t[k])
  }

  lemma HexEscapeIs(u: Unit)
    ensures HexEscape(u, [BACKSLASH, LETTER_U] + Hex4(u))
  {
    var t := [BACKSLASH, LETTER_U] + Hex4(u);
    Hex4Reads(u);
    assert t[2..] == Hex4(u);
    forall k | 2 <= k < 6 ensures LowerHex(t[k]) { assert t[k] == Hex4(u)[k - 2]; }
  }

  /** The letter of a control character that has one. */
  function ShortEscapes(): map<Unit, Unit> { map[0x08 := 0x62, 0x09 := 0x74, 0x0A := 0x6E, 0x0C := 0x66, 0x0D := 0x72] }

  /** How a unit on its own is written. */
  lemma AloneIs(u: Unit)
    ensures u == 0x22 || u == 0x5C ==> Alone(u) == [0x5C, u]
    ensures u in ShortEscapes() ==> Alone(u) == [0x5C, ShortEscapes()[u]]
    ensures (u < 0x20 && u !in ShortEscapes()) || 0xD800 <= u <= 0xDFFF ==> HexEscape(u, Alone(u))
    ensures u >= 0x20 && !(0xD800 <= u <= 0xDFFF) && u != 0x22 && u != 0x5C ==> Alone(u) == [u]
  {
    HexEscapeIs(u);
  }

  /**
   * How the first character of a string is written: a surrogate pair as it is; the quote and the
   * backslash after a backslash; five control characters by their letters; the other control
   * characters, and a surrogate without its partner, by four lower-case hex digits; and everything
   * else as it is.
   */
  lemma EscapesAre(s: Text)
    requires s != []
    ensures InPair(s) ==> First(s) == s[..2]
    ensures !InPair(s) ==> var u, t := s[0], First(s);
      && (u == 0x22 || u == 0x5C ==> t == [0x5C, u])
      && (u in ShortEscapes() ==> t == [0x5C, ShortEscapes()[u]])
      && ((u < 0x20 && u !in ShortEscapes()) || 0xD800 <= u <= 0xDFFF ==> HexEscape(u, t))
      && (u >= 0x20 && !(0xD800 <= u <= 0xDFFF) && u != 0x22 && u != 0x5C ==> t == [u])
  {
    AloneIs(s[0]);
  }

  /** A string is its characters one after the other, between quotes. */
  lemma QuotedCharByChar(s: Text)
    ensures Quote(s) == [0x22] + Escape(s) + [0x22] && Escape([]) == []
    ensures s != [] ==> Escape(s) == First(s) + Escape(s[if InPair(s) then 2 else 1..])
  {
  }

  /** The string begins with a surrogate and its partner. */
  predicate InPair(s: Text) { |s| >= 2 && 0xD800 <= s[0] <= 0xDBFF && 0xDC00 <= s[1] <= 0xDFFF }
}
