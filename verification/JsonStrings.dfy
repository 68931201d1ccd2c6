/** How `JSON.stringify` quotes a string, lone surrogates included, and that quoting can be undone. */
module JsonStrings {
  import opened JsonText

  predicate IsHigh(u: Unit) { 0xD800 <= u <= 0xDBFF }

  predicate IsLow(u: Unit) { 0xDC00 <= u <= 0xDFFF }

  /** The letter of a two-character escape, or 0. */
  function Letter(u: Unit): Unit {
    if u == 0x08 then 0x62
    else if u == 0x09 then 0x74
    else if u == 0x0A then 0x6E
    else if u == 0x0C then 0x66
    else if u == 0x0D then 0x72
    else if u == QUOTE then QUOTE
    else if u == BACKSLASH then BACKSLASH
    else 0
  }

  function Hex(n: nat): Unit
    requires n < 16
  {
    if n < 10 then 0x30 + n else 0x61 + n - 10
  }

  function Hex4(u: Unit): Text {
    [Hex(u / 4096), Hex(u / 256 % 16), Hex(u / 16 % 16), Hex(u % 16)]
  }

  predicate Escaped(u: Unit) { Letter(u) != 0 || u < 0x20 || IsHigh(u) || IsLow(u) }

  /** A unit on its own: a surrogate without its partner is escaped like a control character. */
  function Alone(u: Unit): Text {
    if Letter(u) != 0 then [BACKSLASH, Letter(u)]
    else if Escaped(u) then [BACKSLASH, LETTER_U] + Hex4(u)
    else [u]
  }

  predicate StartsPair(s: Text) { |s| >= 2 && IsHigh(s[0]) && IsLow(s[1]) }

  /** How many units the first character of a string has. */
  function Width(s: Text): nat
    requires s != []
  {
    if StartsPair(s) then 2 else 1
  }

  function First(s: Text): Text
    requires s != []
  {
    if StartsPair(s) then s[..2] else Alone(s[0])
  }

  function Escape(s: Text): Text {
    if s == [] then [] else First(s) + Escape(s[Width(s)..])
  }

  function Quote(s: Text): Text { [QUOTE] + Escape(s) + [QUOTE] }

  lemma Hex4Injective(u: Unit, v: Unit)
    requires Hex4(u) == Hex4(v)
    ensures u == v
  {
    HexInjective(u / 4096, v / 4096, Hex4(u)[0], Hex4(v)[0]);
    HexInjective(u / 256 % 16, v / 256 % 16, Hex4(u)[1], Hex4(v)[1]);
    HexInjective(u / 16 % 16, v / 16 % 16, Hex4(u)[2], Hex4(v)[2]);
    HexInjective(u % 16, v % 16, Hex4(u)[3], Hex4(v)[3]);
    HexValue(u);
    HexValue(v);
  }

  lemma HexInjective(m: nat, n: nat, x: Unit, y: Unit)
    requires m < 16 && n < 16 && x == Hex(m) && y == Hex(n) && x == y
    ensures m == n
  {
  }

  lemma HexValue(u: Unit)
    ensures u == u / 4096 * 4096 + u / 256 % 16 * 256 + u / 16 % 16 * 16 + u % 16
  {
    var a, b, c := u / 16, u / 256, u / 4096;
    assert u == a * 16 + u % 16;
    assert b == a / 16 && a == b * 16 + a % 16;
    assert c == b / 16 && b == c * 16 + b % 16;
  }

  /** The escapes of single units form a prefix code, and none starts with a quote. */
  lemma AloneIsACode(u: Unit, v: Unit, x: Text, y: Text)
    requires Alone(u) + x == Alone(v) + y
    ensures u == v && x == y
  {
    var s, t := Alone(u) + x, Alone(v) + y;
    assert s[0] == Alone(u)[0] && t[0] == Alone(v)[0];
    if s[0] == BACKSLASH {
      assert s[1] == Alone(u)[1] && t[1] == Alone(v)[1];
      if s[1] == LETTER_U {
        assert s[2..6] == Hex4(u) && t[2..6] == Hex4(v);
        Hex4Injective(u, v);
      }
    }
    assert s[|Alone(u)|..] == x && t[|Alone(v)|..] == y;
  }

  lemma FirstShows(s: Text, x: Text)
    requires s != []
    ensures First(s) != [] && First(s)[0] != QUOTE
    ensures IsHigh(First(s)[0]) <==> StartsPair(s)
  {
  }

  /** The first character can be read off the output: how wide it was and what it was. */
  lemma FirstIsACode(s: Text, t: Text, x: Text, y: Text)
    requires s != [] && t != [] && First(s) + x == First(t) + y
    ensures Width(s) == Width(t) && s[..Width(s)] == t[..Width(t)] && x == y
  {
    FirstShows(s, x);
    FirstShows(t, y);
    var a, b := First(s) + x, First(t) + y;
    assert a[0] == First(s)[0] && b[0] == First(t)[0];
    if StartsPair(s) {
      assert a[..2] == s[..2] && b[..2] == t[..2] && a[2..] == x && b[2..] == y;
    } else {
      AloneIsACode(s[0], t[0], x, y);
    }
  }

  /** An escaped string, its closing quote, and what follows. */
  function Closed(s: Text, x: Text): Text { Escape(s) + [QUOTE] + x }

  lemma Unroll(s: Text, x: Text)
    ensures s == [] ==> Closed(s, x) == [QUOTE] + x
    ensures s != [] ==> Closed(s, x) == First(s) + Closed(s[Width(s)..], x) && s == s[..Width(s)] + s[Width(s)..]
  {
    if s != [] {
      var e := Escape(s[Width(s)..]);
      assert First(s) + e + [QUOTE] + x == First(s) + (e + [QUOTE] + x);
    }
  }

  lemma OpenIsNotClosed(s: Text, x: Text, y: Text)
    requires s != []
    ensures Closed(s, x) != [QUOTE] + y
  {
    Unroll(s, x);
    FirstShows(s, x);
    assert Closed(s, x)[0] == First(s)[0];
  }

  /** A quoted string ends at its closing quote and nowhere else, and determines the string. */
  lemma {:induction false} EscapeEnds(s: Text, t: Text, x: Text, y: Text)
    requires Closed(s, x) == Closed(t, y)
    ensures s == t && x == y
  {
    Unroll(s, x);
    Unroll(t, y);
    if s == [] {
      if t != [] { OpenIsNotClosed(t, y, x); }
      assert ([QUOTE] + x)[1..] == x && ([QUOTE] + y)[1..] == y;
    } else {
      if t == [] { OpenIsNotClosed(s, x, y); }
      var s', t' := s[Width(s)..], t[Width(t)..];
      FirstIsACode(s, t, Closed(s', x), Closed(t', y));
      EscapeEnds(s', t', x, y);
    }
  }

  lemma QuoteEnds(s: Text, t: Text, x: Text, y: Text)
    requires Quote(s) + x == Quote(t) + y
    ensures s == t && x == y
  {
    var a, b := Quote(s) + x, Quote(t) + y;
    assert a[1..] == Closed(s, x) && b[1..] == Closed(t, y);
    EscapeEnds(s, t, x, y);
  }
}
