/**
 * A reader of JSON text by the grammar of RFC 8259 (whose code points are written here as there),
 * without white space, on UTF-16 code units. It knows nothing of how canonical texts are written.
 */
module JsonReader {
  import opened Common
  import opened JsonText
  import opened CanonicalJson

  // ---- strings ----------------------------------------------------------------------------------------

  function HexDigit(u: Unit): Option<nat> {
    if 0x30 <= u <= 0x39 then Some(u - 0x30)
    else if 0x61 <= u <= 0x66 then Some(u - 0x61 + 10)
    else if 0x41 <= u <= 0x46 then Some(u - 0x41 + 10)
    else None
  }

  function ReadHex(t: Text): Option<Unit>
    requires |t| == 4
  {
    var a, b, c, d := HexDigit(t[0]), HexDigit(t[1]), HexDigit(t[2]), HexDigit(t[3]);
    if a.Some? && b.Some? && c.Some? && d.Some? then Some(HexNumber(a.value, b.value, c.value, d.value)) else None
  }

  function HexNumber(a: nat, b: nat, c: nat, d: nat): Unit { (a * 4096 + b * 256 + c * 16 + d) % 0x1_0000 }

  /** The unit a two-character escape stands for. */
  function Escapes(letter: Unit): Option<Unit> {
    if letter == 0x22 then Some(0x22)
    else if letter == 0x5C then Some(0x5C)
    else if letter == 0x2F then Some(0x2F)
    else if letter == 0x62 then Some(8)
    else if letter == 0x74 then Some(9)
    else if letter == 0x6E then Some(10)
    else if letter == 0x66 then Some(12)
    else if letter == 0x72 then Some(13)
    else None
  }

  /** One unit of a string, escaped or not; a control character has to be escaped. */
  function ReadUnit(t: Text): (r: Option<(Unit, Text)>)
    requires t != []
    ensures r.Some? ==> |r.value.1| < |t|
  {
    if t[0] == 0x5C then
      if |t| >= 2 && Escapes(t[1]).Some? then Some((Escapes(t[1]).value, t[2..]))
      else if |t| >= 6 && t[1] == 0x75 && ReadHex(t[2..6]).Some? then Some((ReadHex(t[2..6]).value, t[6..]))
      else None
    else if t[0] < 0x20 then None
    else Some((t[0], t[1..]))
  }

  /** A string, from after its opening quote. */
  function ReadString(t: Text): (r: Option<(Text, Text)>)
    ensures r.Some? ==> |r.value.1| < |t|
    decreases |t|
  {
    if t == [] then None
    else if t[0] == 0x22 then Some(([], t[1..]))
    else
      match ReadUnit(t)
      case None => None
      case Some((u, rest)) =>
        match ReadString(rest)
        case None => None
        case Some((s, more)) => Some(([u] + s, more))
  }

  // ---- numbers ----------------------------------------------------------------------------------------

  predicate IsDigit(u: Unit) { 0x30 <= u <= 0x39 }

  /** How many digits a text begins with. */
  function Run(t: Text): (n: nat)
    ensures n <= |t|
  {
    if t == [] || !IsDigit(t[0]) then 0 else 1 + Run(t[1..])
  }

  function ToDigit(u: Unit): Digit { if IsDigit(u) then u - 0x30 else 0 }

  function ToDigits(t: Text): seq<Digit> { seq(|t|, i requires 0 <= i < |t| => ToDigit(t[i])) }

  function Natural(digits: seq<Digit>): nat {
    if digits == [] then 0 else Natural(digits[..|digits| - 1]) * 10 + digits[|digits| - 1]
  }

  /** Zeros at either end of a decimal fraction say nothing, but those in front move the point. */
  function Normal(negative: bool, digits: seq<Digit>, point: int): Num
    decreases |digits|
  {
    if digits == [] then Zero(negative)
    else if digits[0] == 0 then Normal(negative, digits[1..], point - 1)
    else if digits[|digits| - 1] == 0 then Normal(negative, digits[..|digits| - 1], point)
    else Finite(negative, digits, point)
  }

  /** The exponent, if there is one, and what follows it. */
  function ReadExponent(t: Text): (r: Option<(int, Text)>)
    ensures r.Some? ==> |r.value.1| <= |t|
  {
    if t == [] || (t[0] != 0x65 && t[0] != 0x45) then Some((0, t))
    else
      var signed := |t| > 1 && (t[1] == 0x2B || t[1] == 0x2D);
      var from := if signed then 2 else 1;
      var n := Run(t[from..]);
      if n == 0 then None
      else
        var size: int := Natural(ToDigits(t[from..][..n]));
        Some((if signed && t[1] == 0x2D then -size else size, t[from..][n..]))
  }

  /** The digits after a point, if there is one. */
  function ReadFraction(t: Text): (r: Option<(Text, Text)>)
    ensures r.Some? ==> |r.value.1| <= |t|
  {
    if t == [] || t[0] != 0x2E then Some(([], t))
    else
      var n := Run(t[1..]);
      if n == 0 then None else Some((t[1..][..n], t[1..][n..]))
  }

  /** A number as it is written: all its digits, and how many of them are before the point. */
  datatype Numeral = Numeral(digits: seq<Digit>, point: int)

  /** A number without its sign. */
  function ReadMagnitude(t: Text): (r: Option<(Numeral, Text)>)
    ensures r.Some? ==> |r.value.1| < |t|
  {
    var n := Run(t);
    if n == 0 || (n > 1 && t[0] == 0x30) then None
    else
      match ReadFraction(t[n..])
      case None => None
      case Some((fraction, rest)) =>
        match ReadExponent(rest)
        case None => None
        case Some((exponent, more)) => Some((Numeral(ToDigits(t[..n]) + ToDigits(fraction), n + exponent), more))
  }

  // ---- values -----------------------------------------------------------------------------------------

  function ReadNumber(t: Text): (r: Option<(Json, Text)>)
    requires t != []
    ensures r.Some? ==> |r.value.1| < |t|
  {
    var negative := t[0] == 0x2D;
    match ReadMagnitude(if negative then t[1..] else t)
    case None => None
    case Some((n, rest)) => Some((Number(Normal(negative, n.digits, n.point)), rest))
  }

  // ---- values -----------------------------------------------------------------------------------------

  /** What follows a word at the start of a text. */
  function AfterWord(t: Text, word: Text): (r: Option<Text>)
    requires word != []
    ensures r.Some? ==> |r.value| < |t|
  {
    if word <= t then Some(t[|word|..]) else None
  }

  function ReadWord(t: Text, word: Text, v: Json): (r: Option<(Json, Text)>)
    requires word != []
    ensures r.Some? ==> |r.value.1| < |t|
  {
    var rest := AfterWord(t, word);
    if rest.Some? then Some((v, rest.value)) else None
  }

  function ReadText(t: Text): (r: Option<(Json, Text)>)
    requires t != []
    ensures r.Some? ==> |r.value.1| < |t|
  {
    match ReadString(t[1..])
    case None => None
    case Some((s, rest)) => Some((Str(s), rest))
  }

  /** A value at the start of a text, and what follows it. */
  function ReadValue(t: Text): (r: Option<(Json, Text)>)
    ensures r.Some? ==> |r.value.1| < |t|
    decreases |t|, 1
  {
    if t == [] then None
    else if t[0] == 0x2D || IsDigit(t[0]) then ReadNumber(t)
    else if t[0] == 0x6E then ReadWord(t, [0x6E, 0x75, 0x6C, 0x6C], Null)
    else if t[0] == 0x74 then ReadWord(t, [0x74, 0x72, 0x75, 0x65], Bool(true))
    else if t[0] == 0x66 then ReadWord(t, [0x66, 0x61, 0x6C, 0x73, 0x65], Bool(false))
    else if t[0] == 0x22 then ReadText(t)
    else if t[0] == 0x5B then ReadArray(t)
    else if t[0] == 0x7B then ReadObject(t)
    else None
  }

  function ReadArray(t: Text): (r: Option<(Json, Text)>)
    requires t != []
    ensures r.Some? ==> |r.value.1| < |t|
    decreases |t|, 0
  {
    if |t| > 1 && t[1] == 0x5D then Some((Arr([]), t[2..]))
    else
      match ReadItems(t[1..])
      case None => None
      case Some((items, rest)) => Some((Arr(items), rest))
  }

  function ReadObject(t: Text): (r: Option<(Json, Text)>)
    requires t != []
    ensures r.Some? ==> |r.value.1| < |t|
    decreases |t|, 0
  {
    if |t| > 1 && t[1] == 0x7D then Some((Obj([]), t[2..]))
    else
      match ReadMembers(t[1..])
      case None => None
      case Some((entries, rest)) => Some((Obj(entries), rest))
  }

  function ReadItems(t: Text): (r: Option<(seq<Json>, Text)>)
    ensures r.Some? ==> |r.value.1| < |t|
    decreases |t|, 2
  {
    match ReadValue(t)
    case None => None
    case Some((item, rest)) =>
      if rest == [] then None
      else if rest[0] == 0x5D then Some(([item], rest[1..]))
      else if rest[0] != 0x2C then None
      else
        match ReadItems(rest[1..])
        case None => None
        case Some((items, more)) => Some(([item] + items, more))
  }

  function ReadMembers(t: Text): (r: Option<(seq<Entry>, Text)>)
    ensures r.Some? ==> |r.value.1| < |t|
    decreases |t|, 2
  {
    if t == [] || t[0] != 0x22 then None
    else
      match ReadString(t[1..])
      case None => None
      case Some((key, rest)) =>
        if rest == [] || rest[0] != 0x3A then None
        else
          match ReadValue(rest[1..])
          case None => None
          case Some((value, after)) =>
            if after == [] then None
            else if after[0] == 0x7D then Some(([Entry(key, value)], after[1..]))
            else if after[0] != 0x2C then None
            else
              match ReadMembers(after[1..])
              case None => None
              case Some((entries, more)) => Some(([Entry(key, value)] + entries, more))
  }
}
