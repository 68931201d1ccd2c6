/**
 * The bytes of the country table: the writer (scripts/build-country-table.ts), the reader and the
 * lookup (packages/ingestion/adapter-geoip/src/table.ts), and what the two do together.
 */
module CountryTable {
  import opened Common
  import opened CountryIndex

  // ---- writing -----------------------------------------------------------------------------------------

  function U16(value: nat): seq<Byte> { [value % 256, value / 256 % 256] }

  function U32(value: nat): seq<Byte> { U16(value % 0x10000) + U16(value / 0x10000) }

  function Ascii(text: string): seq<Byte> {
    if text == "" then [] else [text[0] as int % 256] + Ascii(text[1..])
  }

  class Writer {
    var bytes: seq<Byte>

    constructor ()
      ensures bytes == []
    {
      bytes := [];
    }

    method WriteU8(value: nat)
      modifies this
      ensures bytes == old(bytes) + [value % 256]
    {
      bytes := bytes + [value % 256];
    }

    method WriteU16(value: nat)
      modifies this
      ensures bytes == old(bytes) + U16(value)
    {
      WriteU8(value);
      WriteU8(value / 256);
    }

    method WriteU32(value: nat)
      modifies this
      ensures bytes == old(bytes) + U32(value)
    {
      WriteU16(value % 0x10000);
      WriteU16(value / 0x10000);
    }

    method WriteAscii(text: string)
      modifies this
      ensures bytes == old(bytes) + Ascii(text)
    {
      for i := 0 to |text|
        invariant bytes + Ascii(text[i..]) == old(bytes) + Ascii(text)
      {
        assert text[i..][1..] == text[i + 1..];
        WriteU8(text[i] as int);
      }
    }

    /** LEB128. */
    method WriteVarint(value: nat)
      modifies this
      ensures bytes == old(bytes) + Leb(value)
    {
      var rest := value;
      while rest >= 0x80
        invariant bytes + Leb(rest) == old(bytes) + Leb(value)
      {
        assert bytes + Leb(rest) == bytes + [rest % 0x80 + 0x80] + Leb(rest / 0x80);
        WriteU8(rest % 0x80 + 0x80);
        rest := rest / 0x80;
      }
      WriteU8(rest);
    }
  }

  // ---- reading -----------------------------------------------------------------------------------------

  /** A value read from the front of some bytes, or an end of input. */
  datatype Read<+T> = More(value: T, rest: seq<Byte>) | Truncated

  function Value<T>(r: Read<T>): Option<T> { if r.More? then Some(r.value) else None }

  function ReadU8(bytes: seq<Byte>): Read<nat> {
    if bytes == [] then Truncated else More(bytes[0], bytes[1..])
  }

  function ReadU16(bytes: seq<Byte>): Read<nat> {
    if |bytes| < 2 then Truncated
    else
      var low: nat, high: nat := bytes[0], bytes[1];
      More(low + 256 * high, bytes[2..])
  }

  function ReadU32(bytes: seq<Byte>): Read<nat> {
    match ReadU16(bytes)
    case Truncated => Truncated
    case More(low, rest) =>
      match ReadU16(rest)
      case Truncated => Truncated
      case More(high, rest) => More(low + high * 0x10000, rest)
  }

  function ReadAscii(bytes: seq<Byte>, length: nat): Read<string> {
    if |bytes| < length then Truncated
    else More(seq(length, i requires 0 <= i < length => bytes[i] as char), bytes[length..])
  }

  function ReadLeb(bytes: seq<Byte>): Read<nat> {
    if bytes == [] then Truncated
    else if bytes[0] < 0x80 then More(bytes[0], bytes[1..])
    else
      match ReadLeb(bytes[1..])
      case Truncated => Truncated
      case More(high, rest) => More(bytes[0] - 0x80 + 0x80 * high, rest)
  }

  class Reader {
    const bytes: seq<Byte>
    var at: nat

    ghost predicate Valid()
      reads this
    {
      at <= |bytes|
    }

    function Left(): seq<Byte>
      requires Valid()
      reads this
    {
      bytes[at..]
    }

    constructor (bytes: seq<Byte>)
      ensures Valid() && Left() == bytes
    {
      this.bytes, at := bytes, 0;
    }

    method U8() returns (r: Option<nat>)
      requires Valid()
      modifies this
      ensures Valid() && r == Value(ReadU8(old(Left())))
      ensures r.Some? ==> Left() == ReadU8(old(Left())).rest
    {
      if at >= |bytes| {
        return None;
      }
      r := Some(bytes[at]);
      at := at + 1;
    }

    method U16() returns (r: Option<nat>)
      requires Valid()
      modifies this
      ensures Valid() && r == Value(ReadU16(old(Left())))
      ensures r.Some? ==> Left() == ReadU16(old(Left())).rest
    {
      var low :- U8();
      var high :- U8();
      return Some(low + 256 * high);
    }

    method U32() returns (r: Option<nat>)
      requires Valid()
      modifies this
      ensures Valid() && r == Value(ReadU32(old(Left())))
      ensures r.Some? ==> Left() == ReadU32(old(Left())).rest
    {
      var low :- U16();
      var high :- U16();
      return Some(low + high * 0x10000);
    }

    method AsciiText(length: nat) returns (r: Option<string>)
      requires Valid()
      modifies this
      ensures Valid() && r == Value(ReadAscii(old(Left()), length))
      ensures r.Some? ==> Left() == ReadAscii(old(Left()), length).rest
    {
      var text := "";
      for i := 0 to length
        invariant Valid() && i <= |old(Left())| && Left() == old(Left())[i..]
        invariant |text| == i && forall j :: 0 <= j < i ==> text[j] == old(Left())[j] as char
      {
        var c :- U8();
        text := text + [c as char];
      }
      assert text == ReadAscii(old(Left()), length).value;
      return Some(text);
    }

    method Varint() returns (r: Option<nat>)
      requires Valid()
      modifies this
      ensures Valid() && r == Value(ReadLeb(old(Left())))
      ensures r.Some? ==> Left() == ReadLeb(old(Left())).rest
    {
      var value: nat, scale: nat := 0, 1;
      while true
        invariant Valid()
        invariant ReadLeb(old(Left())) ==
          match ReadLeb(Left()) case Truncated => Truncated case More(v, rest) => More(value + v * scale, rest)
        decreases |bytes| - at
      {
        ghost var left := Left();
        var byte :- U8();
        assert left[1..] == Left();
        if byte < 0x80 {
          return Some(value + byte * scale);
        }
        Shift(value, byte - 0x80, scale, ReadLeb(Left()));
        value := value + (byte - 0x80) * scale;
        scale := scale * 0x80;
      }
    }
  }

  lemma Shift(value: nat, low: nat, scale: nat, high: Read<nat>)
    ensures high.More? ==> value + (low + 0x80 * high.value) * scale == (value + low * scale) + high.value * (scale * 0x80)
  {
    if high.More? {
      var v := high.value;
      assert (low + 0x80 * v) * scale == low * scale + (0x80 * v) * scale;
      assert (0x80 * v) * scale == v * (scale * 0x80);
    }
  }

  // ---- the format ----------------------------------------------------------------------------------------

  datatype Row = Row(start: nat, country: nat)

  datatype Table = Table(generatedAt: nat, countries: seq<string>, v4: seq<Row>, v6: seq<Row>)

  const U16_LIMIT := 0x1_0000
  const U32_LIMIT := 0x1_0000_0000

  ghost predicate Ascending(previous: nat, rows: seq<Row>)
    decreases rows
  {
    rows != [] ==> previous <= rows[0].start && Ascending(rows[0].start, rows[1..])
  }

  function Codes(countries: seq<string>): seq<Byte> {
    if countries == [] then [] else Ascii(countries[0]) + Codes(countries[1..])
  }

  function Deltas(previous: nat, rows: seq<Row>): seq<Byte>
    requires Ascending(previous, rows)
    decreases rows
  {
    if rows == [] then []
    else Leb(rows[0].start - previous) + Leb(rows[0].country) + Deltas(rows[0].start, rows[1..])
  }

  function Axis(rows: seq<Row>): seq<Byte>
    requires Ascending(0, rows)
  {
    U32(|rows|) + Deltas(0, rows)
  }

  const MAGIC := "CTRY"

  function Encode(t: Table): seq<Byte>
    requires Ascending(0, t.v4) && Ascending(0, t.v6)
  {
    Ascii(MAGIC) + [1] + U32(t.generatedAt) + U16(|t.countries|) + Codes(t.countries) + Axis(t.v4) + Axis(t.v6)
  }

  /** Items read already, in front of those still to come. */
  function Prepend<T>(done: seq<T>, r: Read<seq<T>>): Read<seq<T>> {
    match r
    case Truncated => Truncated
    case More(more, rest) => More(done + more, rest)
  }

  lemma PrependOne<T>(done: seq<T>, x: T, r: Read<seq<T>>)
    ensures Prepend(done, Prepend([x], r)) == Prepend(done + [x], r)
    ensures Prepend([], r) == r
  {
    if r.More? {
      assert done + ([x] + r.value) == done + [x] + r.value;
      assert [] + r.value == r.value;
    }
  }

  function ReadCodes(bytes: seq<Byte>, count: nat): Read<seq<string>> {
    if count == 0 then More([], bytes)
    else
      match ReadAscii(bytes, 2)
      case Truncated => Truncated
      case More(cc, rest) =>
        Prepend([cc], ReadCodes(rest, count - 1))
  }

  function ReadPair(bytes: seq<Byte>): Read<(nat, nat)> {
    match ReadLeb(bytes)
    case Truncated => Truncated
    case More(delta, rest) =>
      match ReadLeb(rest)
      case Truncated => Truncated
      case More(country, rest) => More((delta, country), rest)
  }

  /** Starts are stored modulo `width` (0: not cut off), countries in sixteen bits. */
  function Cut(start: nat, width: nat): nat { if width == 0 then start else start % width }

  function ReadRows(bytes: seq<Byte>, previous: nat, count: nat, width: nat): Read<seq<Row>>
    decreases count
  {
    if count == 0 then More([], bytes)
    else
      match ReadPair(bytes)
      case Truncated => Truncated
      case More((delta, country), rest) =>
        Prepend([Row(Cut(previous + delta, width), country % U16_LIMIT)],
                ReadRows(rest, previous + delta, count - 1, width))
  }

  datatype TableError = NotATable | WrongVersion(version: nat) | TooShort

  function ReadAxis(bytes: seq<Byte>, width: nat): Read<seq<Row>> {
    match ReadU32(bytes)
    case Truncated => Truncated
    case More(count, rest) => ReadRows(rest, 0, count, width)
  }

  function Decode(bytes: seq<Byte>): Result<Table, TableError> {
    var magic := ReadAscii(bytes, 4);
    if magic.Truncated? then Err(TooShort)
    else if magic.value != MAGIC then Err(NotATable)
    else
      var version := ReadU8(magic.rest);
      if version.Truncated? then Err(TooShort)
      else if version.value != 1 then Err(WrongVersion(version.value))
      else
        var generatedAt := ReadU32(version.rest);
        if generatedAt.Truncated? then Err(TooShort)
        else
          var count := ReadU16(generatedAt.rest);
          if count.Truncated? then Err(TooShort)
          else
            var countries := ReadCodes(count.rest, count.value);
            if countries.Truncated? then Err(TooShort)
            else
              var v4 := ReadAxis(countries.rest, U32_LIMIT);
              if v4.Truncated? then Err(TooShort)
              else
                var v6 := ReadAxis(v4.rest, 0);
                if v6.Truncated? then Err(TooShort)
                else Ok(Table(generatedAt.value, countries.value, v4.value, v6.value))
  }

  method NextPair(reader: Reader) returns (r: Option<(nat, nat)>)
    requires reader.Valid()
    modifies reader
    ensures reader.Valid() && r == Value(ReadPair(old(reader.Left())))
    ensures r.Some? ==> reader.Left() == ReadPair(old(reader.Left())).rest
  {
    var delta :- reader.Varint();
    var country :- reader.Varint();
    return Some((delta, country));
  }

  method FillRows(reader: Reader, starts: array<nat>, countries: array<nat>, width: nat) returns (r: Option<()>)
    requires reader.Valid() && starts != countries && starts.Length == countries.Length
    modifies reader, starts, countries
    ensures reader.Valid()
    ensures var rows := ReadRows(old(reader.Left()), 0, starts.Length, width);
      && (r.Some? <==> rows.More?)
      && (r.Some? ==> reader.Left() == rows.rest && RowsOf(starts[..], countries[..]) == rows.value)
  {
    var previous := 0;
    ghost var rows: seq<Row> := [];
    PrependOne([], Row(0, 0), ReadRows(reader.Left(), 0, starts.Length, width));
    for i := 0 to starts.Length
      invariant reader.Valid() && |rows| == i
      invariant forall j :: 0 <= j < i ==> rows[j] == Row(starts[j], countries[j])
      invariant ReadRows(old(reader.Left()), 0, starts.Length, width) ==
        Prepend(rows, ReadRows(reader.Left(), previous, starts.Length - i, width))
    {
      var pair :- NextPair(reader);
      var (delta, country) := pair;
      previous := previous + delta;
      starts[i] := Cut(previous, width);
      countries[i] := country % U16_LIMIT;
      ghost var row := Row(Cut(previous, width), country % U16_LIMIT);
      PrependOne(rows, row, ReadRows(reader.Left(), previous, starts.Length - i - 1, width));
      rows := rows + [row];
    }
    assert rows + [] == rows == RowsOf(starts[..], countries[..]);
    return Some(());
  }

  /** The two columns of an axis, side by side. */
  function RowsOf(starts: seq<nat>, countries: seq<nat>): seq<Row>
    requires |starts| == |countries|
  {
    seq(|starts|, i requires 0 <= i < |starts| => Row(starts[i], countries[i]))
  }

  method DecodeAxis(reader: Reader, width: nat) returns (r: Option<seq<Row>>)
    requires reader.Valid()
    modifies reader
    ensures reader.Valid() && r == Value(ReadAxis(old(reader.Left()), width))
    ensures r.Some? ==> reader.Left() == ReadAxis(old(reader.Left()), width).rest
  {
    var count :- reader.U32();
    var starts := new nat[count];
    var countries := new nat[count];
    var _ :- FillRows(reader, starts, countries, width);
    return Some(RowsOf(starts[..], countries[..]));
  }

  method DecodeCodes(reader: Reader, count: nat) returns (r: Option<seq<string>>)
    requires reader.Valid()
    modifies reader
    ensures reader.Valid() && r == Value(ReadCodes(old(reader.Left()), count))
    ensures r.Some? ==> reader.Left() == ReadCodes(old(reader.Left()), count).rest
  {
    var countries: seq<string> := [];
    PrependOne([], "", ReadCodes(reader.Left(), count));
    for i := 0 to count
      invariant reader.Valid()
      invariant ReadCodes(old(reader.Left()), count) == Prepend(countries, ReadCodes(reader.Left(), count - i))
    {
      ghost var left := reader.Left();
      var cc :- reader.AsciiText(2);
      PrependOne(countries, cc, ReadCodes(reader.Left(), count - i - 1));
      countries := countries + [cc];
    }
    assert countries + [] == countries;
    return Some(countries);
  }

  method DecodeTable(bytes: seq<Byte>) returns (r: Result<Table, TableError>)
    ensures r == Decode(bytes)
  {
    var reader := new Reader(bytes);
    var magic := reader.AsciiText(4);
    if magic.None? { return Err(TooShort); }
    if magic.value != MAGIC { return Err(NotATable); }
    var version := reader.U8();
    if version.None? { return Err(TooShort); }
    if version.value != 1 { return Err(WrongVersion(version.value)); }
    var generatedAt := reader.U32();
    if generatedAt.None? { return Err(TooShort); }
    var count := reader.U16();
    if count.None? { return Err(TooShort); }
    var countries := DecodeCodes(reader, count.value);
    if countries.None? { return Err(TooShort); }
    var v4 := DecodeAxis(reader, U32_LIMIT);
    if v4.None? { return Err(TooShort); }
    var v6 := DecodeAxis(reader, 0);
    if v6.None? { return Err(TooShort); }
    return Ok(Table(generatedAt.value, countries.value, v4.value, v6.value));
  }
}
