/** The reader gives back what the writer wrote, and the lookup in it finds the right country. */
module CountryRoundTrip {
  import opened Common
  import opened Sequences
  import opened CountrySweep
  import opened CountryIndex
  import opened CountryTable

  // ---- each part of the format reads back -------------------------------------------------------------

  lemma {:induction false} LebReads(value: nat, rest: seq<Byte>)
    ensures ReadLeb(Leb(value) + rest) == More(value, rest)
  {
    if value >= 0x80 {
      LebReads(value / 0x80, rest);
      assert (Leb(value) + rest)[1..] == Leb(value / 0x80) + rest;
    } else {
      assert (Leb(value) + rest)[1..] == rest;
    }
  }

  lemma U16Reads(value: nat, rest: seq<Byte>)
    ensures ReadU16(U16(value) + rest) == More(value % U16_LIMIT, rest)
  {
    assert (U16(value) + rest)[2..] == rest;
    assert value % 0x1_0000 == value % 256 + 256 * (value / 256 % 256);
  }

  lemma TwoHalves(value: nat)
    ensures value % 0x1_0000_0000 == value % 0x10000 + (value / 0x10000 % 0x10000) * 0x10000
    ensures value % 0x10000 % 0x10000 == value % 0x10000
  {
  }

  lemma U32Reads(value: nat, rest: seq<Byte>)
    ensures ReadU32(U32(value) + rest) == More(value % U32_LIMIT, rest)
  {
    U16Reads(value % 0x10000, U16(value / 0x10000) + rest);
    U16Reads(value / 0x10000, rest);
    assert U32(value) + rest == U16(value % 0x10000) + (U16(value / 0x10000) + rest);
    TwoHalves(value);
  }

  /** Text of one-byte characters. */
  predicate OneByte(text: string) { forall i :: 0 <= i < |text| ==> text[i] < 256 as char }

  lemma {:induction false} AsciiIs(text: string)
    requires OneByte(text)
    ensures |Ascii(text)| == |text| && forall i :: 0 <= i < |text| ==> Ascii(text)[i] == text[i] as int
  {
    if text != "" {
      AsciiIs(text[1..]);
    }
  }

  lemma AsciiReads(text: string, rest: seq<Byte>)
    requires OneByte(text)
    ensures ReadAscii(Ascii(text) + rest, |text|) == More(text, rest)
  {
    AsciiIs(text);
    assert (Ascii(text) + rest)[|text|..] == rest;
    assert ReadAscii(Ascii(text) + rest, |text|).value == text;
  }

  predicate CountryCodes(countries: seq<string>) {
    forall i :: 0 <= i < |countries| ==> |countries[i]| == 2 && OneByte(countries[i])
  }

  lemma {:induction false} CodesRead(countries: seq<string>, rest: seq<Byte>)
    requires CountryCodes(countries)
    ensures ReadCodes(Codes(countries) + rest, |countries|) == More(countries, rest)
  {
    if countries == [] {
      assert Codes(countries) + rest == rest;
    } else {
      CodesRead(countries[1..], rest);
      AsciiReads(countries[0], Codes(countries[1..]) + rest);
      assert Codes(countries) + rest == Ascii(countries[0]) + (Codes(countries[1..]) + rest);
      assert [countries[0]] + countries[1..] == countries;
    }
  }

  function CutRows(rows: seq<Row>, width: nat): seq<Row> {
    if rows == [] then []
    else [Row(Cut(rows[0].start, width), rows[0].country % U16_LIMIT)] + CutRows(rows[1..], width)
  }

  lemma PairReads(delta: nat, country: nat, rest: seq<Byte>)
    ensures ReadPair(Leb(delta) + (Leb(country) + rest)) == More((delta, country), rest)
  {
    LebReads(delta, Leb(country) + rest);
    LebReads(country, rest);
  }

  lemma DeltasOf(previous: nat, rows: seq<Row>, rest: seq<Byte>)
    requires rows != [] && Ascending(previous, rows)
    ensures Deltas(previous, rows) + rest ==
            Leb(rows[0].start - previous) + (Leb(rows[0].country) + (Deltas(rows[0].start, rows[1..]) + rest))
  {
  }

  lemma {:induction false} RowsRead(previous: nat, rows: seq<Row>, width: nat, rest: seq<Byte>)
    requires Ascending(previous, rows)
    ensures ReadRows(Deltas(previous, rows) + rest, previous, |rows|, width) == More(CutRows(rows, width), rest)
    decreases rows
  {
    if rows == [] {
      assert Deltas(previous, rows) + rest == rest;
    } else {
      var row, later := rows[0], Deltas(rows[0].start, rows[1..]) + rest;
      RowsRead(row.start, rows[1..], width, rest);
      DeltasOf(previous, rows, rest);
      PairReads(row.start - previous, row.country, later);
      RowReads(Deltas(previous, rows) + rest, previous, |rows| - 1, width, row, later);
    }
  }

  lemma RowReads(bytes: seq<Byte>, previous: nat, count: nat, width: nat, row: Row, later: seq<Byte>)
    requires row.start >= previous && ReadPair(bytes) == More((row.start - previous, row.country), later)
    ensures ReadRows(bytes, previous, count + 1, width) ==
            Prepend([Row(Cut(row.start, width), row.country % U16_LIMIT)], ReadRows(later, row.start, count, width))
  {
  }

  lemma AxisFrom(bytes: seq<Byte>, after: seq<Byte>, rows: seq<Row>, width: nat, rest: seq<Byte>)
    requires ReadU32(bytes) == More(|rows|, after) &&
      ReadRows(after, 0, |rows|, width) == More(CutRows(rows, width), rest)
    ensures ReadAxis(bytes, width) == More(CutRows(rows, width), rest)
  {
  }

  lemma AxisReads(rows: seq<Row>, width: nat, rest: seq<Byte>)
    requires Ascending(0, rows) && |rows| < U32_LIMIT
    ensures ReadAxis(Axis(rows) + rest, width) == More(CutRows(rows, width), rest)
  {
    var after := Deltas(0, rows) + rest;
    var bytes := Axis(rows) + rest;
    assert bytes == U32(|rows|) + after;
    assert ReadU32(bytes) == More(|rows|, after) by { U32Reads(|rows|, after); }
    assert ReadRows(after, 0, |rows|, width) == More(CutRows(rows, width), rest) by { RowsRead(0, rows, width, rest); }
    AxisFrom(bytes, after, rows, width, rest);
  }

  // ---- the whole table ----------------------------------------------------------------------------------

  /** Counts fit their fields, codes are two bytes, starts ascend. */
  ghost predicate Writable(t: Table) {
    && CountryCodes(t.countries) && |t.countries| < U16_LIMIT
    && Ascending(0, t.v4) && |t.v4| < U32_LIMIT
    && Ascending(0, t.v6) && |t.v6| < U32_LIMIT
  }

  /** What typed arrays and fixed fields keep of a table. */
  function Stored(t: Table): Table {
    Table(t.generatedAt % U32_LIMIT, t.countries, CutRows(t.v4, U32_LIMIT), CutRows(t.v6, 0))
  }

  lemma DecodeSteps(bytes: seq<Byte>, t: Table, b1: seq<Byte>, b2: seq<Byte>, b3: seq<Byte>, b4: seq<Byte>,
      b5: seq<Byte>, b6: seq<Byte>)
    requires ReadAscii(bytes, 4) == More(MAGIC, b1) && ReadU8(b1) == More(1, b2)
    requires ReadU32(b2) == More(t.generatedAt, b3) && ReadU16(b3) == More(|t.countries|, b4)
    requires ReadCodes(b4, |t.countries|) == More(t.countries, b5)
    requires ReadAxis(b5, U32_LIMIT) == More(t.v4, b6) && ReadAxis(b6, 0) == More(t.v6, [])
    ensures Decode(bytes) == Ok(t)
  {
  }

  lemma HeaderReads(generatedAt: nat, count: nat, b4: seq<Byte>) returns (b1: seq<Byte>, b2: seq<Byte>, b3: seq<Byte>)
    requires count < U16_LIMIT
    ensures b3 == U16(count) + b4 && b2 == U32(generatedAt) + b3 && b1 == [1] + b2
    ensures ReadAscii(Ascii(MAGIC) + b1, 4) == More(MAGIC, b1) && ReadU8(b1) == More(1, b2)
    ensures ReadU32(b2) == More(generatedAt % U32_LIMIT, b3) && ReadU16(b3) == More(count, b4)
  {
    b3 := U16(count) + b4;
    b2 := U32(generatedAt) + b3;
    b1 := [1] + b2;
    AsciiReads(MAGIC, b1);
    assert b1[1..] == b2;
    U32Reads(generatedAt, b3);
    U16Reads(count, b4);
  }

  lemma BodyReads(t: Table) returns (b4: seq<Byte>, b5: seq<Byte>, b6: seq<Byte>)
    requires Writable(t)
    ensures b6 == Axis(t.v6) && b5 == Axis(t.v4) + b6 && b4 == Codes(t.countries) + b5
    ensures ReadCodes(b4, |t.countries|) == More(t.countries, b5)
    ensures ReadAxis(b5, U32_LIMIT) == More(CutRows(t.v4, U32_LIMIT), b6)
    ensures ReadAxis(b6, 0) == More(CutRows(t.v6, 0), [])
  {
    b6 := Axis(t.v6);
    b5 := Axis(t.v4) + b6;
    b4 := Codes(t.countries) + b5;
    CodesRead(t.countries, b5);
    AxisReads(t.v4, U32_LIMIT, b6);
    AxisReads(t.v6, 0, []);
    assert b6 + [] == b6;
  }

  lemma EncodeIs(t: Table, b1: seq<Byte>, b2: seq<Byte>, b3: seq<Byte>, b4: seq<Byte>, b5: seq<Byte>, b6: seq<Byte>)
    requires Writable(t)
    requires b6 == Axis(t.v6) && b5 == Axis(t.v4) + b6 && b4 == Codes(t.countries) + b5
    requires b3 == U16(|t.countries|) + b4 && b2 == U32(t.generatedAt) + b3 && b1 == [1] + b2
    ensures Encode(t) == Ascii(MAGIC) + b1
  {
  }

  lemma DecodeReads(t: Table)
    requires Writable(t)
    ensures Decode(Encode(t)) == Ok(Stored(t))
  {
    var b4, b5, b6 := BodyReads(t);
    var b1, b2, b3 := HeaderReads(t.generatedAt, |t.countries|, b4);
    EncodeIs(t, b1, b2, b3, b4, b5, b6);
    DecodeSteps(Ascii(MAGIC) + b1, Stored(t), b1, b2, b3, b4, b5, b6);
  }

  lemma {:induction false} CutRowsAt(rows: seq<Row>, width: nat)
    ensures |CutRows(rows, width)| == |rows|
    ensures forall i :: 0 <= i < |rows| ==>
      && CutRows(rows, width)[i].start == (if width == 0 then rows[i].start else rows[i].start % width)
      && CutRows(rows, width)[i].country == rows[i].country % 0x1_0000
  {
    if rows != [] {
      CutRowsAt(rows[1..], width);
    }
  }

  /** Every start and country number fits where the reader stores it. */
  ghost predicate Storable(t: Table) {
    && t.generatedAt < U32_LIMIT
    && (forall i :: 0 <= i < |t.v4| ==> t.v4[i].start < U32_LIMIT && t.v4[i].country < U16_LIMIT)
    && (forall i :: 0 <= i < |t.v6| ==> t.v6[i].country < U16_LIMIT)
  }

  lemma StoredIff(t: Table)
    ensures Stored(t) == t <==> Storable(t)
  {
    CutRowsAt(t.v4, U32_LIMIT);
    CutRowsAt(t.v6, 0);
    var s := Stored(t);
    if Storable(t) {
      assert s.v4 == t.v4 && s.v6 == t.v6;
    }
  }

  /**
   * The table comes back from its bytes exactly when every stored number fits: in particular when
   * no IPv4 boundary lies at or above 2^32, where the reader's 32-bit array would wrap it.
   */
  lemma RoundTripIff(t: Table)
    requires Writable(t)
    ensures Decode(Encode(t)) == Ok(t) <==> Storable(t)
  {
    DecodeReads(t);
    StoredIff(t);
  }

  /** Different tables have different bytes. */
  lemma EncodingIsUnique(t: Table, u: Table)
    requires Writable(t) && Storable(t) && Writable(u) && Storable(u) && Encode(t) == Encode(u)
    ensures t == u
  {
    RoundTripIff(t);
    RoundTripIff(u);
  }

  // ---- lookup --------------------------------------------------------------------------------------------

  /** The index of the last start at or below the key, or -1. */
  function Floor(starts: seq<nat>, key: nat): int {
    if starts == [] then -1
    else if starts[|starts| - 1] <= key then |starts| - 1
    else Floor(starts[..|starts| - 1], key)
  }

  lemma {:induction false} FloorIs(starts: seq<nat>, key: nat, at: int)
    requires -1 <= at < |starts| && (at >= 0 ==> starts[at] <= key)
    requires forall i :: at < i < |starts| ==> starts[i] > key
    ensures Floor(starts, key) == at
  {
    if at < |starts| - 1 { FloorIs(starts[..|starts| - 1], key, at); }
  }

  method FloorIndex(starts: seq<nat>, key: nat) returns (found: int)
    requires forall i, j :: 0 <= i < j < |starts| ==> starts[i] < starts[j]
    ensures found == Floor(starts, key)
  {
    var low, high := 0, |starts| - 1;
    found := -1;
    while low <= high
      invariant 0 <= low <= |starts| && -1 <= high < |starts| && found == low - 1
      invariant found >= 0 ==> starts[found] <= key
      invariant forall i :: high < i < |starts| ==> starts[i] > key
      decreases high - low
    {
      var middle := (low + high) / 2;
      if starts[middle] <= key {
        found := middle;
        low := middle + 1;
      } else {
        high := middle - 1;
      }
    }
    FloorIs(starts, key, found);
  }

  function StartsOf(rows: seq<Row>): (s: seq<nat>)
    ensures |s| == |rows| && forall i :: 0 <= i < |s| ==> s[i] == rows[i].start
  {
    if rows == [] then [] else StartsOf(rows[..|rows| - 1]) + [rows[|rows| - 1].start]
  }

  function CountryAt(countries: seq<string>, rows: seq<Row>, key: nat): Option<string> {
    var at := Floor(StartsOf(rows), key);
    if at < 0 || at >= |rows| then None
    else
      var number := rows[at].country;
      if number == 0 || number > |countries| then None else Some(countries[number - 1])
  }

  datatype Address = V4(key: nat) | V6(key: nat)

  function CountryOfKey(t: Table, address: Address): Option<string> {
    CountryAt(t.countries, if address.V4? then t.v4 else t.v6, address.key)
  }

  // ---- boundaries as rows ----------------------------------------------------------------------------------

  function Number(numbers: map<string, nat>, cc: string): nat {
    if cc in numbers then numbers[cc] else 0
  }

  function Rows(bs: seq<Boundary>, numbers: map<string, nat>): (rows: seq<Row>)
    ensures |rows| == |bs|
    ensures forall i :: 0 <= i < |bs| ==> rows[i] == Row(bs[i].start, Number(numbers, bs[i].cc))
  {
    if bs == [] then [] else [Row(bs[0].start, Number(numbers, bs[0].cc))] + Rows(bs[1..], numbers)
  }

  lemma {:induction false} RowsAscend(previous: nat, bs: seq<Boundary>, numbers: map<string, nat>)
    requires Increasing(bs) && (bs != [] ==> previous <= bs[0].start)
    ensures Ascending(previous, Rows(bs, numbers))
    decreases bs
  {
    if bs != [] {
      RowsAscend(bs[0].start, bs[1..], numbers);
      assert Rows(bs, numbers)[1..] == Rows(bs[1..], numbers);
    }
  }

  lemma {:induction false} FloorOfRows(bs: seq<Boundary>, numbers: map<string, nat>, key: nat)
    requires Increasing(bs)
    ensures var at := Floor(StartsOf(Rows(bs, numbers)), key);
      -1 <= at < |bs| && (at >= 0 ==> Lookup(bs, key) == bs[at].cc) && (at < 0 ==> Lookup(bs, key) == "")
  {
    var starts := StartsOf(Rows(bs, numbers));
    if bs != [] {
      var init := bs[..|bs| - 1];
      FloorOfRows(init, numbers, key);
      assert starts[..|bs| - 1] == StartsOf(Rows(init, numbers));
    }
  }

  /** The country the empty code stands for is none. */
  function AsCountry(cc: string): Option<string> { if cc == "" then None else Some(cc) }

  /** Looking up in the rows is looking up in the boundaries, when every code has its number. */
  lemma RowsLookUp(bs: seq<Boundary>, codes: seq<string>, key: nat)
    requires Increasing(bs) && Distinct(codes) && "" !in codes
    requires forall i :: 0 <= i < |bs| && bs[i].cc != "" ==> bs[i].cc in codes
    ensures CountryAt(codes, Rows(bs, Numbering(codes)), key) == AsCountry(Lookup(bs, key))
  {
    var numbers := Numbering(codes);
    NumberingIs(codes);
    FloorOfRows(bs, numbers, key);
    var at := Floor(StartsOf(Rows(bs, numbers)), key);
    if at >= 0 && bs[at].cc != "" {
      var i :| 0 <= i < |codes| && codes[i] == bs[at].cc;
      assert numbers[codes[i]] == i + 1;
    }
  }
}
