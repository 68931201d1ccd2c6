/** The bytes of a country table one by one, and what is no table (packages/ingestion/adapter-geoip/src/table.ts). */
module CountryBytes {
  import opened Common
  import opened CountryIndex
  import opened CountryTable
  import opened CountryRoundTrip

  lemma {:induction false} CodeBytes(countries: seq<string>)
    requires CountryCodes(countries)
    ensures |Codes(countries)| == 2 * |countries|
    ensures forall i :: 0 <= i < |countries| ==>
      Codes(countries)[2 * i] == countries[i][0] as int && Codes(countries)[2 * i + 1] == countries[i][1] as int
  {
    if countries != [] {
      CodeBytes(countries[1..]);
      AsciiIs(countries[0]);
      var first, rest := Ascii(countries[0]), Codes(countries[1..]);
      forall i | 0 < i < |countries|
        ensures (first + rest)[2 * i] == countries[i][0] as int && (first + rest)[2 * i + 1] == countries[i][1] as int
      {
        assert rest[2 * (i - 1)] == countries[1..][i - 1][0] as int && rest[2 * (i - 1) + 1] == countries[1..][i - 1][1] as int;
      }
    }
  }

  lemma NumberBytes(n: nat)
    ensures U16(n) == [n % 256, n / 256 % 256]
    ensures U32(n) == [n % 256, n / 256 % 256, n / 0x1_0000 % 256, n / 0x100_0000 % 256]
  {
    assert n % 0x1_0000 % 256 == n % 256 && n % 0x1_0000 / 256 % 256 == n / 256 % 256;
    assert n / 0x1_0000 / 256 == n / 0x100_0000;
  }

  lemma MagicBytes()
    ensures Ascii(MAGIC) == [0x43, 0x54, 0x52, 0x59]
  {
    assert MAGIC[1..] == "TRY" && "TRY"[1..] == "RY" && "RY"[1..] == "Y" && "Y"[1..] == "";
    assert 'C' as int == 0x43 && 'T' as int == 0x54 && 'R' as int == 0x52 && 'Y' as int == 0x59;
  }

  lemma Pieces(magic: seq<Byte>, version: seq<Byte>, built: seq<Byte>, count: seq<Byte>, codes: seq<Byte>, axes: seq<Byte>)
    requires |magic| == 4 && |version| == 1 && |built| == 4 && |count| == 2
    ensures var b := magic + version + built + count + codes + axes;
      && b[..4] == magic && b[4..5] == version && b[5..9] == built && b[9..11] == count
      && b[11..11 + |codes|] == codes && b[11 + |codes|..] == axes
  {
  }

  lemma TablePieces(t: Table) returns (codes: seq<Byte>, axes: seq<Byte>)
    requires Writable(t)
    ensures codes == Codes(t.countries) && axes == Axis(t.v4) + Axis(t.v6)
    ensures var b := Encode(t);
      && b[..4] == Ascii(MAGIC) && b[4..5] == [1] && b[5..9] == U32(t.generatedAt) && b[9..11] == U16(|t.countries|)
      && |b| >= 11 + |codes| && b[11..11 + |codes|] == codes && b[11 + |codes|..] == axes
  {
    codes, axes := Codes(t.countries), Axis(t.v4) + Axis(t.v6);
    MagicBytes();
    InOnePiece(t, axes);
    Pieces(Ascii(MAGIC), [1], U32(t.generatedAt), U16(|t.countries|), codes, axes);
  }

  /** `CTRY`, the version, when the table was built and how many countries it has, the low bytes first. */
  lemma HeaderBytes(t: Table)
    requires Writable(t)
    ensures var b, n := Encode(t), |t.countries|;
      && |b| >= 11 && b[..5] == [0x43, 0x54, 0x52, 0x59, 1]
      && b[5..9] == [t.generatedAt % 256, t.generatedAt / 256 % 256, t.generatedAt / 0x1_0000 % 256, t.generatedAt / 0x100_0000 % 256]
      && b[9..11] == [n % 256, n / 256]
  {
    var _, _ := TablePieces(t);
    MagicBytes();
    NumberBytes(t.generatedAt);
    NumberBytes(|t.countries|);
    FiveBytes(Encode(t), 1);
  }

  /** Then two letters for each country, and the two axes. */
  lemma BodyBytes(t: Table)
    requires Writable(t)
    ensures var b, n := Encode(t), |t.countries|;
      && |b| >= 11 + 2 * n && b[11 + 2 * n..] == Axis(t.v4) + Axis(t.v6)
      && forall i :: 0 <= i < n ==> b[11 + 2 * i] == t.countries[i][0] as int && b[11 + (2 * i + 1)] == t.countries[i][1] as int
  {
    var codes, _ := TablePieces(t);
    CodeBytes(t.countries);
    CodesInside(Encode(t), 11, codes);
  }

  lemma InOnePiece(t: Table, axes: seq<Byte>)
    requires Writable(t) && axes == Axis(t.v4) + Axis(t.v6)
    ensures Encode(t) == Ascii(MAGIC) + [1] + U32(t.generatedAt) + U16(|t.countries|) + Codes(t.countries) + axes
  {
  }

  lemma CodesInside(b: seq<Byte>, from: nat, codes: seq<Byte>)
    requires from + |codes| <= |b| && b[from..from + |codes|] == codes
    ensures forall k :: 0 <= k < |codes| ==> b[from + k] == codes[k]
  {
    forall k | 0 <= k < |codes| ensures b[from + k] == codes[k] {
      assert b[from..from + |codes|][k] == b[from + k];
    }
  }

  lemma FiveBytes(b: seq<Byte>, version: Byte)
    requires |b| >= 5 && b[..4] == [0x43, 0x54, 0x52, 0x59] && b[4..5] == [version]
    ensures b[..5] == [0x43, 0x54, 0x52, 0x59, version]
  {
    assert b[..5] == b[..4] + b[4..5];
  }

  lemma MagicReads(bytes: seq<Byte>)
    ensures ReadAscii(bytes, 4).Truncated? <==> |bytes| < 4
    ensures |bytes| >= 4 ==> ReadAscii(bytes, 4).rest == bytes[4..]
    ensures |bytes| >= 4 ==> (ReadAscii(bytes, 4).value == MAGIC <==> bytes[..4] == [0x43, 0x54, 0x52, 0x59])
  {
    if |bytes| >= 4 {
      var text := ReadAscii(bytes, 4).value;
      assert text == [bytes[0] as char, bytes[1] as char, bytes[2] as char, bytes[3] as char];
      assert MAGIC == ['C', 'T', 'R', 'Y'] && 0x43 as char == 'C' && 0x54 as char == 'T' && 0x52 as char == 'R' && 0x59 as char == 'Y';
      if text == MAGIC { assert text[0] == 'C' && text[1] == 'T' && text[2] == 'R' && text[3] == 'Y'; }
    }
  }

  /** Bytes that do not begin with the magic are no table; another version is told; anything else that fails ended too soon. */
  lemma WhatIsNoTable(bytes: seq<Byte>)
    ensures Decode(bytes) == Err(NotATable) <==> |bytes| >= 4 && bytes[..4] != [0x43, 0x54, 0x52, 0x59]
    ensures forall v :: Decode(bytes) == Err(WrongVersion(v)) <==>
      |bytes| > 4 && bytes[..4] == [0x43, 0x54, 0x52, 0x59] && bytes[4] == v && v != 1
    ensures Decode(bytes) == Err(TooShort) <==>
      Decode(bytes).Err? && (|bytes| < 4 || (bytes[..4] == [0x43, 0x54, 0x52, 0x59] && (|bytes| == 4 || bytes[4] == 1)))
  {
    MagicReads(bytes);
    if |bytes| > 4 { assert bytes[4..][0] == bytes[4]; }
  }
}
