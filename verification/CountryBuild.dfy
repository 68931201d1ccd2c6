/** The whole pipeline: delegated ranges in, bytes out, and what every address is looked up to. */
module CountryBuild {
  import opened Common
  import opened Sequences
  import opened CountrySweep
  import opened CountryIndex
  import opened CountryTable
  import opened CountryRoundTrip

  /** An alpha-2 code. */
  predicate Alpha2(cc: string) {
    |cc| == 2 && 'A' <= cc[0] <= 'Z' && 'A' <= cc[1] <= 'Z'
  }

  predicate Delegated(ranges: seq<Range>) {
    Positive(ranges) && forall i :: 0 <= i < |ranges| ==> Alpha2(ranges[i].cc)
  }

  /** The codes of the boundaries that name a country, in order. */
  function Named(bs: seq<Boundary>): seq<string> {
    if bs == [] then []
    else (if bs[0].cc == "" then [] else [bs[0].cc]) + Named(bs[1..])
  }

  lemma {:induction false} NamedHas(bs: seq<Boundary>)
    ensures forall i :: 0 <= i < |bs| && bs[i].cc != "" ==> bs[i].cc in Named(bs)
    ensures forall cc :: cc in Named(bs) ==> cc != "" && exists i :: 0 <= i < |bs| && bs[i].cc == cc
  {
    if bs != [] {
      NamedHas(bs[1..]);
      forall cc | cc in Named(bs) ensures cc != "" && exists i :: 0 <= i < |bs| && bs[i].cc == cc {
        if cc in Named(bs[1..]) {
          var i :| 0 <= i < |bs[1..]| && bs[1..][i].cc == cc;
          assert bs[i + 1].cc == cc;
        } else {
          assert bs[0].cc == cc;
        }
      }
    }
  }

  // ---- there are few enough codes --------------------------------------------------------------------

  function CodeNumber(cc: string): nat
    requires Alpha2(cc)
  {
    (cc[0] as int - 'A' as int) * 26 + (cc[1] as int - 'A' as int) + 1
  }

  lemma SameNumber(a: string, b: string)
    requires Alpha2(a) && Alpha2(b)
    ensures CodeNumber(a) == CodeNumber(b) <==> a == b
  {
    if CodeNumber(a) == CodeNumber(b) {
      assert a[0] == b[0] && a[1] == b[1];
    }
  }

  lemma FewCodes(codes: seq<string>)
    requires Distinct(codes) && forall i :: 0 <= i < |codes| ==> Alpha2(codes[i])
    ensures |codes| <= 676
  {
    var s: seq<nat> := seq(|codes|, i requires 0 <= i < |codes| => CodeNumber(codes[i]));
    forall i, j | 0 <= i < j < |s| ensures s[i] != s[j] {
      SameNumber(codes[i], codes[j]);
    }
    Pigeonhole(s, 676);
  }

  // ---- the pipeline -----------------------------------------------------------------------------------

  function TableOf(generatedAt: nat, codes: seq<string>, four: seq<Boundary>, six: seq<Boundary>): Table {
    Table(generatedAt, codes, Rows(four, Numbering(codes)), Rows(six, Numbering(codes)))
  }

  /** What `toBoundaries` and the ranking promise about the parts of a table. */
  ghost predicate Parts(v4: seq<Range>, v6: seq<Range>, codes: seq<string>, four: seq<Boundary>, six: seq<Boundary>) {
    && Canonical(four) && (forall key :: Lookup(four, key) == CountryOf(Best(v4, key)))
    && Canonical(six) && (forall key :: Lookup(six, key) == CountryOf(Best(v6, key)))
    && Ranked(Named(four) + Named(six), codes)
  }

  /** The country of an address: that of the best of the delegated ranges that contain it. */
  function CountryOfAddress(v4: seq<Range>, v6: seq<Range>, address: Address): Option<string> {
    var hit := Best(if address.V4? then v4 else v6, address.key);
    if hit.Some? then Some(hit.value.cc) else None
  }

  lemma CodesCover(codes: seq<string>, four: seq<Boundary>, six: seq<Boundary>)
    requires Ranked(Named(four) + Named(six), codes)
    ensures "" !in codes
    ensures forall i :: 0 <= i < |four| && four[i].cc != "" ==> four[i].cc in codes
    ensures forall i :: 0 <= i < |six| && six[i].cc != "" ==> six[i].cc in codes
  {
    NamedHas(four);
    NamedHas(six);
    var all := Named(four) + Named(six);
    forall i | 0 <= i < |four| && four[i].cc != "" ensures four[i].cc in codes { assert four[i].cc in all; }
    forall i | 0 <= i < |six| && six[i].cc != "" ensures six[i].cc in codes { assert six[i].cc in all; }
    assert "" !in all;
  }

  lemma RowsFind(ranges: seq<Range>, bs: seq<Boundary>, codes: seq<string>, key: nat)
    requires Delegated(ranges) && Increasing(bs) && Lookup(bs, key) == CountryOf(Best(ranges, key))
    requires Distinct(codes) && "" !in codes && forall i :: 0 <= i < |bs| && bs[i].cc != "" ==> bs[i].cc in codes
    ensures var hit := Best(ranges, key);
      CountryAt(codes, Rows(bs, Numbering(codes)), key) == if hit.Some? then Some(hit.value.cc) else None
  {
    RowsLookUp(bs, codes, key);
    BestIsLeast(ranges, key);
  }

  lemma TableLooksUp(v4: seq<Range>, v6: seq<Range>, codes: seq<string>, four: seq<Boundary>, six: seq<Boundary>,
                     generatedAt: nat, address: Address)
    requires Delegated(v4) && Delegated(v6) && Parts(v4, v6, codes, four, six)
    ensures CountryOfKey(TableOf(generatedAt, codes, four, six), address) == CountryOfAddress(v4, v6, address)
  {
    CodesCover(codes, four, six);
    if address.V4? {
      RowsFind(v4, four, codes, address.key);
    } else {
      RowsFind(v6, six, codes, address.key);
    }
  }

  lemma DeltasStep(previous: nat, rows: seq<Row>, i: nat)
    requires i < |rows| && Ascending(previous, rows[i..])
    ensures previous <= rows[i].start && Ascending(rows[i].start, rows[i + 1..])
    ensures Deltas(previous, rows[i..]) ==
      Leb(rows[i].start - previous) + Leb(rows[i].country) + Deltas(rows[i].start, rows[i + 1..])
  {
    assert rows[i..][0] == rows[i] && rows[i..][1..] == rows[i + 1..];
  }

  lemma AppendRow(before: seq<Byte>, row: seq<Byte>, later: seq<Byte>)
    ensures before + row + later == before + (row + later)
  {
  }

  method WriteRow(w: Writer, delta: nat, number: nat)
    modifies w
    ensures w.bytes == old(w.bytes) + (Leb(delta) + Leb(number))
  {
    w.WriteVarint(delta);
    w.WriteVarint(number);
  }

  method WriteDeltas(w: Writer, bs: seq<Boundary>, numbers: map<string, nat>, ghost rows: seq<Row>)
    requires rows == Rows(bs, numbers) && Ascending(0, rows) && "" !in numbers
    modifies w
    ensures w.bytes == old(w.bytes) + Deltas(0, rows)
  {
    var previous := 0;
    assert rows[0..] == rows;
    for i := 0 to |bs|
      invariant Ascending(previous, rows[i..])
      invariant w.bytes + Deltas(previous, rows[i..]) == old(w.bytes) + Deltas(0, rows)
    {
      ghost var before := w.bytes;
      DeltasStep(previous, rows, i);
      WriteRow(w, bs[i].start - previous, if bs[i].cc == "" then 0 else Number(numbers, bs[i].cc));
      AppendRow(before, Leb(rows[i].start - previous) + Leb(rows[i].country), Deltas(rows[i].start, rows[i + 1..]));
      previous := bs[i].start;
    }
    assert rows[|bs|..] == [];
  }

  method WriteAxis(w: Writer, bs: seq<Boundary>, numbers: map<string, nat>)
    requires Partition(bs) && "" !in numbers
    modifies w
    ensures Ascending(0, Rows(bs, numbers))
    ensures w.bytes == old(w.bytes) + Axis(Rows(bs, numbers))
  {
    RowsAscend(0, bs, numbers);
    ghost var before := w.bytes;
    w.WriteU32(|bs|);
    WriteDeltas(w, bs, numbers, Rows(bs, numbers));
    assert before + U32(|bs|) + Deltas(0, Rows(bs, numbers)) == before + (U32(|bs|) + Deltas(0, Rows(bs, numbers)));
  }

  /** The bytes `main` writes for two boundary lists and the instant of the build. */
  method Emit(codes: seq<string>, numbers: map<string, nat>, four: seq<Boundary>, six: seq<Boundary>, generatedAt: nat)
    returns (bytes: seq<Byte>)
    requires Partition(four) && Partition(six) && numbers == Numbering(codes) && "" !in numbers
    ensures var t := TableOf(generatedAt, codes, four, six);
      Ascending(0, t.v4) && Ascending(0, t.v6) && bytes == Encode(t)
  {
    var writer := new Writer();
    writer.WriteAscii(MAGIC);
    assert writer.bytes == Ascii(MAGIC);
    writer.WriteU8(1);
    writer.WriteU32(generatedAt);
    writer.WriteU16(|codes|);
    ghost var head := writer.bytes;
    for i := 0 to |codes|
      invariant writer.bytes + Codes(codes[i..]) == head + Codes(codes)
    {
      assert codes[i..][1..] == codes[i + 1..];
      ghost var before := writer.bytes;
      writer.WriteAscii(codes[i]);
      AppendRow(before, Ascii(codes[i]), Codes(codes[i + 1..]));
    }
    assert codes[|codes|..] == [] && writer.bytes + [] == writer.bytes == head + Codes(codes);
    WriteAxis(writer, four, numbers);
    WriteAxis(writer, six, numbers);
    bytes := writer.bytes;
  }

  /** Where a legal range may end: the IPv4 reader keeps 32 bits, and an end is a boundary of its own. */
  predicate EndsBelow(ranges: seq<Range>, limit: nat) {
    forall i :: 0 <= i < |ranges| ==> ranges[i].start + ranges[i].span < limit
  }

  lemma SortedEnds(ranges: seq<Range>, limit: nat)
    requires EndsBelow(ranges, limit) && limit > 0
    ensures MaxEnd(Sort(ranges)) < limit
  {
    SortSorts(ranges);
    var sorted := Sort(ranges);
    MaxEndIs(sorted);
    forall q | q in sorted ensures End(q) < limit {
      assert q in multiset(sorted);
      assert q in ranges;
    }
  }

  lemma {:induction false} NamedAlpha(bs: seq<Boundary>)
    requires forall i :: 0 <= i < |bs| ==> bs[i].cc == "" || Alpha2(bs[i].cc)
    ensures forall cc :: cc in Named(bs) ==> Alpha2(cc)
  {
    if bs != [] { NamedAlpha(bs[1..]); }
  }

  lemma RankedCodes(named: seq<string>, codes: seq<string>)
    requires Ranked(named, codes) && forall cc :: cc in named ==> Alpha2(cc)
    ensures |codes| <= 676 && CountryCodes(codes) && "" !in Numbering(codes)
  {
    forall i | 0 <= i < |codes| ensures Alpha2(codes[i]) {
      assert codes[i] in codes;
    }
    FewCodes(codes);
    TwoBytes(codes);
    NumberingIs(codes);
    assert !Alpha2("");
  }

  lemma TwoBytes(codes: seq<string>)
    requires forall i :: 0 <= i < |codes| ==> Alpha2(codes[i])
    ensures CountryCodes(codes)
  {
  }

  lemma NumbersFit(bs: seq<Boundary>, codes: seq<string>)
    requires Distinct(codes) && |codes| <= 676
    ensures forall i :: 0 <= i < |bs| ==> Rows(bs, Numbering(codes))[i].country < U16_LIMIT
  {
    NumberingIs(codes);
    forall i | 0 <= i < |bs| ensures Number(Numbering(codes), bs[i].cc) < U16_LIMIT {
      if bs[i].cc in codes {
        var k :| 0 <= k < |codes| && codes[k] == bs[i].cc;
        assert Numbering(codes)[codes[k]] == k + 1;
      }
    }
  }

  /** Lists within the limits make a table that survives its bytes. */
  lemma TableStorable(generatedAt: nat, codes: seq<string>, four: seq<Boundary>, six: seq<Boundary>)
    requires generatedAt < U32_LIMIT && Distinct(codes) && |codes| <= 676 && CountryCodes(codes)
    requires Partition(four) && |four| < U32_LIMIT && four[|four| - 1].start < U32_LIMIT
    requires Partition(six) && |six| < U32_LIMIT
    ensures Writable(TableOf(generatedAt, codes, four, six)) && Storable(TableOf(generatedAt, codes, four, six))
  {
    NumbersFit(four, codes);
    NumbersFit(six, codes);
    RowsAscend(0, four, Numbering(codes));
    RowsAscend(0, six, Numbering(codes));
    forall i | 0 <= i < |four| ensures four[i].start < U32_LIMIT {
      assert i < |four| - 1 ==> four[i].start < four[|four| - 1].start;
    }
  }

  /**
   * From ranges to bytes and back: the reader accepts what is written, and looks every address up
   * to the country of the first delegated range, by (start, span), that contains it, and to none
   * when none does.
   */
  method Build(v4: seq<Range>, v6: seq<Range>, generatedAt: nat) returns (bytes: seq<Byte>)
    requires Delegated(v4) && Delegated(v6) && EndsBelow(v4, U32_LIMIT)
    requires 2 * |v4| + 1 < U32_LIMIT && 2 * |v6| + 1 < U32_LIMIT && generatedAt < U32_LIMIT
    ensures Decode(bytes).Ok?
    ensures forall address :: CountryOfKey(Decode(bytes).value, address) == CountryOfAddress(v4, v6, address)
  {
    var four, overlaps4 := ToBoundaries(v4);
    var six, overlaps6 := ToBoundaries(v6);
    var codes, numbers := NumberCodes(Named(four) + Named(six));
    SortedEnds(v4, U32_LIMIT);
    NamedAlpha(four);
    NamedAlpha(six);
    RankedCodes(Named(four) + Named(six), codes);
    bytes := Emit(codes, numbers, four, six, generatedAt);
    TableStorable(generatedAt, codes, four, six);
    RoundTripIff(TableOf(generatedAt, codes, four, six));
    forall address ensures CountryOfKey(Decode(bytes).value, address) == CountryOfAddress(v4, v6, address) {
      TableLooksUp(v4, v6, codes, four, six, generatedAt, address);
    }
  }

  // ---- no numbering makes the file shorter ---------------------------------------------------------------

  /** The bytes of an axis that do not depend on the numbering: deltas, and one zero for each gap. */
  function FixedSize(previous: nat, bs: seq<Boundary>): nat
    requires Increasing(bs) && (bs != [] ==> previous <= bs[0].start)
    decreases bs
  {
    if bs == [] then 0
    else LebLength(bs[0].start - previous) + (if bs[0].cc == "" then 1 else 0) + FixedSize(bs[0].start, bs[1..])
  }

  lemma {:induction false} DeltasSize(previous: nat, bs: seq<Boundary>, numbers: map<string, nat>)
    requires Increasing(bs) && (bs != [] ==> previous <= bs[0].start) && "" !in numbers
    requires forall cc :: cc in Named(bs) ==> cc in numbers
    ensures Ascending(previous, Rows(bs, numbers))
    ensures |Deltas(previous, Rows(bs, numbers))| == FixedSize(previous, bs) + ColumnSize(Named(bs), numbers)
    decreases bs
  {
    RowsAscend(previous, bs, numbers);
    if bs != [] {
      var rows, number := Rows(bs, numbers), Number(numbers, bs[0].cc);
      DeltasSize(bs[0].start, bs[1..], numbers);
      assert rows[1..] == Rows(bs[1..], numbers);
      LebLengthIs(bs[0].start - previous);
      LebLengthIs(number);
      if bs[0].cc != "" {
        assert Named(bs)[0] == bs[0].cc && Named(bs)[1..] == Named(bs[1..]);
      } else {
        assert Named(bs) == Named(bs[1..]);
      }
    }
  }

  lemma {:induction false} ColumnSizeConcat(a: seq<string>, b: seq<string>, numbers: map<string, nat>)
    requires forall cc :: cc in a || cc in b ==> cc in numbers
    ensures ColumnSize(a + b, numbers) == ColumnSize(a, numbers) + ColumnSize(b, numbers)
  {
    if a == [] {
      assert a + b == b;
    } else {
      assert (a + b)[1..] == a[1..] + b;
      ColumnSizeConcat(a[1..], b, numbers);
    }
  }

  /** The bytes of both axes under a numbering. */
  lemma AxesSize(four: seq<Boundary>, six: seq<Boundary>, numbers: map<string, nat>)
    requires Partition(four) && Partition(six) && "" !in numbers
    requires forall cc :: cc in Named(four) + Named(six) ==> cc in numbers
    ensures Ascending(0, Rows(four, numbers)) && Ascending(0, Rows(six, numbers))
    ensures |Axis(Rows(four, numbers))| + |Axis(Rows(six, numbers))|
      == 8 + FixedSize(0, four) + FixedSize(0, six) + ColumnSize(Named(four) + Named(six), numbers)
  {
    forall cc | cc in Named(four) || cc in Named(six) ensures cc in numbers {
      assert cc in Named(four) + Named(six);
    }
    DeltasSize(0, four, numbers);
    DeltasSize(0, six, numbers);
    ColumnSizeConcat(Named(four), Named(six), numbers);
  }

  /** Commonest first is optimal: no injective numbering from 1 makes the two axes shorter. */
  lemma CommonestFirstIsShortest(codes: seq<string>, four: seq<Boundary>, six: seq<Boundary>, numbers: map<string, nat>)
    requires Partition(four) && Partition(six) && Ranked(Named(four) + Named(six), codes)
    requires Injective(codes, numbers) && "" !in numbers
    ensures var own := Numbering(codes);
      && Ascending(0, Rows(four, own)) && Ascending(0, Rows(six, own))
      && Ascending(0, Rows(four, numbers)) && Ascending(0, Rows(six, numbers))
      && |Axis(Rows(four, own))| + |Axis(Rows(six, own))| <= |Axis(Rows(four, numbers))| + |Axis(Rows(six, numbers))|
  {
    CodesCover(codes, four, six);
    NumberingIs(codes);
    RankingIsOptimal(Named(four) + Named(six), codes, numbers);
    AxesSize(four, six, Numbering(codes));
    AxesSize(four, six, numbers);
  }

  // ---- the top of the address space ---------------------------------------------------------------------

  /** The highest end of the ranges, and a range that reaches it. */
  lemma TopRange(ranges: seq<Range>) returns (i: nat)
    requires ranges != []
    ensures i < |ranges| && forall j :: 0 <= j < |ranges| ==> End(ranges[j]) <= End(ranges[i])
  {
    i := 0;
    if |ranges| > 1 {
      i := TopRange(ranges[..|ranges| - 1]);
      if End(ranges[|ranges| - 1]) > End(ranges[i]) { i := |ranges| - 1; }
      forall j | 0 <= j < |ranges| ensures End(ranges[j]) <= End(ranges[i]) {
        if j < |ranges| - 1 { assert ranges[j] == ranges[..|ranges| - 1][j]; }
      }
    }
  }

  lemma NoBoundaryBeyond(ranges: seq<Range>, bs: seq<Boundary>, limit: nat, i: nat)
    requires Canonical(bs) && (forall key :: Lookup(bs, key) == CountryOf(Best(ranges, key)))
    requires EndsBelow(ranges, limit) && limit > 0 && i < |bs|
    ensures bs[i].start < limit
  {
    if bs[i].start >= limit {
      NothingBeyond(ranges, bs[i].start, limit - 1);
      NothingBeyond(ranges, bs[i].start - 1, limit - 1);
      LookupAt(bs, i, bs[i].start);
      LookupAt(bs, i - 1, bs[i].start - 1);
    }
  }

  lemma TopIsABoundary(ranges: seq<Range>, bs: seq<Boundary>, i: nat)
    requires Delegated(ranges) && (forall key :: Lookup(bs, key) == CountryOf(Best(ranges, key)))
    requires i < |ranges| && forall j :: 0 <= j < |ranges| ==> End(ranges[j]) <= End(ranges[i])
    ensures End(ranges[i]) in Starts(bs)
  {
    var top := End(ranges[i]);
    assert ranges[i].span > 0;
    NothingBeyond(ranges, top, top);
    BestIsLeast(ranges, top - 1);
    assert Contains(ranges[i], top - 1);
    ChangeIsABoundary(bs, top);
  }

  /** All boundaries lie below a limit exactly when all ranges end below it. */
  lemma BoundariesReachTheEnds(ranges: seq<Range>, bs: seq<Boundary>, limit: nat)
    requires Delegated(ranges) && Canonical(bs) && (forall key :: Lookup(bs, key) == CountryOf(Best(ranges, key)))
    requires limit > 0
    ensures (forall i :: 0 <= i < |bs| ==> bs[i].start < limit) <==> EndsBelow(ranges, limit)
  {
    if EndsBelow(ranges, limit) {
      forall i | 0 <= i < |bs| ensures bs[i].start < limit {
        NoBoundaryBeyond(ranges, bs, limit, i);
      }
    } else {
      var i := TopRange(ranges);
      TopIsABoundary(ranges, bs, i);
    }
  }

  lemma NothingBeyond(ranges: seq<Range>, key: nat, limit: nat)
    requires key >= limit && forall i :: 0 <= i < |ranges| ==> End(ranges[i]) <= limit
    ensures CountryOf(Best(ranges, key)) == ""
  {
    BestIsLeast(ranges, key);
  }

  /**
   * The IPv4 limit is exact: a built table comes back from its bytes if and only if every IPv4
   * range ends below 2^32. One that ends at the top of the address space does not.
   */
  lemma TableSurvivesIff(v4: seq<Range>, v6: seq<Range>, codes: seq<string>, four: seq<Boundary>, six: seq<Boundary>,
      generatedAt: nat)
    requires Delegated(v4) && Delegated(v6) && Parts(v4, v6, codes, four, six)
    requires |four| < U32_LIMIT && |six| < U32_LIMIT && generatedAt < U32_LIMIT && |codes| <= 676 && CountryCodes(codes)
    ensures var t := TableOf(generatedAt, codes, four, six);
      Writable(t) && (Decode(Encode(t)) == Ok(t) <==> EndsBelow(v4, U32_LIMIT))
  {
    var t := TableOf(generatedAt, codes, four, six);
    RowsAscend(0, four, Numbering(codes));
    RowsAscend(0, six, Numbering(codes));
    BoundariesReachTheEnds(v4, four, U32_LIMIT);
    if EndsBelow(v4, U32_LIMIT) {
      TableStorable(generatedAt, codes, four, six);
    } else {
      var i :| 0 <= i < |four| && four[i].start >= U32_LIMIT;
      assert t.v4[i].start >= U32_LIMIT;
    }
    RoundTripIff(t);
  }

  /** The whole IPv4 space delegated to one country: after the round trip, no address has one. */
  lemma TopOfSpaceWraps()
    ensures var t := TableOf(0, ["US"], [Boundary(0, "US"), Boundary(U32_LIMIT, "")], [Boundary(0, "")]);
      && Writable(t) && Decode(Encode(t)).Ok?
      && CountryOfAddress([Range(0, U32_LIMIT, "US")], [], V4(5)) == Some("US")
      && CountryOfKey(Decode(Encode(t)).value, V4(5)) == None
  {
    var four, six := [Boundary(0, "US"), Boundary(U32_LIMIT, "")], [Boundary(0, "")];
    var t := TableOf(0, ["US"], four, six);
    RowsAscend(0, four, Numbering(["US"]));
    RowsAscend(0, six, Numbering(["US"]));
    assert Best([Range(0, U32_LIMIT, "US")][1..], 5) == None;
    DecodeReads(t);
    CutRowsAt(t.v4, U32_LIMIT);
    FloorIs(StartsOf(Stored(t).v4), 5, 1);
    NumberingIs(["US"]);
    assert "" !in Numbering(["US"]);
  }
}
