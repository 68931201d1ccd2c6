/**
 * From delegated address ranges to a list of boundaries (scripts/build-country-table.ts,
 * `toBoundaries`). Ranges may overlap in any way; every range covers at least one address.
 */
module CountrySweep {
  import opened Common

  datatype Range = Range(start: nat, span: nat, cc: string)

  /** "From `start` up to the next boundary: `cc`." The empty code is no country. */
  datatype Boundary = Boundary(start: nat, cc: string)

  function End(r: Range): nat { r.start + r.span }

  predicate Contains(r: Range, key: nat) { r.start <= key < End(r) }

  predicate Positive(ranges: seq<Range>) {
    forall i :: 0 <= i < |ranges| ==> ranges[i].span > 0
  }

  // ---- the reference: which range an address belongs to ------------------------------------------

  predicate NotAfter(a: Range, b: Range) {
    a.start < b.start || (a.start == b.start && a.span <= b.span)
  }

  /** Of the ranges containing `key`, the least by (start, span), the first given on a tie. */
  function Best(ranges: seq<Range>, key: nat): Option<Range> {
    if ranges == [] then None
    else
      var rest := Best(ranges[1..], key);
      if Contains(ranges[0], key) && (rest.None? || NotAfter(ranges[0], rest.value)) then Some(ranges[0]) else rest
  }

  function CountryOf(hit: Option<Range>): string {
    if hit.Some? then hit.value.cc else ""
  }

  /** Range `i` covers the key, as no range that starts earlier does, nor a shorter one from there, nor an equal one given earlier. */
  ghost predicate IsLeast(ranges: seq<Range>, key: nat, i: nat) {
    && i < |ranges| && ranges[i].start <= key < ranges[i].start + ranges[i].span
    && forall j :: 0 <= j < |ranges| && ranges[j].start <= key < ranges[j].start + ranges[j].span ==>
      || ranges[i].start < ranges[j].start
      || (ranges[i].start == ranges[j].start && ranges[i].span < ranges[j].span)
      || (ranges[i].start == ranges[j].start && ranges[i].span == ranges[j].span && i <= j)
  }

  /** `Best` is what its description says. */
  lemma {:induction false} BestIsLeast(ranges: seq<Range>, key: nat)
    ensures match Best(ranges, key)
      case None => forall j :: 0 <= j < |ranges| ==> !(ranges[j].start <= key < ranges[j].start + ranges[j].span)
      case Some(r) => exists i :: 0 <= i < |ranges| && ranges[i] == r && IsLeast(ranges, key, i)
  {
    if ranges != [] {
      BestIsLeast(ranges[1..], key);
      var rest := Best(ranges[1..], key);
      forall j | 0 < j < |ranges| ensures ranges[j] == ranges[1..][j - 1] {}
      if Contains(ranges[0], key) && (rest.None? || NotAfter(ranges[0], rest.value)) {
        assert IsLeast(ranges, key, 0);
      } else if rest.Some? {
        var i :| 0 <= i < |ranges[1..]| && ranges[1..][i] == rest.value && IsLeast(ranges[1..], key, i);
        assert ranges[i + 1] == rest.value && IsLeast(ranges, key, i + 1);
      }
    }
  }

  // ---- the order the sweep runs in ------------------------------------------------------------------

  function Insert(r: Range, sorted: seq<Range>): seq<Range> {
    if sorted == [] || NotAfter(r, sorted[0]) then [r] + sorted else [sorted[0]] + Insert(r, sorted[1..])
  }

  /** The stable sort by (start, span). */
  function Sort(ranges: seq<Range>): seq<Range> {
    if ranges == [] then [] else Insert(ranges[0], Sort(ranges[1..]))
  }

  predicate Sorted(ranges: seq<Range>) {
    forall i, j :: 0 <= i < j < |ranges| ==> NotAfter(ranges[i], ranges[j])
  }

  function FirstHit(ranges: seq<Range>, key: nat): Option<Range> {
    if ranges == [] then None
    else if Contains(ranges[0], key) then Some(ranges[0])
    else FirstHit(ranges[1..], key)
  }

  lemma {:induction false} HitIn(ranges: seq<Range>, key: nat)
    requires FirstHit(ranges, key).Some?
    ensures exists i :: 0 <= i < |ranges| && ranges[i] == FirstHit(ranges, key).value
  {
    if !Contains(ranges[0], key) {
      HitIn(ranges[1..], key);
      var i :| 0 <= i < |ranges[1..]| && ranges[1..][i] == FirstHit(ranges, key).value;
      assert ranges[i + 1] == FirstHit(ranges, key).value;
    } else {
      assert ranges[0] == FirstHit(ranges, key).value;
    }
  }

  lemma {:induction false} InsertSorts(r: Range, sorted: seq<Range>)
    requires Sorted(sorted)
    ensures Sorted(Insert(r, sorted)) && multiset(Insert(r, sorted)) == multiset(sorted) + multiset{r}
  {
    if sorted != [] && !NotAfter(r, sorted[0]) {
      InsertSorts(r, sorted[1..]);
      var rest := Insert(r, sorted[1..]);
      forall x | x in rest ensures NotAfter(sorted[0], x) {
        assert x in multiset(rest);
        if x != r { assert x in sorted[1..]; }
      }
      assert sorted == [sorted[0]] + sorted[1..];
    }
  }

  lemma {:induction false} InsertHit(r: Range, sorted: seq<Range>, key: nat)
    requires Sorted(sorted)
    ensures var hit := FirstHit(sorted, key);
      FirstHit(Insert(r, sorted), key) ==
      if Contains(r, key) && (hit.None? || NotAfter(r, hit.value)) then Some(r) else hit
  {
    if sorted == [] {
    } else if NotAfter(r, sorted[0]) {
      assert ([r] + sorted)[1..] == sorted;
      if FirstHit(sorted, key).Some? { HitIn(sorted, key); }
    } else {
      assert ([sorted[0]] + Insert(r, sorted[1..]))[1..] == Insert(r, sorted[1..]);
      InsertHit(r, sorted[1..], key);
    }
  }

  /** Sorting keeps the ranges, orders them, and makes the best range the first that contains the key. */
  lemma {:induction false} SortSorts(ranges: seq<Range>)
    ensures Sorted(Sort(ranges)) && multiset(Sort(ranges)) == multiset(ranges)
    ensures forall key :: FirstHit(Sort(ranges), key) == Best(ranges, key)
  {
    if ranges != [] {
      SortSorts(ranges[1..]);
      InsertSorts(ranges[0], Sort(ranges[1..]));
      forall key ensures FirstHit(Sort(ranges), key) == Best(ranges, key) {
        InsertHit(ranges[0], Sort(ranges[1..]), key);
      }
      assert ranges == [ranges[0]] + ranges[1..];
    }
  }

  // ---- boundary lists ---------------------------------------------------------------------------------

  /** The code of the last boundary at or below the key. */
  function Lookup(bs: seq<Boundary>, key: nat): string {
    if bs == [] then ""
    else if bs[|bs| - 1].start <= key then bs[|bs| - 1].cc
    else Lookup(bs[..|bs| - 1], key)
  }

  ghost predicate Increasing(bs: seq<Boundary>) {
    forall i, j :: 0 <= i < j < |bs| ==> bs[i].start < bs[j].start
  }

  /** A boundary list covers every address: it starts at 0 and increases. */
  ghost predicate Partition(bs: seq<Boundary>) {
    bs != [] && bs[0].start == 0 && Increasing(bs)
  }

  /** A partition that never states the same country twice in a row. */
  ghost predicate Canonical(bs: seq<Boundary>) {
    Partition(bs) && forall i :: 0 < i < |bs| ==> bs[i].cc != bs[i - 1].cc
  }

  ghost predicate SameMap(a: seq<Boundary>, b: seq<Boundary>) {
    forall key :: Lookup(a, key) == Lookup(b, key)
  }

  lemma LookupPush(bs: seq<Boundary>, b: Boundary, key: nat)
    ensures Lookup(bs + [b], key) == if b.start <= key then b.cc else Lookup(bs, key)
  {
    assert (bs + [b])[..|bs|] == bs;
  }

  lemma {:induction false} LookupAt(bs: seq<Boundary>, i: nat, key: nat)
    requires Increasing(bs) && i < |bs| && bs[i].start <= key && (i + 1 < |bs| ==> key < bs[i + 1].start)
    ensures Lookup(bs, key) == bs[i].cc
  {
    if i + 1 < |bs| {
      assert i + 1 < |bs| - 1 ==> bs[i + 1].start < bs[|bs| - 1].start;
      LookupAt(bs[..|bs| - 1], i, key);
    }
  }

  // ---- the sweep --------------------------------------------------------------------------------------

  /** Where the addresses covered so far end. */
  function MaxEnd(ranges: seq<Range>): nat {
    if ranges == [] then 0 else Max(MaxEnd(ranges[..|ranges| - 1]), End(ranges[|ranges| - 1]))
  }

  /** How many ranges reach into space an earlier range already took. */
  function Overlapping(sorted: seq<Range>): nat {
    if sorted == [] then 0
    else
      var before, last := sorted[..|sorted| - 1], sorted[|sorted| - 1];
      Overlapping(before) + if exists q :: q in before && End(q) > last.start then 1 else 0
  }

  lemma {:induction false} MaxEndIs(ranges: seq<Range>)
    ensures forall q :: q in ranges ==> End(q) <= MaxEnd(ranges)
    ensures ranges != [] ==> exists q :: q in ranges && End(q) == MaxEnd(ranges)
  {
    if ranges != [] {
      var before, last := ranges[..|ranges| - 1], ranges[|ranges| - 1];
      MaxEndIs(before);
      assert ranges == before + [last];
      if before != [] && MaxEnd(ranges) == MaxEnd(before) {
        var q :| q in before && End(q) == MaxEnd(before);
        assert q in ranges;
      } else {
        assert last in ranges;
      }
    }
  }

  lemma {:induction false} HitPush(ranges: seq<Range>, r: Range, key: nat)
    ensures FirstHit(ranges + [r], key) ==
      if FirstHit(ranges, key).Some? then FirstHit(ranges, key) else if Contains(r, key) then Some(r) else None
  {
    if ranges == [] {
      assert ranges + [r] == [r];
    } else {
      assert (ranges + [r])[1..] == ranges[1..] + [r];
      HitPush(ranges[1..], r, key);
    }
  }

  lemma {:induction false} HitNone(ranges: seq<Range>, key: nat)
    ensures FirstHit(ranges, key).None? <==> forall q :: q in ranges ==> !Contains(q, key)
  {
    if ranges != [] {
      HitNone(ranges[1..], key);
      assert ranges == [ranges[0]] + ranges[1..];
    }
  }

  /** What the sweep knows after the ranges `done`. */
  ghost predicate Swept(done: seq<Range>, bs: seq<Boundary>, cursor: nat) {
    && cursor == MaxEnd(done)
    && (bs == [] ==> cursor == 0)
    && (bs != [] ==> Partition(bs) && bs[|bs| - 1].start < cursor)
    && (forall key: nat :: key < cursor ==> Lookup(bs, key) == CountryOf(FirstHit(done, key)))
  }

  lemma SkipStep(done: seq<Range>, r: Range, bs: seq<Boundary>, cursor: nat)
    requires Swept(done, bs, cursor) && Sorted(done + [r]) && End(r) <= cursor
    ensures Swept(done + [r], bs, cursor)
  {
    assert (done + [r])[..|done|] == done;
    forall key: nat | key < cursor ensures FirstHit(done + [r], key) == FirstHit(done, key) {
      CoveredAlready(done, r, key);
      HitPush(done, r, key);
    }
  }

  /** Below the cursor, a later range never reaches an address no earlier range contains. */
  lemma CoveredAlready(done: seq<Range>, r: Range, key: nat)
    requires Sorted(done + [r]) && key < MaxEnd(done)
    ensures Contains(r, key) ==> FirstHit(done, key).Some?
  {
    MaxEndIs(done);
    HitNone(done, key);
    if Contains(r, key) {
      var q :| q in done && End(q) == MaxEnd(done);
      var i :| 0 <= i < |done| && done[i] == q;
      assert NotAfter((done + [r])[i], (done + [r])[|done|]);
      assert Contains(q, key);
    }
  }

  lemma PushStep(done: seq<Range>, r: Range, bs: seq<Boundary>, cursor: nat, bs': seq<Boundary>)
    requires Swept(done, bs, cursor) && Sorted(done + [r]) && End(r) > cursor && r.span > 0
    requires var start := Max(r.start, cursor);
      bs' == (if start > cursor then bs + [Boundary(cursor, "")] else bs) + [Boundary(start, r.cc)]
    ensures Swept(done + [r], bs', End(r))
  {
    assert (done + [r])[..|done|] == done;
    var start := Max(r.start, cursor);
    var gap := if start > cursor then bs + [Boundary(cursor, "")] else bs;
    assert Partition(bs');
    forall key: nat | key < End(r) ensures Lookup(bs', key) == CountryOf(FirstHit(done + [r], key)) {
      HitPush(done, r, key);
      LookupPush(gap, Boundary(start, r.cc), key);
      LookupPush(bs, Boundary(cursor, ""), key);
      if key < cursor {
        CoveredAlready(done, r, key);
      } else {
        MaxEndIs(done);
        HitNone(done, key);
      }
    }
  }

  lemma OverlapStep(done: seq<Range>, r: Range)
    requires Sorted(done + [r])
    ensures Overlapping(done + [r]) == Overlapping(done) + if MaxEnd(done) > r.start then 1 else 0
  {
    assert (done + [r])[..|done|] == done;
    MaxEndIs(done);
  }

  method Sweep(sorted: seq<Range>) returns (bs: seq<Boundary>, overlaps: nat)
    requires Sorted(sorted) && Positive(sorted)
    ensures Partition(bs)
    ensures forall key :: Lookup(bs, key) == CountryOf(FirstHit(sorted, key))
    ensures bs[|bs| - 1] == Boundary(MaxEnd(sorted), "")
    ensures overlaps == Overlapping(sorted)
    ensures |bs| <= 2 * |sorted| + 1
  {
    bs, overlaps := [], 0;
    var cursor := 0;
    for i := 0 to |sorted|
      invariant Swept(sorted[..i], bs, cursor)
      invariant overlaps == Overlapping(sorted[..i])
      invariant |bs| <= 2 * i
    {
      var range := sorted[i];
      assert sorted[..i + 1] == sorted[..i] + [range];
      OverlapStep(sorted[..i], range);
      var start := Max(range.start, cursor);
      var end := End(range);
      if end <= cursor {
        overlaps := overlaps + 1;
        SkipStep(sorted[..i], range, bs, cursor);
        continue;
      }
      if start > range.start {
        overlaps := overlaps + 1;
      }
      ghost var before := bs;
      if start > cursor {
        bs := bs + [Boundary(cursor, "")];
      }
      bs := bs + [Boundary(start, range.cc)];
      PushStep(sorted[..i], range, before, cursor, bs);
      cursor := end;
    }
    assert sorted[..|sorted|] == sorted;
    forall key ensures Lookup(bs + [Boundary(cursor, "")], key) == CountryOf(FirstHit(sorted, key)) {
      LookupPush(bs, Boundary(cursor, ""), key);
      MaxEndIs(sorted);
      HitNone(sorted, key);
    }
    bs := bs + [Boundary(cursor, "")];
  }

  lemma MergeStep(done: seq<Boundary>, merged: seq<Boundary>, b: Boundary, merged': seq<Boundary>)
    requires Partition(done + [b]) && SameMap(merged, done)
    requires done == [] <==> merged == []
    requires merged != [] ==> Canonical(merged) && merged[|merged| - 1].start < b.start
    requires merged' == if merged != [] && merged[|merged| - 1].cc == b.cc then merged else merged + [b]
    ensures SameMap(merged', done + [b]) && Canonical(merged') && merged'[|merged'| - 1].start <= b.start
  {
    forall key ensures Lookup(merged', key) == Lookup(done + [b], key) {
      LookupPush(done, b, key);
      LookupPush(merged, b, key);
    }
  }

  /** Runs of one country become one boundary. */
  method Merge(boundaries: seq<Boundary>) returns (merged: seq<Boundary>)
    requires Partition(boundaries)
    ensures Canonical(merged) && SameMap(merged, boundaries)
    ensures |merged| <= |boundaries| && merged[|merged| - 1].start <= boundaries[|boundaries| - 1].start
  {
    merged := [];
    for i := 0 to |boundaries|
      invariant SameMap(merged, boundaries[..i])
      invariant i == 0 <==> merged == []
      invariant |merged| <= i
      invariant merged != [] ==> Canonical(merged) && merged[|merged| - 1].start <= boundaries[i - 1].start
    {
      var boundary := boundaries[i];
      assert boundaries[..i + 1] == boundaries[..i] + [boundary];
      MergeStep(boundaries[..i], merged, boundary,
                if merged != [] && merged[|merged| - 1].cc == boundary.cc then merged else merged + [boundary]);
      if merged != [] && merged[|merged| - 1].cc == boundary.cc {
        continue;
      }
      if merged != [] && merged[|merged| - 1].start == boundary.start {
        assert false;  // two boundaries never start at the same address
      }
      merged := merged + [boundary];
    }
    assert boundaries[..|boundaries|] == boundaries;
  }

  /**
   * Every address is looked up to the country of its best range, whatever the ranges overlap;
   * the list is canonical, and the overlap count is the number of ranges cut short or swallowed.
   */
  method ToBoundaries(ranges: seq<Range>) returns (bs: seq<Boundary>, overlaps: nat)
    requires Positive(ranges)
    ensures Canonical(bs)
    ensures forall key :: Lookup(bs, key) == CountryOf(Best(ranges, key))
    ensures overlaps == Overlapping(Sort(ranges))
    ensures |bs| <= 2 * |ranges| + 1 && bs[|bs| - 1].start <= MaxEnd(Sort(ranges))
    ensures forall i :: 0 <= i < |bs| ==> bs[i].cc == "" || exists r :: r in ranges && r.cc == bs[i].cc
  {
    SortSorts(ranges);
    var sorted := Sort(ranges);
    forall i | 0 <= i < |sorted| ensures sorted[i].span > 0 {
      assert sorted[i] in multiset(sorted);
      assert sorted[i] in ranges;
    }
    var boundaries;
    boundaries, overlaps := Sweep(sorted);
    if boundaries[0].start != 0 {
      assert false;  // the first boundary always starts at address 0
    }
    bs := Merge(boundaries);
    assert |multiset(sorted)| == |multiset(ranges)|;
    forall i | 0 <= i < |bs| ensures bs[i].cc == "" || exists r :: r in ranges && r.cc == bs[i].cc {
      LookupAt(bs, i, bs[i].start);
      BestIsLeast(ranges, bs[i].start);
    }
  }

  // ---- no shorter list says the same ---------------------------------------------------------------------

  function Starts(bs: seq<Boundary>): set<nat> { set i | 0 <= i < |bs| :: bs[i].start }

  lemma {:induction false} StartsCount(bs: seq<Boundary>)
    ensures |Starts(bs)| <= |bs|
    ensures Increasing(bs) ==> |Starts(bs)| == |bs|
  {
    if bs != [] {
      var init, last := bs[..|bs| - 1], bs[|bs| - 1];
      StartsCount(init);
      assert Starts(bs) == Starts(init) + {last.start} by {
        forall x | x in Starts(bs) ensures x in Starts(init) + {last.start} {
          var i :| 0 <= i < |bs| && bs[i].start == x;
          if i < |init| { assert init[i].start == x; }
        }
        forall x | x in Starts(init) ensures x in Starts(bs) {
          var i :| 0 <= i < |init| && init[i].start == x;
          assert bs[i].start == x;
        }
        assert bs[|bs| - 1].start in Starts(bs);
      }
    }
  }

  /** An address where no boundary starts is looked up like the address below it. */
  lemma {:induction false} NoBoundaryNoChange(bs: seq<Boundary>, key: nat)
    requires key > 0 && key !in Starts(bs)
    ensures Lookup(bs, key) == Lookup(bs, key - 1)
  {
    if bs != [] {
      var last := |bs| - 1;
      assert bs[last].start in Starts(bs);
      forall x | x in Starts(bs[..last]) ensures x in Starts(bs) {
        var i :| 0 <= i < last && bs[..last][i].start == x;
        assert bs[i].start == x;
      }
      NoBoundaryNoChange(bs[..last], key);
    }
  }

  lemma ChangeIsABoundary(bs: seq<Boundary>, key: nat)
    requires key > 0 && Lookup(bs, key) != Lookup(bs, key - 1)
    ensures key in Starts(bs)
  {
    if key !in Starts(bs) { NoBoundaryNoChange(bs, key); }
  }

  /** A canonical list is the shortest of all partitions with the same map: its boundaries are forced. */
  lemma CanonicalIsShortest(bs: seq<Boundary>, other: seq<Boundary>)
    requires Canonical(bs) && Partition(other) && SameMap(bs, other)
    ensures Starts(bs) <= Starts(other) && |bs| <= |other|
  {
    forall x | x in Starts(bs) ensures x in Starts(other) {
      var i :| 0 <= i < |bs| && bs[i].start == x;
      if i == 0 {
        assert other[0].start in Starts(other);
      } else {
        LookupAt(bs, i, x);
        LookupAt(bs, i - 1, x - 1);
        ChangeIsABoundary(other, x);
      }
    }
    StartsCount(bs);
    StartsCount(other);
    SubsetSize(Starts(bs), Starts(other));
  }

  lemma SubsetSize(a: set<nat>, b: set<nat>)
    requires a <= b
    ensures |a| <= |b|
  {
    assert b == a + (b - a);
  }
}
