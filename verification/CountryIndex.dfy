/**
 * Numbering the countries so that the table is short (scripts/build-country-table.ts, `main`):
 * commonest first, and the number written as a LEB128 varint.
 */
module CountryIndex {
  import opened Sequences

  type Byte = b: int | 0 <= b < 256 witness 0

  /** LEB128 (section 7.6 of DWARF version 5). */
  function Leb(value: nat): (bytes: seq<Byte>) {
    if value >= 0x80 then [value % 0x80 + 0x80] + Leb(value / 0x80) else [value]
  }

  function LebLength(value: nat): (n: nat)
    ensures n >= 1
  {
    if value >= 0x80 then 1 + LebLength(value / 0x80) else 1
  }

  lemma {:induction false} LebLengthIs(value: nat)
    ensures |Leb(value)| == LebLength(value)
  {
    if value >= 0x80 { LebLengthIs(value / 0x80); }
  }

  /** The number that sevens of bits denote, the low ones first. */
  ghost function Denoted(bytes: seq<Byte>): nat {
    if bytes == [] then 0 else bytes[0] % 128 + 128 * Denoted(bytes[1..])
  }

  /** Seven bits a byte, the low ones first; the eighth is set on every byte but the last; no byte too many. */
  lemma {:induction false} LebIs(value: nat)
    ensures Leb(value) != [] && Denoted(Leb(value)) == value
    ensures forall i :: 0 <= i < |Leb(value)| ==> (Leb(value)[i] >= 128 <==> i < |Leb(value)| - 1)
    ensures |Leb(value)| > 1 ==> Leb(value)[|Leb(value)| - 1] != 0
  {
    if value >= 0x80 {
      LebIs(value / 0x80);
      assert Leb(value)[1..] == Leb(value / 0x80);
    } else {
      assert Leb(value)[1..] == [];
    }
  }

  lemma {:induction false} LebLengthGrows(m: nat, n: nat)
    requires m <= n
    ensures LebLength(m) <= LebLength(n)
  {
    if m >= 0x80 { LebLengthGrows(m / 0x80, n / 0x80); }
  }

  // ---- counting and ordering the codes -------------------------------------------------------------

  function Count(occurrences: seq<string>, cc: string): nat { multiset(occurrences)[cc] }

  /** Alphabetical order, as `localeCompare` gives it for two capital letters. */
  predicate Alphabetical(a: string, b: string) {
    if a == "" then true
    else if b == "" then false
    else a[0] < b[0] || (a[0] == b[0] && Alphabetical(a[1..], b[1..]))
  }

  function Frequency(frequency: map<string, nat>, cc: string): nat {
    if cc in frequency then frequency[cc] else 0
  }

  /** The comparison of the sort: more frequent first, then alphabetical. */
  predicate Ahead(frequency: map<string, nat>, a: string, b: string) {
    Frequency(frequency, a) > Frequency(frequency, b) ||
    (Frequency(frequency, a) == Frequency(frequency, b) && Alphabetical(a, b))
  }

  function RankIn(frequency: map<string, nat>, cc: string, codes: seq<string>): seq<string> {
    if codes == [] || Ahead(frequency, cc, codes[0]) then [cc] + codes
    else [codes[0]] + RankIn(frequency, cc, codes[1..])
  }

  function Rank(frequency: map<string, nat>, keys: seq<string>): seq<string> {
    if keys == [] then [] else RankIn(frequency, keys[0], Rank(frequency, keys[1..]))
  }

  ghost predicate Descending(frequency: map<string, nat>, codes: seq<string>) {
    forall i, j :: 0 <= i < j < |codes| ==> Frequency(frequency, codes[i]) >= Frequency(frequency, codes[j])
  }

  ghost predicate CountsDescend(occurrences: seq<string>, codes: seq<string>) {
    forall i, j :: 0 <= i < j < |codes| ==> Count(occurrences, codes[i]) >= Count(occurrences, codes[j])
  }

  /** Every occurring code once, the more frequent never behind the less frequent. */
  ghost predicate Ranked(occurrences: seq<string>, codes: seq<string>) {
    Distinct(codes) && (forall cc :: cc in codes <==> cc in occurrences) && CountsDescend(occurrences, codes)
  }

  lemma {:induction false} InsertKeeps(frequency: map<string, nat>, cc: string, codes: seq<string>)
    ensures multiset(RankIn(frequency, cc, codes)) == multiset(codes) + multiset{cc}
  {
    if codes != [] && !Ahead(frequency, cc, codes[0]) {
      InsertKeeps(frequency, cc, codes[1..]);
      assert codes == [codes[0]] + codes[1..];
    }
  }

  /** No code is more frequent than `most`. */
  ghost predicate AtMost(frequency: map<string, nat>, codes: seq<string>, most: nat) {
    forall i :: 0 <= i < |codes| ==> Frequency(frequency, codes[i]) <= most
  }

  lemma {:induction false} InsertAtMost(frequency: map<string, nat>, cc: string, codes: seq<string>, most: nat)
    requires AtMost(frequency, codes, most) && Frequency(frequency, cc) <= most
    ensures AtMost(frequency, RankIn(frequency, cc, codes), most)
  {
    if codes != [] && !Ahead(frequency, cc, codes[0]) {
      InsertAtMost(frequency, cc, codes[1..], most);
    }
  }

  lemma FirstIsMost(frequency: map<string, nat>, first: string, codes: seq<string>)
    requires Descending(frequency, codes) && AtMost(frequency, codes, Frequency(frequency, first))
    ensures Descending(frequency, [first] + codes)
  {
  }

  lemma {:induction false} InsertRanks(frequency: map<string, nat>, cc: string, codes: seq<string>)
    requires Descending(frequency, codes)
    ensures Descending(frequency, RankIn(frequency, cc, codes))
  {
    if codes == [] {
    } else if Ahead(frequency, cc, codes[0]) {
      Behind(frequency, cc, codes);
    } else {
      InsertRanks(frequency, cc, codes[1..]);
      InsertAtMost(frequency, cc, codes[1..], Frequency(frequency, codes[0]));
      FirstIsMost(frequency, codes[0], RankIn(frequency, cc, codes[1..]));
    }
  }

  lemma Behind(frequency: map<string, nat>, cc: string, codes: seq<string>)
    requires codes != [] && Descending(frequency, codes) && Frequency(frequency, cc) >= Frequency(frequency, codes[0])
    ensures Descending(frequency, [cc] + codes)
  {
  }

  lemma {:induction false} RankSorts(frequency: map<string, nat>, keys: seq<string>)
    ensures Descending(frequency, Rank(frequency, keys)) && multiset(Rank(frequency, keys)) == multiset(keys)
  {
    if keys != [] {
      RankSorts(frequency, keys[1..]);
      InsertRanks(frequency, keys[0], Rank(frequency, keys[1..]));
      InsertKeeps(frequency, keys[0], Rank(frequency, keys[1..]));
      assert keys == [keys[0]] + keys[1..];
    }
  }

  /** The keys of the frequency map in insertion order, and the map. */
  method CountCodes(occurrences: seq<string>) returns (keys: seq<string>, frequency: map<string, nat>)
    ensures Distinct(keys) && forall cc :: cc in keys <==> cc in occurrences
    ensures forall cc :: Frequency(frequency, cc) == Count(occurrences, cc)
  {
    keys, frequency := [], map[];
    for i := 0 to |occurrences|
      invariant Distinct(keys) && forall cc :: cc in keys <==> cc in frequency
      invariant forall cc :: cc in frequency <==> cc in occurrences[..i]
      invariant forall cc :: Frequency(frequency, cc) == Count(occurrences[..i], cc)
    {
      var cc := occurrences[i];
      CountPush(occurrences[..i], cc);
      assert occurrences[..i + 1] == occurrences[..i] + [cc];
      if cc !in frequency {
        keys := keys + [cc];
      }
      frequency := frequency[cc := Frequency(frequency, cc) + 1];
    }
    assert occurrences[..|occurrences|] == occurrences;
  }

  lemma CountPush(occurrences: seq<string>, cc: string)
    ensures forall x :: Count(occurrences + [cc], x) == Count(occurrences, x) + if x == cc then 1 else 0
    ensures cc !in occurrences ==> Count(occurrences, cc) == 0
  {
  }

  lemma RankKeys(occurrences: seq<string>, frequency: map<string, nat>, keys: seq<string>)
    requires Distinct(keys) && forall cc :: cc in keys <==> cc in occurrences
    requires forall cc :: Frequency(frequency, cc) == Count(occurrences, cc)
    ensures Ranked(occurrences, Rank(frequency, keys))
  {
    var codes := Rank(frequency, keys);
    RankSorts(frequency, keys);
    DistinctMultiset(keys);
    MultisetDistinct(codes);
    forall cc ensures cc in codes <==> cc in keys {
      assert cc in codes <==> cc in multiset(codes);
      assert cc in keys <==> cc in multiset(keys);
    }
    forall i, j | 0 <= i < j < |codes| ensures Count(occurrences, codes[i]) >= Count(occurrences, codes[j]) {
      assert Frequency(frequency, codes[i]) >= Frequency(frequency, codes[j]);
    }
  }

  // ---- codes that are equally frequent ---------------------------------------------------------------

  /** One text is the start of the other, or smaller where they first differ. */
  ghost predicate InAlphabet(a: string, b: string) { exists k: nat :: SmallerFrom(a, b, k) }

  ghost predicate SmallerFrom(a: string, b: string, k: nat) {
    k <= |a| && k <= |b| && a[..k] == b[..k] && (k == |a| || (k < |b| && a[k] < b[k]))
  }

  /** Of two codes that occur equally often, the first in the alphabet is first. */
  ghost predicate TiesInAlphabet(occurrences: seq<string>, codes: seq<string>) {
    forall i, j :: 0 <= i < j < |codes| && Count(occurrences, codes[i]) == Count(occurrences, codes[j]) ==>
      InAlphabet(codes[i], codes[j])
  }

  lemma {:induction false} AlphabeticalIs(a: string, b: string) returns (k: nat)
    requires Alphabetical(a, b)
    ensures SmallerFrom(a, b, k)
  {
    k := 0;
    if a != "" && b != "" && a[0] == b[0] {
      var rest := AlphabeticalIs(a[1..], b[1..]);
      k := rest + 1;
      assert a[..k] == [a[0]] + a[1..][..rest] && b[..k] == [b[0]] + b[1..][..rest];
    }
  }

  lemma {:induction false} AlphabeticalChains(a: string, b: string, c: string)
    ensures Alphabetical(a, b) || Alphabetical(b, a)
    ensures Alphabetical(a, b) && Alphabetical(b, c) ==> Alphabetical(a, c)
  {
    if a != "" && b != "" && a[0] == b[0] {
      AlphabeticalChains(a[1..], b[1..], if c == "" then "" else c[1..]);
    }
  }

  lemma AheadChains(frequency: map<string, nat>, a: string, b: string, c: string)
    ensures Ahead(frequency, a, b) || Ahead(frequency, b, a)
    ensures Ahead(frequency, a, b) && Ahead(frequency, b, c) ==> Ahead(frequency, a, c)
  {
    AlphabeticalChains(a, b, c);
  }

  ghost predicate InOrder(frequency: map<string, nat>, codes: seq<string>) {
    forall i, j :: 0 <= i < j < |codes| ==> Ahead(frequency, codes[i], codes[j])
  }

  lemma {:induction false} InsertOrders(frequency: map<string, nat>, cc: string, codes: seq<string>)
    requires InOrder(frequency, codes)
    ensures InOrder(frequency, RankIn(frequency, cc, codes))
  {
    if codes == [] {
    } else if Ahead(frequency, cc, codes[0]) {
      forall j | 0 <= j < |codes| ensures Ahead(frequency, cc, codes[j]) {
        AheadChains(frequency, cc, codes[0], codes[j]);
      }
    } else {
      var rest := RankIn(frequency, cc, codes[1..]);
      InsertOrders(frequency, cc, codes[1..]);
      AheadChains(frequency, cc, codes[0], cc);
      InsertKeeps(frequency, cc, codes[1..]);
      forall j | 0 <= j < |rest| ensures Ahead(frequency, codes[0], rest[j]) {
        assert rest[j] in multiset(rest);
        if rest[j] != cc { assert rest[j] in codes[1..]; }
      }
    }
  }

  lemma {:induction false} RankOrders(frequency: map<string, nat>, keys: seq<string>)
    ensures InOrder(frequency, Rank(frequency, keys))
  {
    if keys != [] {
      RankOrders(frequency, keys[1..]);
      InsertOrders(frequency, keys[0], Rank(frequency, keys[1..]));
    }
  }

  lemma TiesAre(occurrences: seq<string>, frequency: map<string, nat>, codes: seq<string>)
    requires InOrder(frequency, codes) && forall cc :: Frequency(frequency, cc) == Count(occurrences, cc)
    ensures TiesInAlphabet(occurrences, codes)
  {
    forall i, j | 0 <= i < j < |codes| && Count(occurrences, codes[i]) == Count(occurrences, codes[j])
      ensures InAlphabet(codes[i], codes[j])
    {
      assert Ahead(frequency, codes[i], codes[j]);
      var k := AlphabeticalIs(codes[i], codes[j]);
    }
  }

  /** Ranks the codes of all boundaries; `numbers` gives the index written for each. */
  method NumberCodes(occurrences: seq<string>) returns (codes: seq<string>, numbers: map<string, nat>)
    ensures Ranked(occurrences, codes) && TiesInAlphabet(occurrences, codes)
    ensures numbers == Numbering(codes)
  {
    var keys, frequency := CountCodes(occurrences);
    RankKeys(occurrences, frequency, keys);
    codes := Rank(frequency, keys);
    RankOrders(frequency, keys);
    TiesAre(occurrences, frequency, codes);
    numbers := map[];
    for i := 0 to |codes|
      invariant numbers == Numbering(codes[..i])
    {
      assert codes[..i + 1] == codes[..i] + [codes[i]];
      NumberingPush(codes[..i], codes[i]);
      numbers := numbers[codes[i] := i + 1];
    }
    assert codes[..|codes|] == codes;
  }

  /** The first code is number 1: 0 stands for no country. */
  function Numbering(codes: seq<string>): map<string, nat> {
    if codes == [] then map[] else Numbering(codes[..|codes| - 1])[codes[|codes| - 1] := |codes|]
  }

  lemma NumberingPush(codes: seq<string>, cc: string)
    ensures Numbering(codes + [cc]) == Numbering(codes)[cc := |codes| + 1]
  {
    assert (codes + [cc])[..|codes|] == codes;
  }

  lemma {:induction false} NumberingIs(codes: seq<string>)
    requires Distinct(codes)
    ensures forall cc :: cc in Numbering(codes) <==> cc in codes
    ensures forall i :: 0 <= i < |codes| ==> Numbering(codes)[codes[i]] == i + 1
  {
    if codes != [] {
      var init := codes[..|codes| - 1];
      NumberingIs(init);
      assert codes == init + [codes[|codes| - 1]];
    }
  }

  // ---- no numbering makes the index column shorter ---------------------------------------------------

  /** The bytes the index column takes under a numbering. */
  function ColumnSize(occurrences: seq<string>, numbers: map<string, nat>): nat
    requires forall cc :: cc in occurrences ==> cc in numbers
  {
    if occurrences == [] then 0
    else ColumnSize(occurrences[1..], numbers) + LebLength(numbers[occurrences[0]])
  }

  /** The first `k` countries' share of the column: each country's count times its index's length. */
  function Weighted(occurrences: seq<string>, codes: seq<string>, numbers: map<string, nat>): nat
    requires forall cc :: cc in codes ==> cc in numbers
  {
    if codes == [] then 0
    else
      var last := |codes| - 1;
      Weighted(occurrences, codes[..last], numbers) + Count(occurrences, codes[last]) * LebLength(numbers[codes[last]])
  }

  function Lengths(codes: seq<string>, numbers: map<string, nat>): nat
    requires forall cc :: cc in codes ==> cc in numbers
  {
    if codes == [] then 0
    else Lengths(codes[..|codes| - 1], numbers) + LebLength(numbers[codes[|codes| - 1]])
  }

  lemma {:induction false} WeightedPush(occurrences: seq<string>, x: string, codes: seq<string>,
      numbers: map<string, nat>)
    requires Distinct(codes) && forall cc :: cc in codes ==> cc in numbers
    ensures Weighted([x] + occurrences, codes, numbers)
      == Weighted(occurrences, codes, numbers) + if x in codes then LebLength(numbers[x]) else 0
  {
    if codes != [] {
      var init, last := codes[..|codes| - 1], codes[|codes| - 1];
      assert codes == init + [last] && last !in init;
      WeightedPush(occurrences, x, init, numbers);
      CountFront(x, occurrences, last);
      OnceMore(Count(occurrences, last), LebLength(numbers[last]));
    }
  }

  lemma CountFront(x: string, occurrences: seq<string>, cc: string)
    ensures Count([x] + occurrences, cc) == Count(occurrences, cc) + if x == cc then 1 else 0
  {
    assert multiset([x] + occurrences) == multiset{x} + multiset(occurrences);
  }

  lemma OnceMore(n: nat, l: nat)
    ensures (n + 1) * l == n * l + l
  {
  }

  lemma {:induction false} WeightedNothing(codes: seq<string>, numbers: map<string, nat>)
    requires forall cc :: cc in codes ==> cc in numbers
    ensures Weighted([], codes, numbers) == 0
  {
    if codes != [] { WeightedNothing(codes[..|codes| - 1], numbers); }
  }

  lemma {:induction false} ColumnIsWeighted(occurrences: seq<string>, codes: seq<string>, numbers: map<string, nat>)
    requires Distinct(codes) && forall cc :: cc in codes ==> cc in numbers
    requires forall cc :: cc in occurrences ==> cc in codes
    ensures ColumnSize(occurrences, numbers) == Weighted(occurrences, codes, numbers)
  {
    if occurrences == [] {
      WeightedNothing(codes, numbers);
    } else {
      ColumnIsWeighted(occurrences[1..], codes, numbers);
      WeightedPush(occurrences[1..], occurrences[0], codes, numbers);
      assert occurrences == [occurrences[0]] + occurrences[1..];
    }
  }

  /** The total length of the varints of `s`, and of 1..k. */
  function Total(s: seq<nat>): nat {
    if s == [] then 0 else Total(s[..|s| - 1]) + LebLength(s[|s| - 1])
  }

  function TotalTo(k: nat): nat { if k == 0 then 0 else TotalTo(k - 1) + LebLength(k) }

  lemma {:induction false} TotalRemove(s: seq<nat>, j: nat)
    requires j < |s|
    ensures Total(s) == Total(s[..j] + s[j + 1..]) + LebLength(s[j])
  {
    var last := |s| - 1;
    if j == last {
      assert s[..j] + s[j + 1..] == s[..last];
    } else {
      TotalRemove(s[..last], j);
      assert (s[..j] + s[j + 1..])[..last - 1] == s[..last][..j] + s[..last][j + 1..];
    }
  }

  /** Distinct positive numbers reach at least as high as there are of them. */
  lemma {:induction false} Pigeonhole(s: seq<nat>, bound: nat)
    requires Distinct(s) && forall i :: 0 <= i < |s| ==> 1 <= s[i] <= bound
    ensures |s| <= bound
  {
    if s != [] {
      assert 1 <= s[0] <= bound;
      if exists j :: 0 <= j < |s| && s[j] == bound {
        var j :| 0 <= j < |s| && s[j] == bound;
        Pigeonhole(s[..j] + s[j + 1..], bound - 1);
      } else {
        Pigeonhole(s, bound - 1);
      }
    }
  }

  lemma {:induction false} SmallestTotal(s: seq<nat>)
    requires Distinct(s) && forall i :: 0 <= i < |s| ==> 1 <= s[i]
    ensures Total(s) >= TotalTo(|s|)
    decreases |s|
  {
    if s != [] {
      var j := LargestAt(s);
      Pigeonhole(s, s[j]);
      LebLengthGrows(|s|, s[j]);
      TotalRemove(s, j);
      SmallestTotal(s[..j] + s[j + 1..]);
    }
  }

  lemma {:induction false} LargestAt(s: seq<nat>) returns (j: nat)
    requires s != []
    ensures j < |s| && forall i :: 0 <= i < |s| ==> s[i] <= s[j]
  {
    j := 0;
    if |s| > 1 {
      j := LargestAt(s[..|s| - 1]);
      if s[|s| - 1] > s[j] { j := |s| - 1; }
    }
  }

  ghost predicate Injective(codes: seq<string>, numbers: map<string, nat>) {
    && (forall cc :: cc in codes ==> cc in numbers && numbers[cc] >= 1)
    && (forall a, b :: a in codes && b in codes && a != b ==> numbers[a] != numbers[b])
  }

  function Image(codes: seq<string>, numbers: map<string, nat>): (s: seq<nat>)
    requires forall cc :: cc in codes ==> cc in numbers
    ensures |s| == |codes| && forall i :: 0 <= i < |s| ==> s[i] == numbers[codes[i]]
  {
    if codes == [] then [] else Image(codes[..|codes| - 1], numbers) + [numbers[codes[|codes| - 1]]]
  }

  lemma {:induction false} LengthsIsTotal(codes: seq<string>, numbers: map<string, nat>)
    requires forall cc :: cc in codes ==> cc in numbers
    ensures Lengths(codes, numbers) == Total(Image(codes, numbers))
  {
    if codes != [] {
      LengthsIsTotal(codes[..|codes| - 1], numbers);
      assert Image(codes, numbers)[..|codes| - 1] == Image(codes[..|codes| - 1], numbers);
    }
  }

  lemma AnyLengths(codes: seq<string>, numbers: map<string, nat>)
    requires Distinct(codes) && Injective(codes, numbers)
    ensures Lengths(codes, numbers) >= TotalTo(|codes|)
  {
    LengthsIsTotal(codes, numbers);
    SmallestTotal(Image(codes, numbers));
  }

  /** `ranking` is what `Numbering` does to a prefix of the ranked codes. */
  lemma {:induction false} OwnLengths(codes: seq<string>, ranking: map<string, nat>)
    requires forall i :: 0 <= i < |codes| ==> codes[i] in ranking && ranking[codes[i]] == i + 1
    ensures Lengths(codes, ranking) == TotalTo(|codes|)
  {
    if codes != [] { OwnLengths(codes[..|codes| - 1], ranking); }
  }

  lemma OneMore(f: nat, g: nat, excess: int, gap: int, any: nat, own: nat)
    requires f <= g && gap >= 0 && excess >= g * gap && gap + any - own >= 0
    ensures excess + f * any - f * own >= f * (gap + any - own) >= 0
  {
    assert (g - f) * gap >= 0;
    assert f * (gap + any - own) == f * gap + f * any - f * own;
  }

  /**
   * Rearrangement: over the first codes, the excess of any numbering's weighted size over the
   * ranking's is at least the last count times the excess of its plain lengths.
   */
  lemma {:induction false} Rearrangement(
    occurrences: seq<string>, codes: seq<string>, ranking: map<string, nat>, numbers: map<string, nat>)
    requires Distinct(codes) && CountsDescend(occurrences, codes) && Injective(codes, numbers)
    requires forall i :: 0 <= i < |codes| ==> codes[i] in ranking && ranking[codes[i]] == i + 1
    ensures codes != [] ==>
      Weighted(occurrences, codes, numbers) - Weighted(occurrences, codes, ranking)
      >= Count(occurrences, codes[|codes| - 1]) * (Lengths(codes, numbers) - Lengths(codes, ranking))
    ensures Lengths(codes, numbers) >= Lengths(codes, ranking)
    ensures Weighted(occurrences, codes, numbers) >= Weighted(occurrences, codes, ranking)
  {
    AnyLengths(codes, numbers);
    OwnLengths(codes, ranking);
    if codes != [] {
      var init, cc := codes[..|codes| - 1], codes[|codes| - 1];
      Rearrangement(occurrences, init, ranking, numbers);
      var f, g := Count(occurrences, cc), if init == [] then Count(occurrences, cc) else Count(occurrences, init[|init| - 1]);
      var excess := Weighted(occurrences, init, numbers) - Weighted(occurrences, init, ranking);
      var gap := Lengths(init, numbers) - Lengths(init, ranking);
      if init == [] { assert excess == 0 && gap == 0; }
      OneMore(f, g, excess, gap, LebLength(numbers[cc]), LebLength(ranking[cc]));
    }
  }

  /** No injective numbering from 1 makes the index column shorter than the ranking does. */
  lemma RankingIsOptimal(occurrences: seq<string>, codes: seq<string>, numbers: map<string, nat>)
    requires Ranked(occurrences, codes) && Injective(codes, numbers)
    ensures forall cc :: cc in occurrences ==> cc in Numbering(codes)
    ensures ColumnSize(occurrences, Numbering(codes)) <= ColumnSize(occurrences, numbers)
  {
    NumberingIs(codes);
    ColumnIsWeighted(occurrences, codes, Numbering(codes));
    ColumnIsWeighted(occurrences, codes, numbers);
    Rearrangement(occurrences, codes, Numbering(codes), numbers);
  }
}
