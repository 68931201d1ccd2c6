/** Canonical texts determine their values, and equal values have equal canonical texts. */
module CanonicalProof {
  import opened Common
  import opened Sequences
  import opened JsonText
  import opened JsonStrings
  import opened KeySort
  import opened CanonicalJson

  // ---- what is refused -----------------------------------------------------------------------------------

  lemma {:induction false} PrintableIff(v: Json)
    requires WellFormed(v)
    ensures Canonicalize(v).Ok? <==> Printable(v)
    decreases v, 1, 0
  {
    match v
    case Arr(items) => ItemsPrintable(v, items);
    case Obj(entries) =>
      WrittenHas(entries);
      MembersPrintable(v, Written(entries));
      WrittenPrintable(entries);
    case _ =>
  }

  lemma {:induction false} ItemsPrintable(v: Json, items: seq<Json>)
    requires forall i :: 0 <= i < |items| ==> items[i] < v && WellFormed(items[i])
    ensures Items(v, items).Ok? <==> forall i :: 0 <= i < |items| ==> Printable(items[i])
    decreases v, 0, |items|
  {
    if items != [] {
      PrintableIff(items[0]);
      ItemsPrintable(v, items[1..]);
      forall i | 0 < i < |items| ensures items[i] == items[1..][i - 1] {}
    }
  }

  lemma {:induction false} MembersPrintable(v: Json, entries: seq<Entry>)
    requires forall i :: 0 <= i < |entries| ==> entries[i].value < v && WellFormed(entries[i].value)
    ensures Members(v, entries).Ok? <==> forall e :: e in entries ==> Printable(e.value)
    decreases v, 0, |entries|
  {
    if entries != [] {
      PrintableIff(entries[0].value);
      MembersPrintable(v, entries[1..]);
      assert entries == [entries[0]] + entries[1..];
    }
  }

  lemma WrittenPrintable(entries: seq<Entry>)
    ensures (forall e :: e in Written(entries) ==> Printable(e.value)) <==>
      forall i :: 0 <= i < |entries| ==> entries[i].value.Undefined? || Printable(entries[i].value)
  {
    WrittenHas(entries);
    if forall e :: e in Written(entries) ==> Printable(e.value) {
      forall i | 0 <= i < |entries| ensures entries[i].value.Undefined? || Printable(entries[i].value) {
        if !entries[i].value.Undefined? { assert entries[i] in Written(entries); }
      }
    }
  }

  // ---- texts end where they end --------------------------------------------------------------------------

  predicate Delimiter(u: Unit) { u == COMMA || u == CLOSE_ARRAY || u == CLOSE_OBJECT }

  /** What can follow a value inside a text. */
  predicate Follows(x: Text) { x == [] || Delimiter(x[0]) }

  predicate Free(a: Text) { forall i :: 0 <= i < |a| ==> !Delimiter(a[i]) }

  lemma FreeEnds(a: Text, b: Text, x: Text, y: Text)
    requires Free(a) && Free(b) && Follows(x) && Follows(y) && a + x == b + y
    ensures a == b && x == y
  {
    var s, t := a + x, b + y;
    assert forall i :: 0 <= i < |a| ==> s[i] == a[i];
    assert forall i :: 0 <= i < |b| ==> t[i] == b[i];
    assert x != [] ==> s[|a|] == x[0];
    assert y != [] ==> t[|b|] == y[0];
    assert |a| == |b|;
    assert s[..|a|] == a && t[..|b|] == b && s[|a|..] == x && t[|b|..] == y;
  }

  lemma ExponentFree(e: int)
    ensures Free(Exponent(e))
  {
    DecimalDigits(if e < 0 then -e else e);
  }

  lemma MagnitudeFree(digits: seq<Digit>, point: int)
    requires digits != []
    ensures Free(Magnitude(digits, point))
  {
    ExponentFree(point - 1);
    assert Free([DOT]) && Free([0x30, DOT]);
    if |digits| <= point <= 21 {
      FreeTogether(Chars(digits), Zeros(point - |digits|), []);
    } else if 0 < point <= 21 {
      FreeTogether(Chars(digits[..point]), [DOT], Chars(digits[point..]));
    } else if -6 < point <= 0 {
      FreeTogether([0x30, DOT], Zeros(-point), Chars(digits));
    } else {
      FreeTogether([DOT], Chars(digits[1..]), []);
      FreeTogether(Chars(digits[..1]), if |digits| == 1 then [] else [DOT] + Chars(digits[1..]), Exponent(point - 1));
    }
  }

  lemma FreeTogether(a: Text, b: Text, c: Text)
    requires Free(a) && Free(b) && Free(c)
    ensures Free(a + b) && Free(a + b + c)
  {
  }

  lemma NumTextFree(n: Num)
    requires ValidNum(n) && !n.NotFinite?
    ensures Free(NumText(n)) && NumText(n) != []
    ensures NumText(n)[0] == MINUS || 0x30 <= NumText(n)[0] <= 0x39
  {
    if n.Finite? {
      MagnitudeFree(n.digits, n.point);
      ShapeShows(n.digits, n.point);
    }
  }

  /** The kind of a value shows in the first unit of its text, which is never a delimiter. */
  function Kind(v: Json): nat {
    match v
    case Null => 0
    case Bool(b) => if b then 1 else 2
    case Number(_) => 3
    case Str(_) => 4
    case Arr(_) => 5
    case Obj(_) => 6
    case Undefined => 7
    case Other(_) => 8
  }

  function KindOfUnit(u: Unit): nat {
    if u == 0x6E then 0
    else if u == 0x74 then 1
    else if u == 0x66 then 2
    else if u == MINUS || 0x30 <= u <= 0x39 then 3
    else if u == QUOTE then 4
    else if u == OPEN_ARRAY then 5
    else if u == OPEN_OBJECT then 6
    else 9
  }

  lemma KindShows(v: Json)
    requires WellFormed(v) && Canonicalize(v).Ok?
    ensures var t := Canonicalize(v).value; t != [] && KindOfUnit(t[0]) == Kind(v) && !Delimiter(t[0])
  {
    if v.Number? { NumTextFree(v.number); }
  }

  // ---- equal texts, same values -------------------------------------------------------------------------

  /** Items of a list and what closes it. */
  function Tail(texts: seq<Text>, close: Unit, x: Text): Text {
    if texts == [] then [close] + x else [COMMA] + Join(texts) + [close] + x
  }

  lemma JoinTail(texts: seq<Text>, close: Unit, x: Text)
    requires texts != []
    ensures Join(texts) + [close] + x == texts[0] + Tail(texts[1..], close, x)
  {
    if |texts| > 1 {
      var rest := Join(texts[1..]);
      assert texts[0] + [COMMA] + rest + [close] + x == texts[0] + ([COMMA] + rest + [close] + x);
    } else {
      assert texts[0] + [close] + x == texts[0] + ([close] + x);
    }
  }

  lemma TailIs(texts: seq<Text>, close: Unit, x: Text)
    ensures var t := Tail(texts, close, x);
      t != [] && t[0] == (if texts == [] then close else COMMA) &&
      t[1..] == if texts == [] then x else Join(texts) + [close] + x
  {
    var joined := Join(texts) + [close] + x;
    assert [COMMA] + Join(texts) + [close] + x == [COMMA] + joined;
  }

  lemma TailsAgree(ts: seq<Text>, us: seq<Text>, close: Unit, x: Text, y: Text)
    requires close == CLOSE_ARRAY || close == CLOSE_OBJECT
    requires Tail(ts, close, x) == Tail(us, close, y)
    ensures (ts == [] <==> us == []) && (ts == [] ==> x == y)
    ensures ts != [] ==> Join(ts) + [close] + x == Join(us) + [close] + y
  {
    TailIs(ts, close, x);
    TailIs(us, close, y);
  }

  lemma Rewrap(open: Unit, close: Unit, joined: Text, x: Text)
    ensures [open] + joined + [close] + x == [open] + (joined + [close] + x)
    ensures ([open] + (joined + [close] + x))[1..] == joined + [close] + x
  {
  }

  lemma {:induction false} Unambiguous(v: Json, w: Json, x: Text, y: Text)
    requires WellFormed(v) && WellFormed(w) && Canonicalize(v).Ok? && Canonicalize(w).Ok?
    requires Follows(x) && Follows(y) && Canonicalize(v).value + x == Canonicalize(w).value + y
    ensures Same(v, w) && x == y
    decreases v, 2, 0
  {
    var a, b := Canonicalize(v).value, Canonicalize(w).value;
    KindShows(v);
    KindShows(w);
    assert (a + x)[0] == a[0] && (b + y)[0] == b[0];
    assert Kind(v) == Kind(w);
    match v
    case Number(n) =>
      NumTextFree(n);
      NumTextFree(w.number);
      FreeEnds(a, b, x, y);
      NumTextInjective(n, w.number);
    case Str(s) => QuoteEnds(s, w.text, x, y);
    case Arr(items) => ArraysSame(v, w, x, y);
    case Obj(entries) => ObjectsSame(v, w, x, y);
    case Null => SamePrefix(NULL, x, y);
    case Bool(value) => SamePrefix(if value then TRUE else FALSE, x, y);
    case Undefined =>
    case Other(_) =>
  }

  lemma SamePrefix(a: Text, x: Text, y: Text)
    requires a + x == a + y
    ensures x == y
  {
    assert (a + x)[|a|..] == x && (a + y)[|a|..] == y;
  }

  lemma {:induction false} ArraysSame(v: Json, w: Json, x: Text, y: Text)
    requires v.Arr? && w.Arr? && WellFormed(v) && WellFormed(w) && Canonicalize(v).Ok? && Canonicalize(w).Ok?
    requires Follows(x) && Follows(y) && Canonicalize(v).value + x == Canonicalize(w).value + y
    ensures Same(v, w) && x == y
    decreases v, 1, 0
  {
    var ts, us := Items(v, v.items).value, Items(w, w.items).value;
    Rewrap(OPEN_ARRAY, CLOSE_ARRAY, Join(ts), x);
    Rewrap(OPEN_ARRAY, CLOSE_ARRAY, Join(us), y);
    ItemsAre(v, v.items);
    ItemsAre(w, w.items);
    ItemsSame(v, v.items, ts, w.items, us, x, y);
  }

  ghost predicate IsItem(item: Json, t: Text) { WellFormed(item) && Canonicalize(item) == Ok(t) }

  ghost predicate AreItems(items: seq<Json>, ts: seq<Text>) {
    |ts| == |items| && forall i :: 0 <= i < |items| ==> IsItem(items[i], ts[i])
  }

  lemma {:induction false} ItemsAre(v: Json, items: seq<Json>)
    requires forall i :: 0 <= i < |items| ==> items[i] < v && WellFormed(items[i])
    requires Items(v, items).Ok?
    ensures AreItems(items, Items(v, items).value)
    decreases |items|
  {
    if items != [] {
      ItemTexts(v, items);
      ItemsAre(v, items[1..]);
      ItemsFront(items, Items(v, items).value);
    }
  }

  lemma ItemsFront(items: seq<Json>, ts: seq<Text>)
    requires items != [] && |ts| == |items| && IsItem(items[0], ts[0]) && AreItems(items[1..], ts[1..])
    ensures AreItems(items, ts)
  {
    forall i | 0 < i < |items| ensures IsItem(items[i], ts[i]) {
      assert items[i] == items[1..][i - 1] && ts[i] == ts[1..][i - 1];
    }
  }

  ghost predicate AllSame(a: seq<Json>, b: seq<Json>) {
    |a| == |b| && forall i :: 0 <= i < |a| ==> Same(a[i], b[i])
  }

  lemma AllSameFront(a: seq<Json>, b: seq<Json>)
    requires a != [] && b != [] && Same(a[0], b[0]) && AllSame(a[1..], b[1..])
    ensures AllSame(a, b)
  {
    forall i | 0 < i < |a| ensures Same(a[i], b[i]) { assert a[i] == a[1..][i - 1] && b[i] == b[1..][i - 1]; }
  }

  /** The first item, and what follows. */
  lemma FirstItemSame(a: Json, t: Text, b: Json, u: Text, p: Text, q: Text)
    requires IsItem(a, t) && IsItem(b, u) && Follows(p) && Follows(q) && t + p == u + q
    ensures Same(a, b) && p == q
    decreases a, 3, 0
  {
    Unambiguous(a, b, p, q);
  }

  lemma {:induction false} ItemsSame(v: Json, items: seq<Json>, ts: seq<Text>, others: seq<Json>, us: seq<Text>,
      x: Text, y: Text)
    requires forall i :: 0 <= i < |items| ==> items[i] < v
    requires AreItems(items, ts) && AreItems(others, us)
    requires Join(ts) + [CLOSE_ARRAY] + x == Join(us) + [CLOSE_ARRAY] + y
    ensures AllSame(items, others) && x == y
    decreases v, 0, |items|
  {
    if items != [] { KindShows(items[0]); }
    if others != [] { KindShows(others[0]); }
    if items == [] || others == [] {
      EmptyJoin(ts, us, CLOSE_ARRAY, x, y);
    } else {
      JoinTail(ts, CLOSE_ARRAY, x);
      JoinTail(us, CLOSE_ARRAY, y);
      FirstItemSame(items[0], ts[0], others[0], us[0], Tail(ts[1..], CLOSE_ARRAY, x), Tail(us[1..], CLOSE_ARRAY, y));
      TailsAgree(ts[1..], us[1..], CLOSE_ARRAY, x, y);
      if |items| > 1 { ItemsSame(v, items[1..], ts[1..], others[1..], us[1..], x, y); }
      AllSameFront(items, others);
    }
  }

  /** One text for each item, and none starts with a delimiter. */
  lemma {:induction false} ItemTexts(v: Json, items: seq<Json>)
    requires forall i :: 0 <= i < |items| ==> items[i] < v && WellFormed(items[i])
    requires Items(v, items).Ok?
    ensures var ts := Items(v, items).value;
      && |ts| == |items|
      && (items != [] ==> Ok(ts[0]) == Canonicalize(items[0]) && ts[0] != [] && !Delimiter(ts[0][0])
                          && Items(v, items[1..]) == Ok(ts[1..]))
    decreases |items|
  {
    if items != [] {
      ItemTexts(v, items[1..]);
      KindShows(items[0]);
    }
  }

  /** The first unit of a joined list and its closing unit. */
  function FirstUnit(texts: seq<Text>, close: Unit): Unit {
    if texts == [] || texts[0] == [] then close else texts[0][0]
  }

  lemma EmptyJoin(ts: seq<Text>, us: seq<Text>, close: Unit, x: Text, y: Text)
    requires close == CLOSE_ARRAY || close == CLOSE_OBJECT
    requires ts == [] || us == []
    requires ts != [] ==> ts[0] != [] && !Delimiter(ts[0][0])
    requires us != [] ==> us[0] != [] && !Delimiter(us[0][0])
    requires Join(ts) + [close] + x == Join(us) + [close] + y
    ensures ts == us && x == y
  {
    var a, b := Join(ts) + [close] + x, Join(us) + [close] + y;
    if ts != [] { JoinTail(ts, close, x); }
    if us != [] { JoinTail(us, close, y); }
    assert a[0] == FirstUnit(ts, close) && b[0] == FirstUnit(us, close);
    assert ts == us == [];
    assert a == [close] + x && b == [close] + y;
    SamePrefix([close], x, y);
  }

  lemma {:induction false} MemberTexts(v: Json, entries: seq<Entry>)
    requires forall i :: 0 <= i < |entries| ==> entries[i].value < v && WellFormed(entries[i].value)
    requires Members(v, entries).Ok?
    ensures var ts := Members(v, entries).value;
      && |ts| == |entries|
      && (entries != [] ==>
            Canonicalize(entries[0].value).Ok? &&
            ts[0] == Quote(entries[0].key) + [COLON] + Canonicalize(entries[0].value).value &&
            ts[0][0] == QUOTE && Members(v, entries[1..]) == Ok(ts[1..]))
    decreases |entries|
  {
    if entries != [] { MemberTexts(v, entries[1..]); }
  }

  lemma Regroup(q: Text, a: Text, x: Text)
    ensures q + [COLON] + a + x == q + ([COLON] + (a + x))
    ensures ([COLON] + (a + x))[1..] == a + x
  {
    assert q + [COLON] + a == q + ([COLON] + a);
  }

  lemma MemberSplit(k: Text, l: Text, a: Text, b: Text, x: Text, y: Text)
    requires Quote(k) + [COLON] + a + x == Quote(l) + [COLON] + b + y
    ensures k == l && a + x == b + y
  {
    Regroup(Quote(k), a, x);
    Regroup(Quote(l), b, y);
    QuoteEnds(k, l, [COLON] + (a + x), [COLON] + (b + y));
  }

  ghost predicate SameEntries(a: seq<Entry>, b: seq<Entry>) {
    |a| == |b| && forall i :: 0 <= i < |a| ==> a[i].key == b[i].key && Same(a[i].value, b[i].value)
  }

  ghost predicate IsMember(e: Entry, t: Text) {
    WellFormed(e.value) && Canonicalize(e.value).Ok? && t == Quote(e.key) + [COLON] + Canonicalize(e.value).value
  }

  ghost predicate AreMembers(entries: seq<Entry>, ts: seq<Text>) {
    |ts| == |entries| && forall i :: 0 <= i < |entries| ==> IsMember(entries[i], ts[i])
  }

  lemma {:induction false} MembersAre(v: Json, entries: seq<Entry>)
    requires forall i :: 0 <= i < |entries| ==> entries[i].value < v && WellFormed(entries[i].value)
    requires Members(v, entries).Ok?
    ensures AreMembers(entries, Members(v, entries).value)
    decreases |entries|
  {
    if entries != [] {
      MemberTexts(v, entries);
      MembersAre(v, entries[1..]);
      MembersFront(entries, Members(v, entries).value);
    }
  }

  lemma MembersFront(entries: seq<Entry>, ts: seq<Text>)
    requires entries != [] && |ts| == |entries| && IsMember(entries[0], ts[0]) && AreMembers(entries[1..], ts[1..])
    ensures AreMembers(entries, ts)
  {
    forall i | 0 < i < |entries| ensures IsMember(entries[i], ts[i]) {
      assert entries[i] == entries[1..][i - 1] && ts[i] == ts[1..][i - 1];
    }
  }

  lemma MemberStarts(e: Entry, t: Text)
    requires IsMember(e, t)
    ensures t != [] && !Delimiter(t[0])
  {
    assert Quote(e.key)[0] == QUOTE;
  }

  /** The first property and its value, and what follows. */
  lemma FirstSame(e: Entry, t: Text, o: Entry, u: Text, p: Text, q: Text)
    requires IsMember(e, t) && IsMember(o, u) && Follows(p) && Follows(q) && t + p == u + q
    ensures e.key == o.key && Same(e.value, o.value) && p == q
    decreases e.value, 3, 0
  {
    MemberSplit(e.key, o.key, Canonicalize(e.value).value, Canonicalize(o.value).value, p, q);
    Unambiguous(e.value, o.value, p, q);
  }

  lemma SameEntriesFront(a: seq<Entry>, b: seq<Entry>)
    requires a != [] && b != [] && a[0].key == b[0].key && Same(a[0].value, b[0].value) && SameEntries(a[1..], b[1..])
    ensures SameEntries(a, b)
  {
    forall i | 0 < i < |a| ensures a[i].key == b[i].key && Same(a[i].value, b[i].value) {
      assert a[i] == a[1..][i - 1] && b[i] == b[1..][i - 1];
    }
  }

  lemma {:induction false} MembersSame(v: Json, entries: seq<Entry>, ts: seq<Text>, others: seq<Entry>, us: seq<Text>,
      x: Text, y: Text)
    requires forall i :: 0 <= i < |entries| ==> entries[i].value < v
    requires AreMembers(entries, ts) && AreMembers(others, us)
    requires Join(ts) + [CLOSE_OBJECT] + x == Join(us) + [CLOSE_OBJECT] + y
    ensures SameEntries(entries, others) && x == y
    decreases v, 0, |entries|
  {
    if entries != [] { MemberStarts(entries[0], ts[0]); }
    if others != [] { MemberStarts(others[0], us[0]); }
    if entries == [] || others == [] {
      EmptyJoin(ts, us, CLOSE_OBJECT, x, y);
    } else {
      JoinTail(ts, CLOSE_OBJECT, x);
      JoinTail(us, CLOSE_OBJECT, y);
      FirstSame(entries[0], ts[0], others[0], us[0], Tail(ts[1..], CLOSE_OBJECT, x), Tail(us[1..], CLOSE_OBJECT, y));
      TailsAgree(ts[1..], us[1..], CLOSE_OBJECT, x, y);
      if |entries| > 1 { MembersSame(v, entries[1..], ts[1..], others[1..], us[1..], x, y); }
      SameEntriesFront(entries, others);
    }
  }

  lemma {:induction false} ObjectsSame(v: Json, w: Json, x: Text, y: Text)
    requires v.Obj? && w.Obj? && WellFormed(v) && WellFormed(w) && Canonicalize(v).Ok? && Canonicalize(w).Ok?
    requires Follows(x) && Follows(y) && Canonicalize(v).value + x == Canonicalize(w).value + y
    ensures Same(v, w) && x == y
    decreases v, 1, 0
  {
    WrittenHas(v.entries);
    WrittenHas(w.entries);
    var ts, us := Members(v, Written(v.entries)).value, Members(w, Written(w.entries)).value;
    Rewrap(OPEN_OBJECT, CLOSE_OBJECT, Join(ts), x);
    Rewrap(OPEN_OBJECT, CLOSE_OBJECT, Join(us), y);
    MembersAre(v, Written(v.entries));
    MembersAre(w, Written(w.entries));
    MembersSame(v, Written(v.entries), ts, Written(w.entries), us, x, y);
    WrittenSame(v.entries, w.entries);
  }

  lemma WrittenSame(entries: seq<Entry>, others: seq<Entry>)
    requires SameEntries(Written(entries), Written(others))
    ensures Same(Obj(entries), Obj(others))
  {
    var a, b := Written(entries), Written(others);
    WrittenHas(entries);
    WrittenHas(others);
    forall i | 0 <= i < |entries| && !entries[i].value.Undefined?
      ensures exists j :: 0 <= j < |others| && entries[i].key == others[j].key && Same(entries[i].value, others[j].value)
    {
      assert entries[i] in a;
      var p :| 0 <= p < |a| && a[p] == entries[i];
      assert b[p] in others;
      var j :| 0 <= j < |others| && others[j] == b[p];
    }
    forall j | 0 <= j < |others| && !others[j].value.Undefined?
      ensures exists i :: 0 <= i < |entries| && entries[i].key == others[j].key && !entries[i].value.Undefined?
    {
      assert others[j] in b;
      var p :| 0 <= p < |b| && b[p] == others[j];
      assert a[p] in entries && !a[p].value.Undefined?;
      var i :| 0 <= i < |entries| && entries[i] == a[p];
    }
  }

  // ---- same values, equal texts --------------------------------------------------------------------------

  ghost predicate Ascending(entries: seq<Entry>) {
    forall i, j :: 0 <= i < j < |entries| ==> KeyLess(entries[i].key, entries[j].key)
  }

  ghost predicate DistinctKeys(entries: seq<Entry>) {
    forall i, j :: 0 <= i < j < |entries| ==> entries[i].key != entries[j].key
  }

  lemma SortAscends(entries: seq<Entry>)
    requires DistinctKeys(entries)
    ensures Ascending(SortBy(KeyOf, entries))
  {
    var sorted := SortBy(KeyOf, entries);
    SortSorts(KeyOf, entries);
    SortKeeps(KeyOf, entries);
    DistinctMultiset(entries);
    MultisetDistinct(sorted);
    SortHas(KeyOf, entries);
    forall i, j | 0 <= i < j < |sorted| ensures KeyLess(sorted[i].key, sorted[j].key) {
      assert sorted[i] != sorted[j] && sorted[i] in entries && sorted[j] in entries;
      assert !KeyLess(KeyOf(sorted[j]), KeyOf(sorted[i]));
      KeyOrder(sorted[i].key, sorted[j].key, []);
    }
  }

  lemma {:induction false} DefinedDistinct(entries: seq<Entry>)
    requires DistinctKeys(entries)
    ensures DistinctKeys(Defined(entries))
  {
    if entries != [] {
      DefinedDistinct(entries[1..]);
      DefinedHas(entries[1..]);
    }
  }

  lemma WrittenAscends(entries: seq<Entry>)
    requires DistinctKeys(entries)
    ensures Ascending(Written(entries))
  {
    DefinedDistinct(entries);
    SortAscends(Defined(entries));
  }

  ghost predicate HasKey(entries: seq<Entry>, key: Text) {
    exists i :: 0 <= i < |entries| && entries[i].key == key
  }

  /** Two ascending lists with the same keys have them in the same places. */
  lemma {:induction false} SameKeys(a: seq<Entry>, b: seq<Entry>)
    requires Ascending(a) && Ascending(b)
    requires forall k :: HasKey(a, k) <==> HasKey(b, k)
    ensures |a| == |b| && forall i :: 0 <= i < |a| ==> a[i].key == b[i].key
  {
    if a == [] {
      assert b != [] ==> HasKey(b, b[0].key);
    } else {
      assert HasKey(a, a[0].key);
      assert HasKey(b, b[0].key);
      LeastKey(a, b);
      LeastKey(b, a);
      KeyOrder(a[0].key, b[0].key, []);
      forall k ensures HasKey(a[1..], k) <==> HasKey(b[1..], k) {
        RestKeys(a, k);
        RestKeys(b, k);
      }
      SameKeys(a[1..], b[1..]);
      forall i | 0 < i < |a| ensures a[i].key == b[i].key {
        assert a[i] == a[1..][i - 1] && b[i] == b[1..][i - 1];
      }
    }
  }

  lemma LeastKey(a: seq<Entry>, b: seq<Entry>)
    requires Ascending(a) && a != [] && b != [] && HasKey(a, b[0].key)
    ensures a[0].key == b[0].key || KeyLess(a[0].key, b[0].key)
  {
  }

  lemma RestKeys(a: seq<Entry>, k: Text)
    requires Ascending(a) && a != []
    ensures HasKey(a[1..], k) <==> HasKey(a, k) && k != a[0].key
  {
    KeyOrder(k, k, k);
    if HasKey(a[1..], k) {
      var i :| 0 <= i < |a[1..]| && a[1..][i].key == k;
      assert a[i + 1].key == k;
      assert KeyLess(a[0].key, a[i + 1].key);
    }
    if HasKey(a, k) && k != a[0].key {
      var i :| 0 <= i < |a| && a[i].key == k;
      assert a[1..][i - 1].key == k;
    }
  }

  lemma SameIsDefined(v: Json, w: Json)
    requires Same(v, w) && !v.Undefined?
    ensures !w.Undefined?
  {
  }

  /** The written entries of the same object agree, key by key and value by value. */
  lemma SameWritten(v: Json, w: Json)
    requires v.Obj? && WellFormed(v) && WellFormed(w) && Same(v, w)
    ensures SameEntries(Written(v.entries), Written(w.entries))
  {
    var a, b := Written(v.entries), Written(w.entries);
    WrittenHas(v.entries);
    WrittenHas(w.entries);
    WrittenAscends(v.entries);
    WrittenAscends(w.entries);
    forall k ensures HasKey(a, k) <==> HasKey(b, k) {
      KeysCross(v, w, k);
    }
    SameKeys(a, b);
    forall p | 0 <= p < |a| ensures Same(a[p].value, b[p].value) {
      var j := Partner(v, w, a[p]);
      assert b[p] in w.entries;
      var m :| 0 <= m < |w.entries| && w.entries[m] == b[p];
      assert m == j;
    }
  }

  /** The entry of the other object with the same key and the same value. */
  lemma Partner(v: Json, w: Json, e: Entry) returns (j: nat)
    requires v.Obj? && Same(v, w) && e in v.entries && !e.value.Undefined?
    ensures j < |w.entries| && w.entries[j].key == e.key && Same(e.value, w.entries[j].value) &&
      !w.entries[j].value.Undefined?
  {
    var i :| 0 <= i < |v.entries| && v.entries[i] == e;
    j :| 0 <= j < |w.entries| && v.entries[i].key == w.entries[j].key && Same(v.entries[i].value, w.entries[j].value);
    SameIsDefined(e.value, w.entries[j].value);
  }

  lemma HasWritten(entries: seq<Entry>, i: nat)
    requires i < |entries| && !entries[i].value.Undefined?
    ensures HasKey(Written(entries), entries[i].key)
  {
    WrittenHas(entries);
    assert entries[i] in Written(entries);
    var p :| 0 <= p < |Written(entries)| && Written(entries)[p] == entries[i];
  }

  lemma WrittenFrom(entries: seq<Entry>, k: Text) returns (i: nat)
    requires HasKey(Written(entries), k)
    ensures i < |entries| && entries[i].key == k && !entries[i].value.Undefined?
  {
    WrittenHas(entries);
    var p :| 0 <= p < |Written(entries)| && Written(entries)[p].key == k;
    assert Written(entries)[p] in entries;
    i :| 0 <= i < |entries| && entries[i] == Written(entries)[p];
  }

  lemma KeysCross(v: Json, w: Json, k: Text)
    requires v.Obj? && Same(v, w)
    ensures HasKey(Written(v.entries), k) <==> HasKey(Written(w.entries), k)
  {
    if HasKey(Written(v.entries), k) {
      var i := WrittenFrom(v.entries, k);
      var j := Partner(v, w, v.entries[i]);
      HasWritten(w.entries, j);
    }
    if HasKey(Written(w.entries), k) {
      var j := WrittenFrom(w.entries, k);
      var i :| 0 <= i < |v.entries| && v.entries[i].key == w.entries[j].key && !v.entries[i].value.Undefined?;
      HasWritten(v.entries, i);
    }
  }

  lemma {:induction false} SameText(v: Json, w: Json)
    requires WellFormed(v) && WellFormed(w) && Same(v, w)
    ensures Canonicalize(v) == Canonicalize(w)
    decreases v, 1, 0
  {
    match v
    case Arr(items) => SameItems(v, items, w, w.items);
    case Obj(entries) =>
      WrittenHas(entries);
      WrittenHas(w.entries);
      SameWritten(v, w);
      SameMembers(v, Written(entries), w, Written(w.entries));
    case _ =>
  }

  lemma {:induction false} SameItems(v: Json, items: seq<Json>, w: Json, others: seq<Json>)
    requires forall i :: 0 <= i < |items| ==> items[i] < v && WellFormed(items[i])
    requires forall i :: 0 <= i < |others| ==> others[i] < w && WellFormed(others[i])
    requires |items| == |others| && forall i :: 0 <= i < |items| ==> Same(items[i], others[i])
    ensures Items(v, items) == Items(w, others)
    decreases v, 0, |items|
  {
    if items != [] {
      SameText(items[0], others[0]);
      SameItems(v, items[1..], w, others[1..]);
    }
  }

  lemma {:induction false} SameMembers(v: Json, entries: seq<Entry>, w: Json, others: seq<Entry>)
    requires forall i :: 0 <= i < |entries| ==> entries[i].value < v && WellFormed(entries[i].value)
    requires forall i :: 0 <= i < |others| ==> others[i].value < w && WellFormed(others[i].value)
    requires SameEntries(entries, others)
    ensures Members(v, entries) == Members(w, others)
    decreases v, 0, |entries|
  {
    if entries != [] {
      SameText(entries[0].value, others[0].value);
      SameMembers(v, entries[1..], w, others[1..]);
    }
  }

  /** Two printable values have the same canonical text exactly when they are the same JSON value. */
  lemma CanonicalIff(v: Json, w: Json)
    requires WellFormed(v) && WellFormed(w) && Printable(v) && Printable(w)
    ensures Canonicalize(v).Ok? && Canonicalize(w).Ok?
    ensures Canonicalize(v) == Canonicalize(w) <==> Same(v, w)
  {
    PrintableIff(v);
    PrintableIff(w);
    if Canonicalize(v) == Canonicalize(w) { Unambiguous(v, w, [], []); }
    if Same(v, w) { SameText(v, w); }
  }
}
