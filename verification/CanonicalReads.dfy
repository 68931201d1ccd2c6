/**
 * Canonical text is JSON: a reader of RFC 8259 that knows nothing of the printer gets back the same
 * value, with the members of every object in ascending order and nothing undefined in it.
 */
module CanonicalReads {
  import opened Common
  import opened JsonText
  import opened JsonStrings
  import opened KeySort
  import opened CanonicalJson
  import opened CanonicalProof
  import opened CanonicalOrder
  import opened JsonReader
  import opened StringReads
  import NumberReads

  /** In every object of the value the names ascend, and nothing in it is undefined. */
  ghost predicate Ascends(v: Json) {
    match v
    case Arr(items) => forall i :: 0 <= i < |items| ==> Ascends(items[i])
    case Obj(entries) =>
      (forall i, j :: 0 <= i < j < |entries| ==> Precedes(entries[i].key, entries[j].key)) &&
      (forall i :: 0 <= i < |entries| ==> Ascends(entries[i].value))
    case Undefined => false
    case Other(_) => false
    case _ => true
  }

  lemma WordReads(word: Text, v: Json, x: Text)
    requires word != []
    ensures ReadWord(word + x, word, v) == Some((v, x))
  {
    assert (word + x)[|word|..] == x;
  }

  lemma WordsRead(x: Text)
    ensures ReadValue(NULL + x) == Some((Null, x))
    ensures ReadValue(TRUE + x) == Some((Bool(true), x))
    ensures ReadValue(FALSE + x) == Some((Bool(false), x))
  {
    WordReads([0x6E, 0x75, 0x6C, 0x6C], Null, x);
    WordReads([0x74, 0x72, 0x75, 0x65], Bool(true), x);
    WordReads([0x66, 0x61, 0x6C, 0x73, 0x65], Bool(false), x);
    assert (NULL + x)[0] == 0x6E && (TRUE + x)[0] == 0x74 && (FALSE + x)[0] == 0x66;
  }

  lemma StringFirst(t: Text, s: Text, x: Text)
    requires t != [] && t[0] == 0x22 && ReadString(t[1..]) == Some((s, x))
    ensures ReadValue(t) == Some((Str(s), x))
  {
    assert ReadText(t) == Some((Str(s), x));
  }

  /**
   * Whatever text follows, the canonical text of a value is read as the same JSON value: up to the
   * order of members, which now ascends, undefined ones, which are gone, and the sign of a zero.
   */
  lemma {:induction false} ReadsBack(v: Json, x: Text) returns (w: Json)
    requires WellFormed(v) && Canonicalize(v).Ok? && Follows(x)
    ensures ReadValue(Canonicalize(v).value + x) == Some((w, x)) && Same(v, w) && Ascends(w)
    decreases v, 2, 0
  {
    match v
    case Null =>
      WordsRead(x);
      w := Null;
    case Bool(b) =>
      WordsRead(x);
      w := v;
    case Number(n) =>
      NumberReads.NumberReads(n, x);
      w := Number(if n.Zero? then Zero(false) else n);
    case Str(s) =>
      QuoteReads(s, x);
      StringFirst(Quote(s) + x, s, x);
      w := v;
    case Arr(items) => w := ArrayReads(v, x);
    case Obj(entries) => w := ObjectReads(v, x);
  }

  lemma OpensWith(open: Unit, joined: Text, close: Unit, x: Text)
    ensures var t := [open] + joined + [close] + x;
      t[0] == open && t[1..] == joined + [close] + x && |t| > 1 && t[1] == (joined + [close] + x)[0]
  {
  }

  lemma EmptyFirst(x: Text)
    ensures ReadValue([0x5B] + [] + [0x5D] + x) == Some((Arr([]), x))
    ensures ReadValue([0x7B] + [] + [0x7D] + x) == Some((Obj([]), x))
  {
    var a, b := [0x5B] + [] + [0x5D] + x, [0x7B] + [] + [0x7D] + x;
    assert a[0] == 0x5B && a[1] == 0x5D && a[2..] == x;
    assert b[0] == 0x7B && b[1] == 0x7D && b[2..] == x;
  }

  lemma ItemsFirst(t: Text, items: seq<Json>, x: Text)
    requires |t| > 1 && t[0] == 0x5B && t[1] != 0x5D && ReadItems(t[1..]) == Some((items, x))
    ensures ReadValue(t) == Some((Arr(items), x))
  {
    assert ReadArray(t) == Some((Arr(items), x));
  }

  lemma BraceFirst(t: Text)
    requires t != [] && t[0] == 0x7B
    ensures ReadValue(t) == ReadObject(t)
  {
  }

  lemma MembersFirst(t: Text, entries: seq<Entry>, x: Text)
    requires |t| > 1 && t[0] == 0x7B && t[1] != 0x7D && ReadMembers(t[1..]) == Some((entries, x))
    ensures ReadValue(t) == Some((Obj(entries), x))
  {
    BraceFirst(t);
  }

  /** Items that were read, beside those that were written. */
  ghost predicate SameItems(items: seq<Json>, read: seq<Json>) {
    |items| == |read| && forall i :: 0 <= i < |items| ==> Same(items[i], read[i]) && Ascends(read[i])
  }

  lemma SameArrays(items: seq<Json>, read: seq<Json>)
    requires SameItems(items, read)
    ensures Same(Arr(items), Arr(read)) && Ascends(Arr(read))
  {
  }

  /** The text of an array whose items are read. */
  lemma ArrayText(texts: seq<Text>, read: seq<Json>, x: Text)
    requires texts != [] && Join(texts) != [] && !Delimiter(Join(texts)[0])
    requires ReadItems(Join(texts) + [0x5D] + x) == Some((read, x))
    ensures ReadValue([0x5B] + Join(texts) + [0x5D] + x) == Some((Arr(read), x))
  {
    OpensWith(0x5B, Join(texts), 0x5D, x);
    assert (Join(texts) + [0x5D] + x)[0] == Join(texts)[0];
    ItemsFirst([0x5B] + Join(texts) + [0x5D] + x, read, x);
  }

  lemma {:induction false} ArrayReads(v: Json, x: Text) returns (w: Json)
    requires v.Arr? && WellFormed(v) && Canonicalize(v).Ok? && Follows(x)
    ensures ReadValue(Canonicalize(v).value + x) == Some((w, x)) && Same(v, w) && Ascends(w)
    decreases v, 1, 0
  {
    var texts := Items(v, v.items).value;
    var read := [];
    if v.items == [] {
      EmptyFirst(x);
      assert Join(texts) == [];
    } else {
      read := ItemsRead(v, v.items, x);
      FirstOfItems(v, v.items, x);
      ArrayText(texts, read, x);
    }
    w := Arr(read);
    assert ReadValue([0x5B] + Join(texts) + [0x5D] + x) == Some((w, x));
    SameArrays(v.items, read);
  }

  /** A list of values does not begin with what closes it. */
  lemma FirstOfItems(v: Json, items: seq<Json>, x: Text)
    requires items != [] && (forall i :: 0 <= i < |items| ==> items[i] < v && WellFormed(items[i])) && Items(v, items).Ok?
    ensures var t := Join(Items(v, items).value); t != [] && !Delimiter(t[0]) && (t + x)[0] == t[0]
  {
    KindShows(items[0]);
  }

  lemma CommaFirst(t: Text, item: Json, rest: Text, items: seq<Json>, x: Text)
    requires ReadValue(t) == Some((item, [0x2C] + rest)) && ReadItems(rest) == Some((items, x))
    ensures ReadItems(t) == Some(([item] + items, x))
  {
    assert ([0x2C] + rest)[1..] == rest;
  }

  lemma LastItem(t: Text, item: Json, x: Text)
    requires ReadValue(t) == Some((item, [0x5D] + x))
    ensures ReadItems(t) == Some(([item], x))
  {
    assert ([0x5D] + x)[1..] == x;
  }

  lemma {:induction false} ItemsRead(v: Json, items: seq<Json>, x: Text) returns (read: seq<Json>)
    requires items != [] && (forall i :: 0 <= i < |items| ==> items[i] < v && WellFormed(items[i])) && Items(v, items).Ok?
    ensures ReadItems(Join(Items(v, items).value) + [0x5D] + x) == Some((read, x)) && SameItems(items, read)
    decreases v, 0, |items|
  {
    var texts := Items(v, items).value;
    var text := Canonicalize(items[0]).value;
    if |items| == 1 {
      assert items[1..] == [] && texts == [text];
      var item := ReadsBack(items[0], [0x5D] + x);
      OneItemReads(text, item, x);
      read := [item];
    } else {
      var more := Items(v, items[1..]).value;
      var rest := Join(more) + [0x5D] + x;
      var others := ItemsRead(v, items[1..], x);
      var item := ReadsBack(items[0], [0x2C] + rest);
      assert texts == [text] + more;
      ItemTexts(text, more, 0x5D, x);
      CommaFirst(text + ([0x2C] + rest), item, rest, others, x);
      read := [item] + others;
      ItemsBeside(items, item, others);
    }
  }

  lemma OneItemReads(text: Text, item: Json, x: Text)
    requires ReadValue(text + ([0x5D] + x)) == Some((item, [0x5D] + x))
    ensures ReadItems(text + [0x5D] + x) == Some(([item], x))
  {
    assert text + [0x5D] + x == text + ([0x5D] + x);
    LastItem(text + [0x5D] + x, item, x);
  }

  lemma ItemsBeside(items: seq<Json>, first: Json, others: seq<Json>)
    requires items != [] && SameItems(items[1..], others) && Same(items[0], first) && Ascends(first)
    ensures SameItems(items, [first] + others)
  {
    var read := [first] + others;
    forall i | 0 <= i < |items| ensures Same(items[i], read[i]) && Ascends(read[i]) {
      if i > 0 { assert items[i] == items[1..][i - 1] && read[i] == others[i - 1]; }
    }
  }

  /** The text of a list, its first taken off. */
  lemma ItemTexts(text: Text, more: seq<Text>, close: Unit, x: Text)
    requires more != []
    ensures Join([text] + more) + [close] + x == text + ([COMMA] + (Join(more) + [close] + x))
  {
    assert ([text] + more)[1..] == more;
  }

  // ---- objects ----------------------------------------------------------------------------------------

  /** Members that were read, beside those that were written. */
  ghost predicate SameMembers(entries: seq<Entry>, read: seq<Entry>) {
    |entries| == |read| && forall i :: 0 <= i < |entries| ==>
      entries[i].key == read[i].key && Same(entries[i].value, read[i].value) && Ascends(read[i].value)
  }

  lemma EveryMemberIsRead(entries: seq<Entry>, written: seq<Entry>, read: seq<Entry>, i: nat)
    requires (forall e :: e in written <==> e in entries && !e.value.Undefined?) && SameMembers(written, read)
    requires i < |entries| && !entries[i].value.Undefined?
    ensures exists j :: 0 <= j < |read| && entries[i].key == read[j].key && Same(entries[i].value, read[j].value)
  {
    assert entries[i] in written;
    var j :| 0 <= j < |written| && written[j] == entries[i];
    assert written[j].key == read[j].key && Same(written[j].value, read[j].value);
  }

  lemma EveryMemberIsThere(entries: seq<Entry>, written: seq<Entry>, read: seq<Entry>, j: nat)
    requires (forall e :: e in written <==> e in entries && !e.value.Undefined?) && SameMembers(written, read) && j < |read|
    ensures exists i :: 0 <= i < |entries| && entries[i].key == read[j].key && !entries[i].value.Undefined?
  {
    assert written[j] in written;
    var i :| 0 <= i < |entries| && entries[i] == written[j];
    assert written[j].key == read[j].key;
  }

  lemma ReadAscends(entries: seq<Entry>, read: seq<Entry>)
    requires WellFormed(Obj(entries)) && SameMembers(Written(entries), read)
    ensures Ascends(Obj(read))
  {
    forall i, j | 0 <= i < j < |read| ensures Precedes(read[i].key, read[j].key) {
      MembersAscend(entries, i, j);
    }
  }

  /** Members read in the order they are written in are those of the object. */
  lemma WrittenIsSame(entries: seq<Entry>, read: seq<Entry>)
    requires SameMembers(Written(entries), read)
    ensures Same(Obj(entries), Obj(read))
  {
    var written := Written(entries);
    WrittenHas(entries);
    forall i | 0 <= i < |entries| && !entries[i].value.Undefined?
      ensures exists j :: 0 <= j < |read| && entries[i].key == read[j].key && Same(entries[i].value, read[j].value)
    {
      EveryMemberIsRead(entries, written, read, i);
    }
    forall j | 0 <= j < |read| && !read[j].value.Undefined?
      ensures exists i :: 0 <= i < |entries| && entries[i].key == read[j].key && !entries[i].value.Undefined?
    {
      EveryMemberIsThere(entries, written, read, j);
    }
  }

  /** The text of an object whose members are read. */
  lemma ObjectText(v: Json, texts: seq<Text>, read: seq<Entry>, x: Text)
    requires texts != [] && Join(texts) != [] && Join(texts)[0] == 0x22
    requires ReadMembers(Join(texts) + [0x7D] + x) == Some((read, x))
    ensures ReadValue([0x7B] + Join(texts) + [0x7D] + x) == Some((Obj(read), x))
  {
    OpensWith(0x7B, Join(texts), 0x7D, x);
    assert (Join(texts) + [0x7D] + x)[0] == Join(texts)[0];
    MembersFirst([0x7B] + Join(texts) + [0x7D] + x, read, x);
  }

  lemma {:induction false} ObjectReads(v: Json, x: Text) returns (w: Json)
    requires v.Obj? && WellFormed(v) && Canonicalize(v).Ok? && Follows(x)
    ensures ReadValue(Canonicalize(v).value + x) == Some((w, x)) && Same(v, w) && Ascends(w)
    decreases v, 1, 0
  {
    WrittenHas(v.entries);
    var written := Written(v.entries);
    var texts := Members(v, written).value;
    var read := [];
    if written == [] {
      EmptyFirst(x);
      assert Join(texts) == [];
    } else {
      read := MembersRead(v, written, x);
      FirstOfMembers(v, written, x);
      ObjectText(v, texts, read, x);
    }
    w := Obj(read);
    assert ReadValue([0x7B] + Join(texts) + [0x7D] + x) == Some((w, x));
    assert Same(v, w) by { WrittenIsSame(v.entries, read); }
    assert Ascends(w) by { ReadAscends(v.entries, read); }
  }

  lemma FirstOfMembers(v: Json, entries: seq<Entry>, x: Text)
    requires entries != [] && (forall i :: 0 <= i < |entries| ==> entries[i].value < v && WellFormed(entries[i].value)) && Members(v, entries).Ok?
    ensures var t := Join(Members(v, entries).value); t != [] && t[0] == 0x22 && (t + x)[0] == t[0]
  {
  }

  /** The text of a member, and what follows it. */
  lemma MemberReads(key: Text, text: Text, value: Json, after: Text)
    requires after != [] && ReadValue(text + after) == Some((value, after))
    ensures var t := Quote(key) + [COLON] + text + after;
      && t[0] == 0x22 && ReadString(t[1..]) == Some((key, [0x3A] + (text + after)))
      && ([0x3A] + (text + after))[1..] == text + after
  {
    assert Quote(key) + [COLON] + text + after == Quote(key) + ([0x3A] + (text + after));
    QuoteReads(key, [0x3A] + (text + after));
  }

  lemma CommaMember(t: Text, key: Text, body: Text, value: Json, rest: Text, entries: seq<Entry>, x: Text)
    requires t != [] && t[0] == 0x22 && ReadString(t[1..]) == Some((key, [0x3A] + body)) && ([0x3A] + body)[1..] == body
    requires ReadValue(body) == Some((value, [0x2C] + rest)) && ReadMembers(rest) == Some((entries, x))
    ensures ReadMembers(t) == Some(([Entry(key, value)] + entries, x))
  {
    assert ([0x2C] + rest)[1..] == rest;
  }

  lemma LastMember(t: Text, key: Text, body: Text, value: Json, x: Text)
    requires t != [] && t[0] == 0x22 && ReadString(t[1..]) == Some((key, [0x3A] + body)) && ([0x3A] + body)[1..] == body
    requires ReadValue(body) == Some((value, [0x7D] + x))
    ensures ReadMembers(t) == Some(([Entry(key, value)], x))
  {
    assert ([0x7D] + x)[1..] == x;
  }

  lemma {:induction false} MembersRead(v: Json, entries: seq<Entry>, x: Text) returns (read: seq<Entry>)
    requires entries != [] && (forall i :: 0 <= i < |entries| ==> entries[i].value < v && WellFormed(entries[i].value)) && Members(v, entries).Ok?
    ensures ReadMembers(Join(Members(v, entries).value) + [0x7D] + x) == Some((read, x)) && SameMembers(entries, read)
    decreases v, 0, |entries|
  {
    var key, text := entries[0].key, Canonicalize(entries[0].value).value;
    var member := Quote(key) + [COLON] + text;
    if |entries| == 1 {
      var value := ReadsBack(entries[0].value, [0x7D] + x);
      assert entries[1..] == [] && Members(v, entries).value == [member];
      OneMemberReads(key, text, value, x);
      read := [Entry(key, value)];
    } else {
      var more := Members(v, entries[1..]).value;
      var rest := Join(more) + [0x7D] + x;
      var others := MembersRead(v, entries[1..], x);
      var value := ReadsBack(entries[0].value, [0x2C] + rest);
      assert Members(v, entries).value == [member] + more;
      ItemTexts(member, more, 0x7D, x);
      NextMemberReads(key, text, value, rest, others, x);
      read := [Entry(key, value)] + others;
      MembersBeside(entries, Entry(key, value), others);
    }
  }

  lemma OneMemberReads(key: Text, text: Text, value: Json, x: Text)
    requires ReadValue(text + ([0x7D] + x)) == Some((value, [0x7D] + x))
    ensures ReadMembers(Quote(key) + [COLON] + text + [0x7D] + x) == Some(([Entry(key, value)], x))
  {
    var after := [0x7D] + x;
    var member := Quote(key) + [COLON] + text;
    assert member + [0x7D] + x == member + after;
    MemberReads(key, text, value, after);
    LastMember(member + after, key, text + after, value, x);
  }

  lemma NextMemberReads(key: Text, text: Text, value: Json, rest: Text, others: seq<Entry>, x: Text)
    requires ReadValue(text + ([0x2C] + rest)) == Some((value, [0x2C] + rest)) && ReadMembers(rest) == Some((others, x))
    ensures ReadMembers(Quote(key) + [COLON] + text + ([0x2C] + rest)) == Some(([Entry(key, value)] + others, x))
  {
    MemberReads(key, text, value, [0x2C] + rest);
    CommaMember(Quote(key) + [COLON] + text + ([0x2C] + rest), key, text + ([0x2C] + rest), value, rest, others, x);
  }

  lemma MembersBeside(entries: seq<Entry>, first: Entry, others: seq<Entry>)
    requires entries != [] && SameMembers(entries[1..], others)
    requires entries[0].key == first.key && Same(entries[0].value, first.value) && Ascends(first.value)
    ensures SameMembers(entries, [first] + others)
  {
    var read := [first] + others;
    forall i | 0 <= i < |entries|
      ensures entries[i].key == read[i].key && Same(entries[i].value, read[i].value) && Ascends(read[i].value)
    {
      if i > 0 { assert entries[i] == entries[1..][i - 1] && read[i] == others[i - 1]; }
    }
  }
}
