/**
 * Canonical JSON (packages/agent-telemetry/src/fingerprint.ts, `canonicalize`; sections 3.2.2 and
 * 3.2.3 of RFC 8785): equal texts are exactly equal values, up to key order and undefined entries.
 */
module CanonicalJson {
  import opened Common
  import opened JsonText
  import opened JsonStrings
  import opened KeySort

  /** A JavaScript value. `Other` is a value JSON has no form for: a function, a symbol, a bigint. */
  datatype Json =
    | Null
    | Bool(value: bool)
    | Number(number: Num)
    | Str(text: Text)
    | Arr(items: seq<Json>)
    | Obj(entries: seq<Entry>)
    | Undefined
    | Other(typeName: string)

  datatype Entry = Entry(key: Text, value: Json)

  datatype Refusal = NonFiniteNumber | CannotContain(typeName: string)

  const NULL: Text := [0x6E, 0x75, 0x6C, 0x6C]
  const TRUE: Text := [0x74, 0x72, 0x75, 0x65]
  const FALSE: Text := [0x66, 0x61, 0x6C, 0x73, 0x65]
  const OPEN_ARRAY: Unit := 0x5B
  const CLOSE_ARRAY: Unit := 0x5D
  const OPEN_OBJECT: Unit := 0x7B
  const CLOSE_OBJECT: Unit := 0x7D

  // ---- sorting entries by key ---------------------------------------------------------------------------

  function Defined(entries: seq<Entry>): seq<Entry> {
    if entries == [] then []
    else (if entries[0].value.Undefined? then [] else [entries[0]]) + Defined(entries[1..])
  }

  function KeyOf(e: Entry): Text { e.key }

  /** The entries written for an object. */
  function Written(entries: seq<Entry>): seq<Entry> { SortBy(KeyOf, Defined(entries)) }

  lemma {:induction false} DefinedHas(entries: seq<Entry>)
    ensures forall e :: e in Defined(entries) <==> e in entries && !e.value.Undefined?
  {
    if entries != [] {
      DefinedHas(entries[1..]);
      assert entries == [entries[0]] + entries[1..];
    }
  }

  lemma WrittenHas(entries: seq<Entry>)
    ensures forall e :: e in Written(entries) <==> e in entries && !e.value.Undefined?
  {
    DefinedHas(entries);
    SortHas(KeyOf, Defined(entries));
  }

  // ---- the printer ------------------------------------------------------------------------------------------

  function Canonicalize(v: Json): Result<Text, Refusal>
    requires WellFormed(v)
    decreases v, 1, 0
  {
    match v
    case Null => Ok(NULL)
    case Bool(b) => Ok(if b then TRUE else FALSE)
    case Number(n) => if n.NotFinite? then Err(NonFiniteNumber) else Ok(NumText(n))
    case Str(s) => Ok(Quote(s))
    case Arr(items) =>
      (match Items(v, items)
       case Err(e) => Err(e)
       case Ok(texts) => Ok([OPEN_ARRAY] + Join(texts) + [CLOSE_ARRAY]))
    case Obj(entries) =>
      WrittenHas(entries);
      (match Members(v, Written(entries))
       case Err(e) => Err(e)
       case Ok(texts) => Ok([OPEN_OBJECT] + Join(texts) + [CLOSE_OBJECT]))
    case Undefined => Err(CannotContain("undefined"))
    case Other(name) => Err(CannotContain(name))
  }

  /** The texts of the items of `v` from some point on; the first refusal stops the walk. */
  function Items(ghost v: Json, items: seq<Json>): Result<seq<Text>, Refusal>
    requires forall i :: 0 <= i < |items| ==> items[i] < v && WellFormed(items[i])
    decreases v, 0, |items|
  {
    if items == [] then Ok([])
    else
      match Canonicalize(items[0])
      case Err(e) => Err(e)
      case Ok(text) =>
        match Items(v, items[1..])
        case Err(e) => Err(e)
        case Ok(texts) => Ok([text] + texts)
  }

  function Members(ghost v: Json, entries: seq<Entry>): Result<seq<Text>, Refusal>
    requires forall i :: 0 <= i < |entries| ==> entries[i].value < v && WellFormed(entries[i].value)
    decreases v, 0, |entries|
  {
    if entries == [] then Ok([])
    else
      match Canonicalize(entries[0].value)
      case Err(e) => Err(e)
      case Ok(text) =>
        match Members(v, entries[1..])
        case Err(e) => Err(e)
        case Ok(texts) => Ok([Quote(entries[0].key) + [COLON] + text] + texts)
  }

  function Join(texts: seq<Text>): Text {
    if texts == [] then []
    else if |texts| == 1 then texts[0]
    else texts[0] + [COMMA] + Join(texts[1..])
  }

  // ---- values ---------------------------------------------------------------------------------------------------

  /** What the language guarantees: an object has a key once, a finite number has a shortest decimal. */
  predicate WellFormed(v: Json) {
    match v
    case Number(n) => ValidNum(n)
    case Arr(items) => forall i :: 0 <= i < |items| ==> WellFormed(items[i])
    case Obj(entries) =>
      (forall i, j :: 0 <= i < j < |entries| ==> entries[i].key != entries[j].key) &&
      (forall i :: 0 <= i < |entries| ==> WellFormed(entries[i].value))
    case _ => true
  }

  /** Nothing in the value is refused: undefined may stand only as the value of an entry. */
  predicate Printable(v: Json) {
    match v
    case Number(n) => !n.NotFinite?
    case Arr(items) => forall i :: 0 <= i < |items| ==> Printable(items[i])
    case Obj(entries) => forall i :: 0 <= i < |entries| ==> entries[i].value.Undefined? || Printable(entries[i].value)
    case Undefined => false
    case Other(_) => false
    case _ => true
  }

  /** The same JSON value: key order and undefined entries do not matter. */
  ghost predicate Same(v: Json, w: Json)
    decreases v
  {
    match v
    case Number(n) => w.Number? && SameNum(n, w.number)
    case Arr(items) =>
      w.Arr? && |items| == |w.items| && forall i :: 0 <= i < |items| ==> Same(items[i], w.items[i])
    case Obj(entries) =>
      w.Obj? &&
      (forall i :: 0 <= i < |entries| && !entries[i].value.Undefined? ==>
         exists j :: 0 <= j < |w.entries| && entries[i].key == w.entries[j].key && Same(entries[i].value, w.entries[j].value)) &&
      (forall j :: 0 <= j < |w.entries| && !w.entries[j].value.Undefined? ==>
         exists i :: 0 <= i < |entries| && entries[i].key == w.entries[j].key && !entries[i].value.Undefined?)
    case _ => v == w
  }
}
