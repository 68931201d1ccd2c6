/**
 * The setup fingerprint (packages/agent-telemetry/src/fingerprint.ts) up to the text that is
 * hashed: it is the same for two setups exactly when they differ in no more than the order in
 * which tools, and prompts of different ids, were listed.
 */
module Fingerprint {
  import opened Common
  import opened JsonText
  import opened KeySort
  import opened CanonicalJson
  import opened CanonicalProof

  datatype Prompt = Prompt(id: Text, sha256: Text)

  datatype Projection = Projection(
    spec: Text, host: Text, model: Option<Text>, prompts: seq<Prompt>,
    allow: seq<Text>, deny: seq<Text>, mode: Option<Text>,
    temperature: Option<Num>, topP: Option<Num>, reasoningEffort: Option<Text>)

  function IdOf(p: Prompt): Text { p.id }

  function Itself(t: Text): Text { t }

  function Normalize(p: Projection): Projection {
    p.(prompts := SortBy(IdOf, p.prompts), allow := SortBy(Itself, p.allow), deny := SortBy(Itself, p.deny))
  }

  // ---- the projection as a JavaScript object ------------------------------------------------------------

  // The property names, in code units.

  const ID: Text := [0x69, 0x64]
  const SHA256: Text := [0x73, 0x68, 0x61, 0x32, 0x35, 0x36]
  const ALLOW: Text := [0x61, 0x6C, 0x6C, 0x6F, 0x77]
  const DENY: Text := [0x64, 0x65, 0x6E, 0x79]
  const MODE: Text := [0x6D, 0x6F, 0x64, 0x65]
  const TEMPERATURE: Text := [0x74, 0x65, 0x6D, 0x70, 0x65, 0x72, 0x61, 0x74, 0x75, 0x72, 0x65]
  const TOP_P: Text := [0x74, 0x6F, 0x70, 0x50]
  const REASONING_EFFORT: Text := [0x72, 0x65, 0x61, 0x73, 0x6F, 0x6E, 0x69, 0x6E, 0x67, 0x45, 0x66, 0x66, 0x6F, 0x72, 0x74]
  const SPEC: Text := [0x73, 0x70, 0x65, 0x63]
  const HOST: Text := [0x68, 0x6F, 0x73, 0x74]
  const MODEL: Text := [0x6D, 0x6F, 0x64, 0x65, 0x6C]
  const PROMPTS: Text := [0x70, 0x72, 0x6F, 0x6D, 0x70, 0x74, 0x73]
  const TOOLS: Text := [0x74, 0x6F, 0x6F, 0x6C, 0x73]
  const SAMPLING: Text := [0x73, 0x61, 0x6D, 0x70, 0x6C, 0x69, 0x6E, 0x67]

  function OrNull(t: Option<Text>): Json { if t.Some? then Str(t.value) else Null }

  function NumOrNull(n: Option<Num>): Json { if n.Some? then Number(n.value) else Null }

  function PromptJson(p: Prompt): Json { Obj([Entry(ID, Str(p.id)), Entry(SHA256, Str(p.sha256))]) }

  function PromptsJson(prompts: seq<Prompt>): (items: seq<Json>)
    ensures |items| == |prompts| && forall i :: 0 <= i < |items| ==> items[i] == PromptJson(prompts[i])
  {
    if prompts == [] then [] else [PromptJson(prompts[0])] + PromptsJson(prompts[1..])
  }

  function TextsJson(texts: seq<Text>): (items: seq<Json>)
    ensures |items| == |texts| && forall i :: 0 <= i < |items| ==> items[i] == Str(texts[i])
  {
    if texts == [] then [] else [Str(texts[0])] + TextsJson(texts[1..])
  }

  function ToolsJson(p: Projection): Json {
    Obj([Entry(ALLOW, Arr(TextsJson(p.allow))), Entry(DENY, Arr(TextsJson(p.deny))), Entry(MODE, OrNull(p.mode))])
  }

  function SamplingJson(p: Projection): Json {
    Obj([Entry(TEMPERATURE, NumOrNull(p.temperature)), Entry(TOP_P, NumOrNull(p.topP)),
         Entry(REASONING_EFFORT, OrNull(p.reasoningEffort))])
  }

  function Six(spec: Json, host: Json, model: Json, prompts: Json, tools: Json, sampling: Json): Json {
    Obj([Entry(SPEC, spec), Entry(HOST, host), Entry(MODEL, model), Entry(PROMPTS, prompts), Entry(TOOLS, tools), Entry(SAMPLING, sampling)])
  }

  function ToJson(p: Projection): Json {
    Six(Str(p.spec), Str(p.host), OrNull(p.model), Arr(PromptsJson(p.prompts)), ToolsJson(p), SamplingJson(p))
  }

  /** The text that is hashed. */
  function FingerprintInput(p: Projection): Result<Text, Refusal>
    requires Readable(p)
  {
    ProjectionWellFormed(Normalize(p));
    Canonicalize(ToJson(Normalize(p)))
  }

  /** The numbers are doubles, in their shortest decimals. */
  predicate Readable(p: Projection) {
    (p.temperature.Some? ==> ValidNum(p.temperature.value)) && (p.topP.Some? ==> ValidNum(p.topP.value))
  }

  predicate FiniteNumbers(p: Projection) {
    (p.temperature.Some? ==> !p.temperature.value.NotFinite?) && (p.topP.Some? ==> !p.topP.value.NotFinite?)
  }

  lemma NamesDiffer()
    ensures ID != SHA256 && ALLOW != DENY && ALLOW != MODE && DENY != MODE
    ensures TEMPERATURE != TOP_P && TEMPERATURE != REASONING_EFFORT && TOP_P != REASONING_EFFORT
  {
    assert |ID| == 2 && |SHA256| == 6 && |ALLOW| == 5 && DENY[0] == 0x64 && MODE[0] == 0x6D && |DENY| == |MODE| == 4;
    assert |TEMPERATURE| == 11 && |TOP_P| == 4 && |REASONING_EFFORT| == 15;
  }

  lemma TopNamesDiffer()
    ensures SPEC != HOST && SPEC != MODEL && SPEC != PROMPTS && SPEC != TOOLS && SPEC != SAMPLING
    ensures HOST != MODEL && HOST != PROMPTS && HOST != TOOLS && HOST != SAMPLING
    ensures MODEL != PROMPTS && MODEL != TOOLS && MODEL != SAMPLING
    ensures PROMPTS != TOOLS && PROMPTS != SAMPLING && TOOLS != SAMPLING
  {
    assert |SPEC| == |HOST| == 4 && |MODEL| == |TOOLS| == 5 && |PROMPTS| == 7 && |SAMPLING| == 8;
    assert SPEC[0] == 0x73 && HOST[0] == 0x68 && MODEL[0] == 0x6D && TOOLS[0] == 0x74;
  }

  lemma ToolsWellFormed(p: Projection)
    ensures WellFormed(ToolsJson(p)) && Printable(ToolsJson(p))
  {
    NamesDiffer();
    TextsWellFormed(p.allow);
    TextsWellFormed(p.deny);
  }

  lemma TextsWellFormed(texts: seq<Text>)
    ensures WellFormed(Arr(TextsJson(texts))) && Printable(Arr(TextsJson(texts)))
  {
    forall i | 0 <= i < |texts| ensures WellFormed(TextsJson(texts)[i]) && Printable(TextsJson(texts)[i]) {
      assert TextsJson(texts)[i] == Str(texts[i]);
    }
  }

  lemma SamplingWellFormed(p: Projection)
    requires Readable(p)
    ensures WellFormed(SamplingJson(p)) && (Printable(SamplingJson(p)) <==> FiniteNumbers(p))
  {
    NamesDiffer();
    var sampling := SamplingJson(p);
    assert sampling.entries[0].value == NumOrNull(p.temperature) && sampling.entries[1].value == NumOrNull(p.topP);
  }

  lemma PromptWellFormed(p: Prompt)
    ensures WellFormed(PromptJson(p)) && Printable(PromptJson(p))
  {
    NamesDiffer();
  }

  lemma PromptsWellFormed(prompts: seq<Prompt>)
    ensures WellFormed(Arr(PromptsJson(prompts))) && Printable(Arr(PromptsJson(prompts)))
  {
    forall i | 0 <= i < |prompts| ensures WellFormed(PromptsJson(prompts)[i]) && Printable(PromptsJson(prompts)[i]) {
      PromptWellFormed(prompts[i]);
    }
  }

  lemma ProjectionWellFormed(p: Projection)
    requires Readable(p)
    ensures WellFormed(ToJson(p)) && (Printable(ToJson(p)) <==> FiniteNumbers(p))
  {
    TopNamesDiffer();
    ToolsWellFormed(p);
    SamplingWellFormed(p);
    PromptsWellFormed(p.prompts);
    assert ToJson(p).entries[5].value == SamplingJson(p);
  }

  // ---- what the same object means for the projection ----------------------------------------------------

  /** Objects with the same properties in the same places are the same when the values are. */
  lemma SameAligned(a: seq<Entry>, b: seq<Entry>)
    requires |a| == |b| && DistinctKeys(a) && forall i :: 0 <= i < |a| ==> a[i].key == b[i].key
    requires forall i :: 0 <= i < |a| ==> !a[i].value.Undefined? && !b[i].value.Undefined?
    ensures Same(Obj(a), Obj(b)) <==> forall i :: 0 <= i < |a| ==> Same(a[i].value, b[i].value)
  {
    if Same(Obj(a), Obj(b)) {
      forall i | 0 <= i < |a| ensures Same(a[i].value, b[i].value) {
        var j :| 0 <= j < |b| && a[i].key == b[j].key && Same(a[i].value, b[j].value);
        assert a[j].key == b[j].key;
        assert i == j;
      }
    }
  }

  predicate SameOption(a: Option<Num>, b: Option<Num>) {
    (a.None? && b.None?) || (a.Some? && b.Some? && SameNum(a.value, b.value))
  }

  lemma SameLeaves(t: Option<Text>, u: Option<Text>, m: Option<Num>, n: Option<Num>)
    ensures Same(OrNull(t), OrNull(u)) <==> t == u
    ensures Same(NumOrNull(m), NumOrNull(n)) <==> SameOption(m, n)
  {
  }

  lemma SameTexts(a: seq<Text>, b: seq<Text>)
    ensures Same(Arr(TextsJson(a)), Arr(TextsJson(b))) <==> a == b
  {
    var x, y := TextsJson(a), TextsJson(b);
    if Same(Arr(x), Arr(y)) {
      forall i | 0 <= i < |a| ensures a[i] == b[i] { assert Same(x[i], y[i]); }
    }
  }

  lemma SamePrompt(p: Prompt, q: Prompt)
    ensures Same(PromptJson(p), PromptJson(q)) <==> p == q
  {
    NamesDiffer();
    var a, b := PromptJson(p).entries, PromptJson(q).entries;
    SameAligned(a, b);
    assert Same(a[0].value, b[0].value) <==> p.id == q.id;
    assert Same(a[1].value, b[1].value) <==> p.sha256 == q.sha256;
  }

  lemma SamePrompts(a: seq<Prompt>, b: seq<Prompt>)
    ensures Same(Arr(PromptsJson(a)), Arr(PromptsJson(b))) <==> a == b
  {
    var x, y := PromptsJson(a), PromptsJson(b);
    if Same(Arr(x), Arr(y)) {
      forall i | 0 <= i < |a| ensures a[i] == b[i] {
        assert Same(x[i], y[i]);
        SamePrompt(a[i], b[i]);
      }
    }
    if a == b {
      forall i | 0 <= i < |a| ensures Same(x[i], y[i]) { SamePrompt(a[i], b[i]); }
    }
  }

  lemma SameThree(k: seq<Text>, a: seq<Json>, b: seq<Json>)
    requires |k| == |a| == |b| == 3 && k[0] != k[1] && k[0] != k[2] && k[1] != k[2]
    requires forall i :: 0 <= i < 3 ==> !a[i].Undefined? && !b[i].Undefined?
    ensures Same(Obj([Entry(k[0], a[0]), Entry(k[1], a[1]), Entry(k[2], a[2])]), Obj([Entry(k[0], b[0]), Entry(k[1], b[1]), Entry(k[2], b[2])])) <==>
      Same(a[0], b[0]) && Same(a[1], b[1]) && Same(a[2], b[2])
  {
    var x := [Entry(k[0], a[0]), Entry(k[1], a[1]), Entry(k[2], a[2])];
    var y := [Entry(k[0], b[0]), Entry(k[1], b[1]), Entry(k[2], b[2])];
    assert forall i :: 0 <= i < 3 ==> x[i] == Entry(k[i], a[i]) && y[i] == Entry(k[i], b[i]);
    SameAligned(x, y);
  }

  lemma SameTools(p: Projection, q: Projection)
    ensures Same(ToolsJson(p), ToolsJson(q)) <==> p.allow == q.allow && p.deny == q.deny && p.mode == q.mode
  {
    NamesDiffer();
    SameThree([ALLOW, DENY, MODE], [Arr(TextsJson(p.allow)), Arr(TextsJson(p.deny)), OrNull(p.mode)],
              [Arr(TextsJson(q.allow)), Arr(TextsJson(q.deny)), OrNull(q.mode)]);
    SameTexts(p.allow, q.allow);
    SameTexts(p.deny, q.deny);
    SameLeaves(p.mode, q.mode, None, None);
  }

  lemma SameSampling(p: Projection, q: Projection)
    ensures Same(SamplingJson(p), SamplingJson(q)) <==>
      SameOption(p.temperature, q.temperature) && SameOption(p.topP, q.topP) && p.reasoningEffort == q.reasoningEffort
  {
    NamesDiffer();
    SameThree([TEMPERATURE, TOP_P, REASONING_EFFORT], [NumOrNull(p.temperature), NumOrNull(p.topP), OrNull(p.reasoningEffort)],
              [NumOrNull(q.temperature), NumOrNull(q.topP), OrNull(q.reasoningEffort)]);
    SameLeaves(p.reasoningEffort, q.reasoningEffort, p.temperature, q.temperature);
    SameLeaves(None, None, p.topP, q.topP);
  }

  /** The parts of two projections other than prompts and tools agree. */
  predicate SameScalars(p: Projection, q: Projection) {
    && p.spec == q.spec && p.host == q.host && p.model == q.model && p.mode == q.mode
    && SameOption(p.temperature, q.temperature) && SameOption(p.topP, q.topP) && p.reasoningEffort == q.reasoningEffort
  }

  /** The pairwise verdicts of two aligned lists. */
  ghost predicate Verdicts(a: seq<Entry>, b: seq<Entry>, verdicts: seq<bool>) {
    |a| == |b| == |verdicts| && forall i :: 0 <= i < |a| ==> verdicts[i] == Same(a[i].value, b[i].value)
  }

  lemma AlignedVerdicts(a: seq<Entry>, b: seq<Entry>, verdicts: seq<bool>)
    requires Verdicts(a, b, verdicts) && DistinctKeys(a) && forall i :: 0 <= i < |a| ==> a[i].key == b[i].key
    requires forall i :: 0 <= i < |a| ==> !a[i].value.Undefined? && !b[i].value.Undefined?
    ensures Same(Obj(a), Obj(b)) <==> forall i :: 0 <= i < |verdicts| ==> verdicts[i]
  {
    SameAligned(a, b);
  }

  lemma SixKeys(v: seq<Json>)
    requires |v| == 6
    ensures DistinctKeys(Six(v[0], v[1], v[2], v[3], v[4], v[5]).entries)
    ensures forall i :: 0 <= i < 6 ==> Six(v[0], v[1], v[2], v[3], v[4], v[5]).entries[i].value == v[i]
  {
    TopNamesDiffer();
  }

  lemma SameSix(v: seq<Json>, w: seq<Json>)
    requires |v| == |w| == 6 && forall i :: 0 <= i < 6 ==> !v[i].Undefined? && !w[i].Undefined?
    ensures Same(Six(v[0], v[1], v[2], v[3], v[4], v[5]), Six(w[0], w[1], w[2], w[3], w[4], w[5])) <==>
      Same(v[0], w[0]) && Same(v[1], w[1]) && Same(v[2], w[2]) && Same(v[3], w[3]) && Same(v[4], w[4]) && Same(v[5], w[5])
  {
    var a, b := Six(v[0], v[1], v[2], v[3], v[4], v[5]).entries, Six(w[0], w[1], w[2], w[3], w[4], w[5]).entries;
    SixKeys(v);
    SixKeys(w);
    var verdicts := seq(6, i requires 0 <= i < 6 => Same(v[i], w[i]));
    AlignedVerdicts(a, b, verdicts);
    AllSix(verdicts);
  }

  lemma AllSix(v: seq<bool>)
    requires |v| == 6
    ensures (forall i :: 0 <= i < |v| ==> v[i]) <==> v[0] && v[1] && v[2] && v[3] && v[4] && v[5]
  {
  }

  lemma SameTop(p: Projection, q: Projection)
    ensures Same(ToJson(p), ToJson(q)) <==>
      && Same(Str(p.spec), Str(q.spec)) && Same(Str(p.host), Str(q.host)) && Same(OrNull(p.model), OrNull(q.model))
      && Same(Arr(PromptsJson(p.prompts)), Arr(PromptsJson(q.prompts)))
      && Same(ToolsJson(p), ToolsJson(q)) && Same(SamplingJson(p), SamplingJson(q))
  {
    SameSix([Str(p.spec), Str(p.host), OrNull(p.model), Arr(PromptsJson(p.prompts)), ToolsJson(p), SamplingJson(p)],
            [Str(q.spec), Str(q.host), OrNull(q.model), Arr(PromptsJson(q.prompts)), ToolsJson(q), SamplingJson(q)]);
  }

  lemma SameStrings(a: Text, b: Text)
    ensures Same(Str(a), Str(b)) <==> a == b
  {
  }

  lemma SameJsonIff(p: Projection, q: Projection)
    ensures Same(ToJson(p), ToJson(q)) <==>
      SameScalars(p, q) && p.prompts == q.prompts && p.allow == q.allow && p.deny == q.deny
  {
    SameTop(p, q);
    SameStrings(p.spec, q.spec);
    SameStrings(p.host, q.host);
    SameLeaves(p.model, q.model, None, None);
    SamePrompts(p.prompts, q.prompts);
    SameTools(p, q);
    SameSampling(p, q);
  }

  /** Two setups are hashed from the same text exactly when their sorted forms agree field by field. */
  lemma SameInputIff(p: Projection, q: Projection)
    requires Readable(p) && Readable(q) && FiniteNumbers(p) && FiniteNumbers(q)
    ensures FingerprintInput(p).Ok? && FingerprintInput(q).Ok?
    ensures FingerprintInput(p) == FingerprintInput(q) <==>
      SameScalars(p, q) && SortBy(IdOf, p.prompts) == SortBy(IdOf, q.prompts)
      && SortBy(Itself, p.allow) == SortBy(Itself, q.allow) && SortBy(Itself, p.deny) == SortBy(Itself, q.deny)
  {
    var a, b := Normalize(p), Normalize(q);
    ProjectionWellFormed(a);
    ProjectionWellFormed(b);
    CanonicalIff(ToJson(a), ToJson(b));
    SameJsonIff(a, b);
  }

  /**
   * Two setups are hashed from the same text exactly when they agree on every field, on allowed
   * and denied tools up to order, and for every id list the same prompts in the same order.
   */
  lemma FingerprintExactly(p: Projection, q: Projection)
    requires Readable(p) && Readable(q) && FiniteNumbers(p) && FiniteNumbers(q)
    ensures FingerprintInput(p) == FingerprintInput(q) <==>
      SameScalars(p, q) && ListedAlike(IdOf, p.prompts, q.prompts)
      && multiset(p.allow) == multiset(q.allow) && multiset(p.deny) == multiset(q.deny)
  {
    SameInputIff(p, q);
    StableSortIff(IdOf, p.prompts, q.prompts);
    SortIff(Itself, p.allow, q.allow);
    SortIff(Itself, p.deny, q.deny);
  }

  ghost predicate DistinctIds(p: Projection) {
    forall i, j :: 0 <= i < j < |p.prompts| ==> p.prompts[i].id != p.prompts[j].id
  }

  /** Distinct ids are enough for an id to name one prompt; listing one prompt twice does no harm. */
  lemma IdsDetermine(p: Projection)
    requires DistinctIds(p)
    ensures KeyDetermines(IdOf, p.prompts)
  {
    forall x, y | x in p.prompts && y in p.prompts && IdOf(x) == IdOf(y) ensures x == y {
      var i :| 0 <= i < |p.prompts| && p.prompts[i] == x;
      var j :| 0 <= j < |p.prompts| && p.prompts[j] == y;
      assert i == j;
    }
  }

  /**
   * Two setups, in the first of which an id names one prompt, are hashed from the same text
   * exactly when they agree on every field and, up to order, on prompts and on allowed and denied
   * tools.
   */
  lemma FingerprintIff(p: Projection, q: Projection)
    requires Readable(p) && Readable(q) && FiniteNumbers(p) && FiniteNumbers(q) && KeyDetermines(IdOf, p.prompts)
    ensures FingerprintInput(p).Ok? && FingerprintInput(q).Ok?
    ensures FingerprintInput(p) == FingerprintInput(q) <==>
      SameScalars(p, q) && multiset(p.prompts) == multiset(q.prompts)
      && multiset(p.allow) == multiset(q.allow) && multiset(p.deny) == multiset(q.deny)
  {
    SameInputIff(p, q);
    SortIff(IdOf, p.prompts, q.prompts);
    SortIff(Itself, p.allow, q.allow);
    SortIff(Itself, p.deny, q.deny);
  }

  lemma ReorderedIff(p: Projection, qs: seq<Prompt>)
    requires Readable(p) && FiniteNumbers(p)
    ensures FingerprintInput(p.(prompts := qs)) == FingerprintInput(p) <==> SortBy(IdOf, qs) == SortBy(IdOf, p.prompts)
  {
    SameInputIff(p.(prompts := qs), p);
  }

  /**
   * "Two machines listing the same agents in a different order must fingerprint the same": the
   * order of prompts does not matter exactly when no id is given to two different prompts.
   */
  lemma PromptOrderDoesNotMatterIff(p: Projection)
    requires Readable(p) && FiniteNumbers(p)
    ensures (forall qs :: multiset(qs) == multiset(p.prompts) ==>
               FingerprintInput(p.(prompts := qs)) == FingerprintInput(p)) <==>
      KeyDetermines(IdOf, p.prompts)
  {
    OrderIsImmaterialIff(IdOf, p.prompts);
    if KeyDetermines(IdOf, p.prompts) {
      forall qs | multiset(qs) == multiset(p.prompts)
        ensures FingerprintInput(p.(prompts := qs)) == FingerprintInput(p)
      {
        ReorderedIff(p, qs);
      }
    } else {
      var qs :| multiset(qs) == multiset(p.prompts) && SortBy(IdOf, qs) != SortBy(IdOf, p.prompts);
      ReorderedIff(p, qs);
    }
  }

  /** With one id for two prompts, listing the two the other way round is another text, whatever follows. */
  lemma RepeatedIdsKeepTheirOrder(a: Projection, x: Prompt, y: Prompt, rest: seq<Prompt>)
    requires Readable(a) && FiniteNumbers(a) && x != y && x.id == y.id
    ensures FingerprintInput(a.(prompts := [x, y] + rest)) != FingerprintInput(a.(prompts := [y, x] + rest))
  {
    SwappedSortDifferently(IdOf, x, y, rest);
    SameInputIff(a.(prompts := [x, y] + rest), a.(prompts := [y, x] + rest));
  }
}
