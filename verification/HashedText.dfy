/**
 * The text that is hashed (packages/agent-telemetry/src/fingerprint.ts): its names as they are
 * spelled, and what a JSON reader makes of it.
 */
module HashedText {
  import opened Common
  import opened JsonText
  import opened JsonStrings
  import opened KeySort
  import opened CanonicalJson
  import opened CanonicalProof
  import opened Fingerprint
  import opened CanonicalOrder
  import opened JsonReader
  import opened CanonicalReads

  /** A string of this file as UTF-16 code units. */
  function Units(s: string): Text { seq(|s|, i requires 0 <= i < |s| => s[i] as int % 0x1_0000) }

  lemma ShortNamesAreSpelled()
    ensures ID == Units("id") && ALLOW == Units("allow") && DENY == Units("deny") && MODE == Units("mode")
    ensures TOP_P == Units("topP") && SPEC == Units("spec") && HOST == Units("host")
  {
  }

  lemma LongNamesAreSpelled()
    ensures SHA256 == Units("sha256") && MODEL == Units("model") && PROMPTS == Units("prompts") && TOOLS == Units("tools")
    ensures SAMPLING == Units("sampling")
  {
  }

  lemma LongestNamesAreSpelled()
    ensures TEMPERATURE == Units("temperature") && REASONING_EFFORT == Units("reasoningEffort")
  {
  }

  /** The object that is hashed, property by property; what a setup does not have is null. */
  lemma TheObjectIs(p: Projection)
    ensures ToJson(p) == Obj([
      Entry(Units("spec"), Str(p.spec)), Entry(Units("host"), Str(p.host)),
      Entry(Units("model"), if p.model.Some? then Str(p.model.value) else Null),
      Entry(Units("prompts"), Arr(seq(|p.prompts|, i requires 0 <= i < |p.prompts| =>
        Obj([Entry(Units("id"), Str(p.prompts[i].id)), Entry(Units("sha256"), Str(p.prompts[i].sha256))])))),
      Entry(Units("tools"), Obj([
        Entry(Units("allow"), Arr(seq(|p.allow|, i requires 0 <= i < |p.allow| => Str(p.allow[i])))),
        Entry(Units("deny"), Arr(seq(|p.deny|, i requires 0 <= i < |p.deny| => Str(p.deny[i])))),
        Entry(Units("mode"), if p.mode.Some? then Str(p.mode.value) else Null)])),
      Entry(Units("sampling"), Obj([
        Entry(Units("temperature"), if p.temperature.Some? then Number(p.temperature.value) else Null),
        Entry(Units("topP"), if p.topP.Some? then Number(p.topP.value) else Null),
        Entry(Units("reasoningEffort"), if p.reasoningEffort.Some? then Str(p.reasoningEffort.value) else Null)]))])
  {
    ShortNamesAreSpelled(); LongNamesAreSpelled(); LongestNamesAreSpelled();
    assert PromptsJson(p.prompts) == seq(|p.prompts|, i requires 0 <= i < |p.prompts| =>
      Obj([Entry(Units("id"), Str(p.prompts[i].id)), Entry(Units("sha256"), Str(p.prompts[i].sha256))]));
    assert TextsJson(p.allow) == seq(|p.allow|, i requires 0 <= i < |p.allow| => Str(p.allow[i]));
    assert TextsJson(p.deny) == seq(|p.deny|, i requires 0 <= i < |p.deny| => Str(p.deny[i]));
  }

  /** A reader of JSON gets the normalised setup back from the text that is hashed, all names in ascending order. */
  lemma TheTextReadsBack(p: Projection) returns (w: Json)
    requires Readable(p) && FiniteNumbers(p)
    ensures FingerprintInput(p).Ok? && ReadValue(FingerprintInput(p).value) == Some((w, []))
    ensures Same(ToJson(Normalize(p)), w) && Ascends(w)
  {
    var n := Normalize(p);
    ProjectionWellFormed(n);
    PrintableIff(ToJson(n));
    w := ReadsBack(ToJson(n), []);
    assert FingerprintInput(p).value + [] == FingerprintInput(p).value;
  }
}
