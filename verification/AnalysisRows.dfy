/**
 * Which JSON the worker's reader (apps/worker/src/analysis-codec.ts) takes for which analysis:
 * members it does not know are passed over, everything else has to be there as it is written.
 */
module AnalysisRows {
  import opened Common
  import opened Analyses
  import opened AnalysisReader
  import opened AnalysisStored

  /** Everything `wanted` says is said by `raw`, which may have more members. */
  ghost predicate Covers(raw: Raw, wanted: Raw)
    decreases wanted
  {
    match wanted
    case RawObject(members) =>
      raw.RawObject? && forall key :: key in members ==> key in raw.members && Covers(raw.members[key], members[key])
    case RawArray(items) =>
      raw.RawArray? && |raw.items| == |items| && forall i :: 0 <= i < |items| ==> Covers(raw.items[i], items[i])
    case _ => raw == wanted
  }

  /** One member of an object, as asked for. */
  ghost predicate Has(o: Raw, key: string, wanted: Raw) {
    o.RawObject? && key in o.members && Covers(o.members[key], wanted)
  }

  ghost predicate Lacks(o: Raw, key: string) { o.RawObject? && key !in o.members }

  lemma HasText(o: Raw, key: string, text: string)
    requires o.RawObject?
    ensures Has(o, key, RawString(text)) <==> AsText(Member(o, key)) == Some(text)
  {
  }

  lemma HasNumber(o: Raw, key: string, n: real)
    requires o.RawObject?
    ensures Has(o, key, RawNumber(n)) <==> AsNumber(Member(o, key)) == Some(n)
  {
  }

  lemma CoversOne(o: Raw, a: string, x: Raw)
    ensures Covers(o, RawObject(map[a := x])) <==> Has(o, a, x)
  {
    assert map[a := x][a] == x;
  }

  lemma CoversTwo(o: Raw, a: string, x: Raw, b: string, y: Raw)
    requires a != b
    ensures Covers(o, RawObject(map[a := x, b := y])) <==> Has(o, a, x) && Has(o, b, y)
  {
    var m := map[a := x, b := y];
    assert m[a] == x && m[b] == y;
    assert forall key :: key in m ==> key == a || key == b;
  }

  lemma CoversThree(o: Raw, a: string, x: Raw, b: string, y: Raw, c: string, z: Raw)
    requires a != b && a != c && b != c
    ensures Covers(o, RawObject(map[a := x, b := y, c := z])) <==> Has(o, a, x) && Has(o, b, y) && Has(o, c, z)
  {
    var m := map[a := x, b := y, c := z];
    assert m[a] == x && m[b] == y && m[c] == z;
    assert forall key :: key in m ==> key == a || key == b || key == c;
  }

  // ---- fields and values ----------------------------------------------------------------------------------

  lemma FieldIff(raw: Raw, f: Field)
    ensures ReadField(Some(raw)) == Some(f) <==> Covers(raw, RawField(f)) && (f.Property? ==> f.key != "")
  {
    var name := if f.Dimension? then f.name else f.key;
    var source := if f.Dimension? then "dimension" else "property";
    CoversTwo(raw, "source", RawString(source), "key", RawString(name));
    if raw.RawObject? {
      HasText(raw, "source", source);
      HasText(raw, "key", name);
    }
  }

  lemma ScalarIff(raw: Raw, v: Scalar)
    ensures ReadScalar(Some(raw)) == Some(v) <==> Covers(raw, RawScalar(v))
  {
  }

  lemma {:induction false} ScalarsIff(raws: seq<Raw>, vs: seq<Scalar>)
    ensures ReadScalars(raws) == Some(vs) <==> Covers(RawArray(raws), RawArray(RawScalars(vs)))
  {
    LengthOfScalars(vs);
    if raws != [] && vs != [] {
      ScalarIff(raws[0], vs[0]);
      ScalarsIff(raws[1..], vs[1..]);
      CoversFront(raws, RawScalars(vs));
      assert RawScalars(vs)[1..] == RawScalars(vs[1..]);
      assert vs == [vs[0]] + vs[1..];
      ConsIff(vs, ReadScalars(raws[1..]));
    }
  }

  lemma {:induction false} LengthOfScalars(vs: seq<Scalar>)
    ensures |RawScalars(vs)| == |vs|
  {
    if vs != [] { LengthOfScalars(vs[1..]); }
  }

  lemma CoversFront(raws: seq<Raw>, wanted: seq<Raw>)
    requires raws != [] && wanted != []
    ensures Covers(RawArray(raws), RawArray(wanted)) <==>
      Covers(raws[0], wanted[0]) && Covers(RawArray(raws[1..]), RawArray(wanted[1..]))
  {
    if Covers(raws[0], wanted[0]) && Covers(RawArray(raws[1..]), RawArray(wanted[1..])) {
      forall i | 0 <= i < |wanted| ensures Covers(raws[i], wanted[i]) {
        if i > 0 { assert raws[i] == raws[1..][i - 1] && wanted[i] == wanted[1..][i - 1]; }
      }
    }
  }

  lemma ConsIff<T>(xs: seq<T>, rest: Option<seq<T>>)
    requires xs != []
    ensures Cons(xs[0], rest) == Some(xs) <==> rest == Some(xs[1..])
  {
    if rest.Some? { assert ([xs[0]] + rest.value)[1..] == rest.value; }
    assert [xs[0]] + xs[1..] == xs;
  }

  // ---- predicates -----------------------------------------------------------------------------------------

  lemma {:induction false} LengthOfPredicates(ps: seq<DomainPredicate>)
    ensures |RawPredicates(RawField, ps)| == |ps|
  {
    if ps != [] { LengthOfPredicates(ps[1..]); }
  }

  lemma EqualityIff(o: Raw, op: EqualityOp, f: Field, v: Scalar)
    requires o.RawObject?
    ensures ReadComparison(o, AsText(Member(o, "op")), f) == Some(Equality(op, f, v)) <==>
      Has(o, "op", RawString(if op.Eq? then "eq" else "neq")) && Has(o, "value", RawScalar(v))
  {
    HasText(o, "op", if op.Eq? then "eq" else "neq");
    if "value" in o.members { ScalarIff(o.members["value"], v); }
  }

  lemma MembershipIff(o: Raw, op: MembershipOp, f: Field, vs: seq<Scalar>)
    requires o.RawObject?
    ensures ReadComparison(o, AsText(Member(o, "op")), f) == Some(Membership(op, f, vs)) <==>
      Has(o, "op", RawString(if op.In? then "in" else "notIn")) && Has(o, "values", RawArray(RawScalars(vs)))
  {
    HasText(o, "op", if op.In? then "in" else "notIn");
    if AsArray(Member(o, "values")).Some? { ScalarsIff(o.members["values"].items, vs); }
  }

  lemma MatchIff(o: Raw, op: MatchOp, f: Field, t: string)
    requires o.RawObject?
    ensures ReadComparison(o, AsText(Member(o, "op")), f) == Some(Match(op, f, t)) <==>
      && Has(o, "op", RawString(if op.Contains? then "contains" else if op.StartsWith? then "startsWith" else "endsWith"))
      && Has(o, "value", RawString(t))
  {
    HasText(o, "op", if op.Contains? then "contains" else if op.StartsWith? then "startsWith" else "endsWith");
    HasText(o, "value", t);
  }

  lemma OrderIff(o: Raw, op: OrderOp, f: Field, n: real)
    requires o.RawObject?
    ensures ReadComparison(o, AsText(Member(o, "op")), f) == Some(Order(op, f, n)) <==>
      && Has(o, "op", RawString(if op.Gt? then "gt" else if op.Gte? then "gte" else if op.Lt? then "lt" else "lte"))
      && Has(o, "value", RawNumber(n))
  {
    HasText(o, "op", if op.Gt? then "gt" else if op.Gte? then "gte" else if op.Lt? then "lt" else "lte");
    HasNumber(o, "value", n);
  }

  lemma PresenceIff(o: Raw, op: PresenceOp, f: Field)
    requires o.RawObject?
    ensures ReadComparison(o, AsText(Member(o, "op")), f) == Some(Presence(op, f)) <==>
      Has(o, "op", RawString(if op.Exists? then "exists" else "notExists"))
  {
    HasText(o, "op", if op.Exists? then "exists" else "notExists");
  }

  /** A comparison, apart from its field: the operator and what it compares with. */
  lemma ComparisonIff(o: Raw, p: DomainPredicate)
    requires o.RawObject? && Leaf(p)
    ensures Covers(o, RawPredicate(RawField, p)) <==>
      Has(o, "field", RawField(p.field)) && ReadComparison(o, AsText(Member(o, "op")), p.field) == Some(p)
  {
    match p
    case Equality(op, f, v) =>
      EqualityIff(o, op, f, v);
      CoversThree(o, "op", RawString(if op.Eq? then "eq" else "neq"), "field", RawField(f), "value", RawScalar(v));
    case Membership(op, f, vs) =>
      MembershipIff(o, op, f, vs);
      CoversThree(o, "op", RawString(if op.In? then "in" else "notIn"), "field", RawField(f), "values", RawArray(RawScalars(vs)));
    case Match(op, f, t) =>
      MatchIff(o, op, f, t);
      CoversThree(o, "op", RawString(if op.Contains? then "contains" else if op.StartsWith? then "startsWith" else "endsWith"),
        "field", RawField(f), "value", RawString(t));
    case Order(op, f, n) =>
      OrderIff(o, op, f, n);
      CoversThree(o, "op", RawString(if op.Gt? then "gt" else if op.Gte? then "gte" else if op.Lt? then "lt" else "lte"),
        "field", RawField(f), "value", RawNumber(n));
    case Presence(op, f) =>
      PresenceIff(o, op, f);
      CoversTwo(o, "op", RawString(if op.Exists? then "exists" else "notExists"), "field", RawField(f));
  }

  /** A comparison that was read has the operator of a comparison, and the field it was given. */
  lemma ComparisonIs(o: Raw, op: Option<string>, f: Field)
    requires o.RawObject? && ReadComparison(o, op, f).Some?
    ensures var p := ReadComparison(o, op, f).value;
      Leaf(p) && p.field == f && op != Some("and") && op != Some("or") && op != Some("not")
  {
  }

  lemma LeafIff(raw: Raw, p: DomainPredicate, depth: nat)
    requires Leaf(p) && depth <= 32
    ensures ReadPredicate(Some(raw), depth) == Some(p) <==> Covers(raw, RawPredicate(RawField, p)) && Readable(p, depth)
  {
    assert Fields(p) == [p.field];
    assert AllNamed([p.field]) <==> Named([p.field][0]);
    if raw.RawObject? {
      ComparisonIff(raw, p);
      LeafRead(raw, p, depth);
    }
  }

  lemma LeafRead(o: Raw, p: DomainPredicate, depth: nat)
    requires o.RawObject? && Leaf(p) && depth <= 32
    ensures ReadPredicate(Some(o), depth) == Some(p) <==>
      && Has(o, "field", RawField(p.field)) && Named(p.field)
      && ReadComparison(o, AsText(Member(o, "op")), p.field) == Some(p)
  {
    var op := AsText(Member(o, "op"));
    if "field" in o.members { FieldIff(o.members["field"], p.field); }
    if ReadComparison(o, op, p.field) == Some(p) { ComparisonIs(o, op, p.field); }
    var f := ReadField(Member(o, "field"));
    if f.Some? && ReadComparison(o, op, f.value).Some? { ComparisonIs(o, op, f.value); }
  }

  lemma JunctionIff(o: Raw, op: JunctionOp, operands: seq<DomainPredicate>, depth: nat)
    requires o.RawObject? && depth <= 32
    requires AsArray(Member(o, "operands")).Some? ==>
      (ReadPredicates(o.members["operands"].items, depth + 1) == Some(operands) <==>
        Covers(o.members["operands"], RawArray(RawPredicates(RawField, operands))) && AllReadable(operands, depth + 1))
    ensures ReadPredicate(Some(o), depth) == Some(Junction(op, operands)) <==>
      Covers(o, RawPredicate(RawField, Junction(op, operands))) && AllReadable(operands, depth + 1)
  {
    var name := if op.And? then "and" else "or";
    CoversTwo(o, "op", RawString(name), "operands", RawArray(RawPredicates(RawField, operands)));
    HasText(o, "op", name);
    var p := ReadPredicate(Some(o), depth);
    if p.Some? && p.value.Junction? { OperatorIs(o, depth); }
  }

  lemma OperatorIs(o: Raw, depth: nat)
    requires o.RawObject? && ReadPredicate(Some(o), depth).Some? && !Leaf(ReadPredicate(Some(o), depth).value)
    ensures var op := AsText(Member(o, "op"));
      if ReadPredicate(Some(o), depth).value.Not? then op == Some("not") else op == Some("and") || op == Some("or")
  {
    var op, f := AsText(Member(o, "op")), ReadField(Member(o, "field"));
    if f.Some? && ReadComparison(o, op, f.value).Some? { ComparisonIs(o, op, f.value); }
  }

  lemma NegationIff(o: Raw, operand: DomainPredicate, depth: nat)
    requires o.RawObject? && depth <= 32
    requires "operand" in o.members ==>
      (ReadPredicate(Some(o.members["operand"]), depth + 1) == Some(operand) <==>
        Covers(o.members["operand"], RawPredicate(RawField, operand)) && Readable(operand, depth + 1))
    ensures ReadPredicate(Some(o), depth) == Some(Not(operand)) <==>
      Covers(o, RawPredicate(RawField, Not(operand))) && Readable(operand, depth + 1)
  {
    CoversTwo(o, "op", RawString("not"), "operand", RawPredicate(RawField, operand));
    HasText(o, "op", "not");
    var p := ReadPredicate(Some(o), depth);
    if p.Some? && p.value.Not? {
      OperatorIs(o, depth);
    }
    if AsText(Member(o, "op")) == Some("not") {
      NotReadsOperand(o, depth);
    }
  }

  lemma NotReadsOperand(o: Raw, depth: nat)
    requires o.RawObject? && depth <= 32 && AsText(Member(o, "op")) == Some("not")
    ensures ReadPredicate(Some(o), depth) ==
      match ReadPredicate(Member(o, "operand"), depth + 1) case None => None case Some(q) => Some(Not(q))
  {
  }

  lemma NestedReadable(p: DomainPredicate, depth: nat)
    requires !Leaf(p) && depth <= 32
    ensures p.Junction? ==> (Readable(p, depth) <==> AllReadable(p.operands, depth + 1))
    ensures p.Not? ==> (Readable(p, depth) <==> Readable(p.operand, depth + 1))
  {
    assert p.Junction? ==> Fields(p) == FieldsOfAll(p.operands);
  }

  /** The predicate is read from exactly the JSON that says all of it. */
  ghost predicate ReadFromItsRow(raw: Raw, p: DomainPredicate, depth: nat) {
    ReadPredicate(Some(raw), depth) == Some(p) <==> Covers(raw, RawPredicate(RawField, p)) && Readable(p, depth)
  }

  lemma OutOfReach(raw: Raw, p: DomainPredicate, depth: nat)
    requires depth > 32 || !raw.RawObject?
    ensures ReadFromItsRow(raw, p, depth)
  {
  }

  lemma NegationCase(raw: Raw, p: DomainPredicate, depth: nat)
    requires depth <= 32 && raw.RawObject? && p.Not?
    requires "operand" in raw.members ==> ReadFromItsRow(raw.members["operand"], p.operand, depth + 1)
    ensures ReadFromItsRow(raw, p, depth)
  {
    NegationIff(raw, p.operand, depth);
    NestedReadable(p, depth);
  }

  lemma JunctionCase(raw: Raw, p: DomainPredicate, depth: nat)
    requires depth <= 32 && raw.RawObject? && p.Junction?
    requires AsArray(Member(raw, "operands")).Some? ==>
      (ReadPredicates(raw.members["operands"].items, depth + 1) == Some(p.operands) <==>
        Covers(raw.members["operands"], RawArray(RawPredicates(RawField, p.operands))) && AllReadable(p.operands, depth + 1))
    ensures ReadFromItsRow(raw, p, depth)
  {
    JunctionIff(raw, p.junction, p.operands, depth);
    NestedReadable(p, depth);
  }

  /**
   * Whatever the JSON, it is read as a predicate exactly when it says all of it, names every
   * property, and is nested no deeper than 32 levels.
   */
  lemma {:induction false} PredicateIff(raw: Raw, p: DomainPredicate, depth: nat)
    ensures ReadPredicate(Some(raw), depth) == Some(p) <==> Covers(raw, RawPredicate(RawField, p)) && Readable(p, depth)
    decreases p
  {
    if depth > 32 || !raw.RawObject? {
      OutOfReach(raw, p, depth);
    } else if p.Junction? {
      if AsArray(Member(raw, "operands")).Some? { PredicatesIff(raw.members["operands"].items, p.operands, depth + 1); }
      JunctionCase(raw, p, depth);
    } else if p.Not? {
      if "operand" in raw.members { PredicateIff(raw.members["operand"], p.operand, depth + 1); }
      NegationCase(raw, p, depth);
    } else {
      LeafIff(raw, p, depth);
    }
  }

  lemma {:induction false} PredicatesIff(raws: seq<Raw>, ps: seq<DomainPredicate>, depth: nat)
    requires depth <= 33
    ensures ReadPredicates(raws, depth) == Some(ps) <==>
      Covers(RawArray(raws), RawArray(RawPredicates(RawField, ps))) && AllReadable(ps, depth)
    decreases ps
  {
    LengthOfPredicates(ps);
    if raws != [] && ps != [] {
      PredicateIff(raws[0], ps[0], depth);
      PredicatesIff(raws[1..], ps[1..], depth);
      CoversFront(raws, RawPredicates(RawField, ps));
      assert RawPredicates(RawField, ps)[1..] == RawPredicates(RawField, ps[1..]);
      assert ps == [ps[0]] + ps[1..];
      ConsIff(ps, ReadPredicates(raws[1..], depth));
      ReadableFront(ps, depth);
    }
  }

  // ---- windows, measures and steps ------------------------------------------------------------------------

  lemma GrainIff(o: Raw, key: string, g: Grain)
    requires o.RawObject?
    ensures ReadGrain(Member(o, key)) == Some(g) <==> Has(o, key, RawString(GrainText(g)))
  {
    HasText(o, key, GrainText(g));
  }

  lemma BasisIff(o: Raw, key: string, b: Basis)
    requires o.RawObject?
    ensures ReadBasis(Member(o, key)) == Some(b) <==> Has(o, key, RawString(BasisText(b)))
  {
    HasText(o, key, BasisText(b));
  }

  lemma SummaryIff(o: Raw, key: string, s: Summary)
    requires o.RawObject?
    ensures ReadSummary(Member(o, key)) == Some(s) <==> Has(o, key, RawString(SummaryText(s)))
  {
    HasText(o, key, SummaryText(s));
  }

  lemma DirectionIff(o: Raw, key: string, d: Direction)
    requires o.RawObject?
    ensures ReadDirection(Member(o, key)) == Some(d) <==> Has(o, key, RawString(DirectionText(d)))
  {
    HasText(o, key, DirectionText(d));
  }

  lemma WindowIff(raw: Raw, w: Window)
    ensures ReadWindow(Some(raw)) == Some(w) <==> Covers(raw, RawWindow(w))
  {
    match w
    case Relative(amount, grain) =>
      CoversThree(raw, "kind", RawString("relative"), "amount", RawNumber(amount), "unit", RawString(GrainText(grain)));
      if raw.RawObject? {
        HasText(raw, "kind", "relative");
        HasNumber(raw, "amount", amount);
        GrainIff(raw, "unit", grain);
      }
    case Absolute(from, to) =>
      CoversThree(raw, "kind", RawString("absolute"), "from", RawNumber(from), "to", RawNumber(to));
      if raw.RawObject? {
        HasText(raw, "kind", "absolute");
        HasNumber(raw, "from", from);
        HasNumber(raw, "to", to);
      }
  }

  lemma MeasureIff(raw: Raw, m: Measure)
    ensures ReadMeasure(Some(raw)) == Some(m) <==> Covers(raw, RawMeasure(m)) && m != Sum("")
  {
    match m
    case Count =>
      CoversOne(raw, "kind", RawString("count"));
      if raw.RawObject? { HasText(raw, "kind", "count"); }
    case Unique(basis) =>
      CoversTwo(raw, "kind", RawString("unique"), "basis", RawString(BasisText(basis)));
      if raw.RawObject? {
        HasText(raw, "kind", "unique");
        BasisIff(raw, "basis", basis);
      }
    case Sum(name) =>
      CoversTwo(raw, "kind", RawString("sum"), "name", RawString(name));
      if raw.RawObject? {
        HasText(raw, "kind", "sum");
        HasText(raw, "name", name);
      }
  }

  lemma {:induction false} LengthOfNames(names: seq<string>)
    ensures |RawNames(names)| == |names|
  {
    if names != [] { LengthOfNames(names[1..]); }
  }

  lemma {:induction false} NamesIff(raws: seq<Raw>, names: seq<string>)
    ensures ReadNames(raws) == Some(names) <==> Covers(RawArray(raws), RawArray(RawNames(names))) && ReadableNames(names)
  {
    LengthOfNames(names);
    if raws != [] && names != [] {
      NamesIff(raws[1..], names[1..]);
      CoversFront(raws, RawNames(names));
      assert RawNames(names)[1..] == RawNames(names[1..]);
      assert names == [names[0]] + names[1..];
      assert ReadableNames(names) <==> names[0] != "" && ReadableNames(names[1..]);
      ConsIff(names, ReadNames(raws[1..]));
    }
  }

  /** A condition as a row has it: nothing at all, or a predicate. */
  ghost predicate Conditional(o: Raw, condition: Option<DomainPredicate>) {
    if condition.None? then Lacks(o, "where") else Has(o, "where", RawPredicate(RawField, condition.value))
  }

  lemma ConditionIff(o: Raw, condition: Option<DomainPredicate>)
    requires o.RawObject?
    ensures ReadCondition(Member(o, "where")) == Some(condition) <==> Conditional(o, condition) && ReadableCondition(condition)
  {
    if "where" in o.members && condition.Some? { PredicateIff(o.members["where"], condition.value, 0); }
  }

  /** A step as a row has it: its events, and a caption and a condition exactly when it has them. */
  ghost predicate StepRow(raw: Raw, s: DomainStep) {
    && raw.RawObject? && Has(raw, "events", RawArray(RawNames(s.events)))
    && (if s.caption.None? then Lacks(raw, "label") else Has(raw, "label", RawString(s.caption.value)))
    && Conditional(raw, s.condition)
  }

  lemma CaptionIff(o: Raw, caption: Option<string>)
    requires o.RawObject?
    ensures (Member(o, "label").None? || AsString(Member(o, "label")).Some?) && AsString(Member(o, "label")) == caption <==>
      && (if caption.None? then Lacks(o, "label") else Has(o, "label", RawString(caption.value)))
      && caption != Some("")
  {
    if caption.Some? { HasText(o, "label", caption.value); }
  }

  lemma StepIff(raw: Raw, s: DomainStep)
    ensures ReadStep(raw) == Some(s) <==> StepRow(raw, s) && ReadableStep(s)
  {
    if raw.RawObject? {
      var events := AsArray(Member(raw, "events"));
      LengthOfNames(s.events);
      if events.Some? { NamesIff(events.value, s.events); }
      CaptionIff(raw, s.caption);
      ConditionIff(raw, s.condition);
    }
  }

  ghost predicate StepRows(raws: seq<Raw>, steps: seq<DomainStep>) {
    |raws| == |steps| && forall i :: 0 <= i < |steps| ==> StepRow(raws[i], steps[i])
  }

  lemma {:induction false} StepsIff(raws: seq<Raw>, steps: seq<DomainStep>)
    ensures ReadSteps(raws) == Some(steps) <==> StepRows(raws, steps) && ReadableSteps(steps)
  {
    if raws != [] && steps != [] {
      StepIff(raws[0], steps[0]);
      StepsIff(raws[1..], steps[1..]);
      ConsIff(steps, ReadSteps(raws[1..]));
      StepRowsFront(raws, steps);
      assert ReadableSteps(steps) <==> ReadableStep(steps[0]) && ReadableSteps(steps[1..]);
    }
  }

  lemma StepRowsFront(raws: seq<Raw>, steps: seq<DomainStep>)
    requires raws != [] && steps != []
    ensures StepRows(raws, steps) <==> StepRow(raws[0], steps[0]) && StepRows(raws[1..], steps[1..])
  {
    if StepRow(raws[0], steps[0]) && StepRows(raws[1..], steps[1..]) {
      forall i | 0 <= i < |steps| ensures StepRow(raws[i], steps[i]) {
        if i > 0 { assert raws[i] == raws[1..][i - 1] && steps[i] == steps[1..][i - 1]; }
      }
    }
  }

  // ---- whole analyses -------------------------------------------------------------------------------------

  /** The conversion window: `within` of `conversionWindow` where that is a number, `conversionWindowMs` otherwise. */
  ghost predicate MillisRow(o: Raw, millis: real) {
    o.RawObject? &&
    if exists n :: Has(o, "conversionWindow", RawObject(map["within" := RawNumber(n)]))
    then Has(o, "conversionWindow", RawObject(map["within" := RawNumber(millis)]))
    else Has(o, "conversionWindowMs", RawNumber(millis))
  }

  lemma MillisIff(o: Raw, millis: real)
    requires o.RawObject?
    ensures ReadMillis(o) == Some(millis) <==> MillisRow(o, millis)
  {
    HasNumber(o, "conversionWindowMs", millis);
    if "conversionWindow" in o.members {
      var nested := o.members["conversionWindow"];
      forall n ensures Covers(nested, RawObject(map["within" := RawNumber(n)])) <==>
        nested.RawObject? && AsNumber(Member(nested, "within")) == Some(n)
      {
        CoversOne(nested, "within", RawNumber(n));
        if nested.RawObject? { HasNumber(nested, "within", n); }
      }
      if nested.RawObject? && AsNumber(Member(nested, "within")).Some? {
        assert Has(o, "conversionWindow", RawObject(map["within" := RawNumber(AsNumber(Member(nested, "within")).value)]));
      }
    }
  }

  ghost predicate FunnelRow(o: Raw, a: DomainAnalysis)
    requires a.FunnelOf?
  {
    && o.RawObject? && "steps" in o.members && o.members["steps"].RawArray? && StepRows(o.members["steps"].items, a.steps)
    && Has(o, "window", RawWindow(a.window)) && Has(o, "basis", RawString(BasisText(a.basis))) && MillisRow(o, a.conversionMs)
  }

  lemma FunnelIff(o: Raw, a: DomainAnalysis)
    requires a.FunnelOf?
    ensures ReadFunnel(Some(o)) == Some(a) <==> FunnelRow(o, a) && Legible(a)
  {
    if o.RawObject? {
      var steps := AsArray(Member(o, "steps"));
      if steps.Some? { StepsIff(steps.value, a.steps); }
      if "window" in o.members { WindowIff(o.members["window"], a.window); }
      BasisIff(o, "basis", a.basis);
      MillisIff(o, a.conversionMs);
    }
  }

  /** At the top, `null` is no condition either. */
  ghost predicate TopConditional(o: Raw, condition: Option<DomainPredicate>) {
    Conditional(o, condition) || (condition.None? && Has(o, "where", RawNull))
  }

  lemma TopConditionIff(o: Raw, condition: Option<DomainPredicate>)
    requires o.RawObject?
    ensures TopCondition(Member(o, "where")) == Some(condition) <==> TopConditional(o, condition) && ReadableCondition(condition)
  {
    ConditionIff(o, condition);
  }

  /** What a shape has of its own. The split and the limit of a series are not looked at, so it is read without. */
  ghost predicate ShapeRow(o: Raw, a: DomainAnalysis)
    requires !a.FunnelOf?
  {
    match a
    case ScalarOf(_, _, _, summary) => Has(o, "shape", RawString("scalar")) && Has(o, "summary", RawString(SummaryText(summary)))
    case SeriesOf(_, _, _, grain, split, limit) =>
      && Has(o, "shape", RawString("series")) && Has(o, "grain", RawString(GrainText(grain)))
      && split.None? && limit.None?
    case BreakdownOf(_, _, _, grouping, direction, top) =>
      && Has(o, "shape", RawString("breakdown")) && grouping.One? && Has(o, "by", RawField(grouping.sole))
      && Has(o, "order", RawString(DirectionText(direction))) && Has(o, "limit", RawNumber(top))
  }

  lemma ScalarShapeIff(o: Raw, a: DomainAnalysis)
    requires o.RawObject? && a.ScalarOf?
    ensures ReadShape(o, a.measure, a.window, a.condition) == Some(a) <==> ShapeRow(o, a)
  {
    HasText(o, "shape", "scalar");
    SummaryIff(o, "summary", a.summary);
  }

  lemma SeriesShapeIff(o: Raw, a: DomainAnalysis)
    requires o.RawObject? && a.SeriesOf?
    ensures ReadShape(o, a.measure, a.window, a.condition) == Some(a) <==> ShapeRow(o, a)
  {
    HasText(o, "shape", "series");
    GrainIff(o, "grain", a.grain);
  }

  lemma BreakdownShapeIff(o: Raw, a: DomainAnalysis)
    requires o.RawObject? && a.BreakdownOf?
    ensures ReadShape(o, a.measure, a.window, a.condition) == Some(a) <==>
      ShapeRow(o, a) && Named(a.grouping.sole) && WholeLimit(a.top)
  {
    HasText(o, "shape", "breakdown");
    if "by" in o.members && a.grouping.One? { FieldIff(o.members["by"], a.grouping.sole); }
    DirectionIff(o, "order", a.direction);
    HasNumber(o, "limit", a.top);
  }

  ghost predicate FlatRow(o: Raw, a: DomainAnalysis)
    requires !a.FunnelOf?
  {
    ShapeRow(o, a) && Has(o, "measure", RawMeasure(a.measure)) && Has(o, "window", RawWindow(a.window)) &&
    TopConditional(o, a.condition)
  }

  /** A row of an analysis: all of it is there. */
  ghost predicate AnalysisRow(raw: Raw, a: DomainAnalysis) {
    if a.FunnelOf? then
      Has(raw, "shape", RawString("funnel")) && "funnel" in raw.members && FunnelRow(raw.members["funnel"], a)
    else FlatRow(raw, a)
  }

  lemma ShapeIff(o: Raw, a: DomainAnalysis)
    requires o.RawObject? && !a.FunnelOf?
    ensures a.measure != Sum("") && ReadableCondition(a.condition) ==>
      (ReadShape(o, a.measure, a.window, a.condition) == Some(a) <==> ShapeRow(o, a) && Legible(a))
  {
    match a
    case ScalarOf(_, _, _, _) => ScalarShapeIff(o, a);
    case SeriesOf(_, _, _, _, _, _) => SeriesShapeIff(o, a);
    case BreakdownOf(_, _, _, _, _, _) => BreakdownShapeIff(o, a);
  }

  lemma ShapeGiven(o: Raw, measure: Measure, window: Window, condition: Option<DomainPredicate>)
    requires o.RawObject? && ReadShape(o, measure, window, condition).Some?
    ensures var a := ReadShape(o, measure, window, condition).value;
      !a.FunnelOf? && a.measure == measure && a.window == window && a.condition == condition
  {
  }

  lemma FlatIff(o: Raw, a: DomainAnalysis)
    requires o.RawObject? && !a.FunnelOf? && AsText(Member(o, "shape")) != Some("funnel")
    ensures ParseAnalysis(o) == Some(a) <==>
      && ReadMeasure(Member(o, "measure")) == Some(a.measure) && ReadWindow(Member(o, "window")) == Some(a.window)
      && TopCondition(Member(o, "where")) == Some(a.condition)
      && ReadShape(o, a.measure, a.window, a.condition) == Some(a)
  {
    var measure, window, condition := ReadMeasure(Member(o, "measure")), ReadWindow(Member(o, "window")), TopCondition(Member(o, "where"));
    if measure.Some? && window.Some? && condition.Some? && ReadShape(o, measure.value, window.value, condition.value).Some? {
      ShapeGiven(o, measure.value, window.value, condition.value);
    }
  }

  lemma FunnelOnly(o: Raw)
    requires o.RawObject? && ParseAnalysis(o).Some?
    ensures ParseAnalysis(o).value.FunnelOf? <==> AsText(Member(o, "shape")) == Some("funnel")
  {
    var measure, window, condition := ReadMeasure(Member(o, "measure")), ReadWindow(Member(o, "window")), TopCondition(Member(o, "where"));
    if AsText(Member(o, "shape")) != Some("funnel") { ShapeGiven(o, measure.value, window.value, condition.value); }
  }

  lemma NotAFunnel(o: Raw, a: DomainAnalysis)
    requires o.RawObject? && !a.FunnelOf? && ShapeRow(o, a)
    ensures AsText(Member(o, "shape")) != Some("funnel")
  {
    HasText(o, "shape", if a.ScalarOf? then "scalar" else if a.SeriesOf? then "series" else "breakdown");
  }

  lemma FlatRowIff(o: Raw, a: DomainAnalysis)
    requires o.RawObject? && !a.FunnelOf? && AsText(Member(o, "shape")) != Some("funnel")
    ensures ParseAnalysis(o) == Some(a) <==> FlatRow(o, a) && Legible(a)
  {
    FlatIff(o, a);
    if "measure" in o.members { MeasureIff(o.members["measure"], a.measure); }
    if "window" in o.members { WindowIff(o.members["window"], a.window); }
    TopConditionIff(o, a.condition);
    ShapeIff(o, a);
  }

  /** Whatever the JSON, the worker reads this analysis from it exactly when it is a row of it and legible. */
  lemma AnalysisIff(raw: Raw, a: DomainAnalysis)
    ensures ParseAnalysis(raw) == Some(a) <==> AnalysisRow(raw, a) && Legible(a)
  {
    if raw.RawObject? {
      HasText(raw, "shape", "funnel");
      if ParseAnalysis(raw).Some? { FunnelOnly(raw); }
      if a.FunnelOf? {
        if "funnel" in raw.members { FunnelIff(raw.members["funnel"], a); }
      } else if AsText(Member(raw, "shape")) == Some("funnel") {
        if ShapeRow(raw, a) { NotAFunnel(raw, a); }
      } else {
        FlatRowIff(raw, a);
      }
    }
  }
}
