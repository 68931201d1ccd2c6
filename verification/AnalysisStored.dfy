/**
 * Two readers of one column: what the API stores (its wire form, apps/api/src/main.ts) and what the
 * worker stores (the domain form as it is), each read by the worker's reader.
 */
module AnalysisStored {
  import opened Common
  import opened Analyses
  import opened AnalysisWire
  import opened AnalysisReader

  // ---- the stored JSON --------------------------------------------------------------------------------

  function RawWireField(w: WireField): Raw {
    RawObject(map["source" := RawString(if w.source.FromDimension? then "dimension" else "property"), "key" := RawString(w.key)])
  }

  function RawField(f: Field): Raw { RawWireField(FromField(f)) }

  function RawScalar(v: Scalar): Raw {
    match v
    case Text(t) => RawString(t)
    case Numeric(n) => RawNumber(n)
    case Flag(b) => RawBool(b)
    case NoValue => RawNull
  }

  function RawScalars(vs: seq<Scalar>): seq<Raw> {
    if vs == [] then [] else [RawScalar(vs[0])] + RawScalars(vs[1..])
  }

  function RawPredicate<F>(field: F -> Raw, p: Predicate<F>): Raw {
    match p
    case Junction(op, operands) =>
      RawObject(map["op" := RawString(if op.And? then "and" else "or"), "operands" := RawArray(RawPredicates(field, operands))])
    case Not(operand) => RawObject(map["op" := RawString("not"), "operand" := RawPredicate(field, operand)])
    case Equality(op, f, v) => RawLeaf(if op.Eq? then "eq" else "neq", field(f), "value", RawScalar(v))
    case Membership(op, f, vs) => RawLeaf(if op.In? then "in" else "notIn", field(f), "values", RawArray(RawScalars(vs)))
    case Match(op, f, t) =>
      RawLeaf(if op.Contains? then "contains" else if op.StartsWith? then "startsWith" else "endsWith", field(f), "value", RawString(t))
    case Order(op, f, n) =>
      RawLeaf(if op.Gt? then "gt" else if op.Gte? then "gte" else if op.Lt? then "lt" else "lte", field(f), "value", RawNumber(n))
    case Presence(op, f) => RawObject(map["op" := RawString(if op.Exists? then "exists" else "notExists"), "field" := field(f)])
  }

  function RawLeaf(op: string, field: Raw, name: string, value: Raw): Raw {
    RawObject(map["op" := RawString(op), "field" := field, name := value])
  }

  function RawPredicates<F>(field: F -> Raw, ps: seq<Predicate<F>>): seq<Raw> {
    if ps == [] then [] else [RawPredicate(field, ps[0])] + RawPredicates(field, ps[1..])
  }

  // ---- reading a stored predicate back -------------------------------------------------------------------

  /** Levels of nesting below a predicate. */
  function Height(p: DomainPredicate): nat {
    match p
    case Junction(_, operands) => if operands == [] then 0 else 1 + HeightOfAll(operands)
    case Not(operand) => 1 + Height(operand)
    case _ => 0
  }

  function HeightOfAll(ps: seq<DomainPredicate>): nat {
    if ps == [] then 0 else Max(Height(ps[0]), HeightOfAll(ps[1..]))
  }

  predicate Named(f: Field) { f.Property? ==> f.key != "" }

  predicate AllNamed(fields: seq<Field>) { forall i :: 0 <= i < |fields| ==> Named(fields[i]) }

  predicate Readable(p: DomainPredicate, depth: nat) {
    depth + Height(p) <= 32 && AllNamed(Fields(p))
  }

  lemma NamedConcat(a: seq<Field>, b: seq<Field>)
    ensures AllNamed(a + b) <==> AllNamed(a) && AllNamed(b)
  {
    if AllNamed(a + b) {
      forall i | 0 <= i < |a| ensures Named(a[i]) { assert (a + b)[i] == a[i]; }
      forall i | 0 <= i < |b| ensures Named(b[i]) { assert (a + b)[|a| + i] == b[i]; }
    }
  }

  lemma FieldReads(f: Field)
    ensures ReadField(Some(RawField(f))) == if Named(f) then Some(f) else None
  {
  }

  lemma {:induction false} ScalarsRead(vs: seq<Scalar>)
    ensures ReadScalars(RawScalars(vs)) == Some(vs)
  {
    if vs != [] {
      ScalarsRead(vs[1..]);
      assert RawScalars(vs)[1..] == RawScalars(vs[1..]);
      assert vs == [vs[0]] + vs[1..];
    }
  }

  predicate AllReadable(ps: seq<DomainPredicate>, depth: nat) {
    ps == [] || (depth + HeightOfAll(ps) <= 32 && AllNamed(FieldsOfAll(ps)))
  }

  predicate Leaf(p: DomainPredicate) { !p.Junction? && !p.Not? }

  lemma OrderReads(op: OrderOp, f: Field, n: real)
    ensures var o := RawPredicate(RawField, Order(op, f, n));
      o.RawObject? && ReadComparison(o, AsText(Member(o, "op")), f) == Some(Order(op, f, n))
  {
  }

  lemma MatchReads(op: MatchOp, f: Field, t: string)
    ensures var o := RawPredicate(RawField, Match(op, f, t));
      o.RawObject? && ReadComparison(o, AsText(Member(o, "op")), f) == Some(Match(op, f, t))
  {
  }

  lemma MembershipReads(op: MembershipOp, f: Field, vs: seq<Scalar>)
    ensures var o := RawPredicate(RawField, Membership(op, f, vs));
      o.RawObject? && ReadComparison(o, AsText(Member(o, "op")), f) == Some(Membership(op, f, vs))
  {
    ScalarsRead(vs);
  }

  lemma EqualityReads(op: EqualityOp, f: Field, v: Scalar)
    ensures var o := RawPredicate(RawField, Equality(op, f, v));
      o.RawObject? && ReadComparison(o, AsText(Member(o, "op")), f) == Some(Equality(op, f, v))
  {
  }

  lemma PresenceReads(op: PresenceOp, f: Field)
    ensures var o := RawPredicate(RawField, Presence(op, f));
      o.RawObject? && ReadComparison(o, AsText(Member(o, "op")), f) == Some(Presence(op, f))
  {
  }

  lemma ComparisonReads(p: DomainPredicate)
    requires Leaf(p)
    ensures RawPredicate(RawField, p).RawObject?
    ensures var o := RawPredicate(RawField, p); ReadComparison(o, AsText(Member(o, "op")), p.field) == Some(p)
  {
    match p
    case Equality(op, f, v) => EqualityReads(op, f, v);
    case Membership(op, f, vs) => MembershipReads(op, f, vs);
    case Match(op, f, t) => MatchReads(op, f, t);
    case Order(op, f, n) => OrderReads(op, f, n);
    case Presence(op, f) => PresenceReads(op, f);
  }

  lemma LeafMembers(p: DomainPredicate)
    requires Leaf(p)
    ensures RawPredicate(RawField, p).RawObject?
    ensures var op := AsText(Member(RawPredicate(RawField, p), "op")); op != Some("and") && op != Some("or") && op != Some("not")
    ensures Member(RawPredicate(RawField, p), "field") == Some(RawField(p.field))
  {
  }

  lemma LeafReads(p: DomainPredicate, o: Raw, depth: nat)
    requires Leaf(p) && o == RawPredicate(RawField, p)
    ensures ReadPredicate(Some(o), depth) == if Readable(p, depth) then Some(p) else None
  {
    LeafMembers(p);
    ComparisonReads(p);
    FieldReads(p.field);
    assert Fields(p) == [p.field];
    assert AllNamed([p.field]) <==> Named([p.field][0]);
  }

  lemma JunctionReads(op: JunctionOp, operands: seq<DomainPredicate>, depth: nat)
    requires depth <= MAX_DEPTH
    requires ReadPredicates(RawPredicates(RawField, operands), depth + 1) ==
      if AllReadable(operands, depth + 1) then Some(operands) else None
    ensures ReadPredicate(Some(RawPredicate(RawField, Junction(op, operands))), depth) ==
            if AllReadable(operands, depth + 1) then Some(Junction(op, operands)) else None
  {
  }

  lemma NotReads(operand: DomainPredicate, depth: nat)
    requires depth <= MAX_DEPTH
    ensures ReadPredicate(Some(RawPredicate(RawField, Not(operand))), depth) ==
            match ReadPredicate(Some(RawPredicate(RawField, operand)), depth + 1) case None => None case Some(q) => Some(Not(q))
  {
  }

  lemma TooDeep(p: DomainPredicate, depth: nat)
    requires depth > MAX_DEPTH
    ensures ReadPredicate(Some(RawPredicate(RawField, p)), depth) == None && !Readable(p, depth)
  {
  }

  lemma {:induction false} PredicateReads(p: DomainPredicate, depth: nat)
    ensures ReadPredicate(Some(RawPredicate(RawField, p)), depth) == if Readable(p, depth) then Some(p) else None
    decreases p
  {
    if depth > MAX_DEPTH {
      TooDeep(p, depth);
    } else if p.Junction? {
      PredicatesRead(p.operands, depth + 1);
      JunctionReads(p.junction, p.operands, depth);
      assert Readable(p, depth) <==> AllReadable(p.operands, depth + 1);
    } else if p.Not? {
      PredicateReads(p.operand, depth + 1);
      NotReads(p.operand, depth);
      assert Readable(p, depth) <==> Readable(p.operand, depth + 1);
    } else {
      LeafReads(p, RawPredicate(RawField, p), depth);
    }
  }

  lemma {:induction false} PredicatesRead(ps: seq<DomainPredicate>, depth: nat)
    requires depth <= MAX_DEPTH + 1
    ensures ReadPredicates(RawPredicates(RawField, ps), depth) == if AllReadable(ps, depth) then Some(ps) else None
    decreases ps
  {
    if ps != [] {
      PredicateReads(ps[0], depth);
      PredicatesRead(ps[1..], depth);
      assert RawPredicates(RawField, ps)[1..] == RawPredicates(RawField, ps[1..]);
      assert ps == [ps[0]] + ps[1..];
      ReadableFront(ps, depth);
    }
  }

  lemma ReadableFront(ps: seq<DomainPredicate>, depth: nat)
    requires ps != []
    ensures AllReadable(ps, depth) <==> Readable(ps[0], depth) && (ps[1..] == [] || AllReadable(ps[1..], depth))
  {
    NamedConcat(Fields(ps[0]), FieldsOfAll(ps[1..]));
    assert HeightOfAll(ps) == Max(Height(ps[0]), HeightOfAll(ps[1..]));
    assert FieldsOfAll(ps) == Fields(ps[0]) + FieldsOfAll(ps[1..]);
  }

  /** On the wire a predicate has the JSON it has in the domain: only the window differs. */
  lemma {:induction false} PredicateStoresAlike(p: DomainPredicate)
    ensures RawPredicate(RawWireField, FromPredicate(p)) == RawPredicate(RawField, p)
  {
    match p
    case Junction(_, operands) => PredicatesStoreAlike(operands);
    case Not(operand) => PredicateStoresAlike(operand);
    case _ =>
  }

  lemma {:induction false} PredicatesStoreAlike(ps: seq<DomainPredicate>)
    ensures RawPredicates(RawWireField, FromPredicates(ps)) == RawPredicates(RawField, ps)
  {
    if ps != [] {
      PredicateStoresAlike(ps[0]);
      PredicatesStoreAlike(ps[1..]);
      assert FromPredicates(ps)[1..] == FromPredicates(ps[1..]);
    }
  }

  // ---- whole analyses ---------------------------------------------------------------------------------

  function GrainText(g: Grain): string {
    match g case Hour => "hour" case Day => "day" case Week => "week" case Month => "month"
  }

  function BasisText(b: Basis): string { match b case Visit => "visit" case Person => "person" }

  function SummaryText(s: Summary): string {
    match s case Total => "total" case Average => "average" case Peak => "peak" case Low => "low" case Latest => "latest"
  }

  function DirectionText(d: Direction): string { match d case Ascending => "asc" case Descending => "desc" }

  /** A member that is there only when it has a value. */
  function Optional(key: string, raw: Option<Raw>): map<string, Raw> {
    if raw.None? then map[] else map[key := raw.value]
  }

  function RawMeasure(m: Measure): Raw {
    match m
    case Count => RawObject(map["kind" := RawString("count")])
    case Unique(basis) => RawObject(map["kind" := RawString("unique"), "basis" := RawString(BasisText(basis))])
    case Sum(name) => RawObject(map["kind" := RawString("sum"), "name" := RawString(name)])
  }

  function RawRelative(amount: real, grain: Grain): Raw {
    RawObject(map["kind" := RawString("relative"), "amount" := RawNumber(amount), "unit" := RawString(GrainText(grain))])
  }

  function RawAbsolute(from: Raw, to: Raw): Raw {
    RawObject(map["kind" := RawString("absolute"), "from" := from, "to" := to])
  }

  function RawWireWindow(w: WireWindow): Raw {
    match w
    case WireRelative(amount, grain) => RawRelative(amount, grain)
    case WireAbsolute(from, to) => RawAbsolute(RawString(from), RawString(to))
  }

  function RawWindow(w: Window): Raw {
    match w
    case Relative(amount, grain) => RawRelative(amount, grain)
    case Absolute(from, to) => RawAbsolute(RawNumber(from), RawNumber(to))
  }

  function RawCondition<F>(field: F -> Raw, condition: Option<Predicate<F>>): Option<Raw> {
    if condition.None? then None else Some(RawPredicate(field, condition.value))
  }

  function RawNames(names: seq<string>): seq<Raw> {
    if names == [] then [] else [RawString(names[0])] + RawNames(names[1..])
  }

  function RawFields<F>(field: F -> Raw, fs: seq<F>): seq<Raw> {
    if fs == [] then [] else [field(fs[0])] + RawFields(field, fs[1..])
  }

  function RawStep<F>(field: F -> Raw, s: Step<F>): Raw {
    RawObject(map["events" := RawArray(RawNames(s.events))]
              + Optional("label", if s.caption.None? then None else Some(RawString(s.caption.value)))
              + Optional("where", RawCondition(field, s.condition)))
  }

  function RawSteps<F>(field: F -> Raw, steps: seq<Step<F>>): seq<Raw> {
    if steps == [] then [] else [RawStep(field, steps[0])] + RawSteps(field, steps[1..])
  }

  /** The members a shape has of its own. */
  function ShapeMembers<F, W>(field: F -> Raw, a: Analysis<F, W>): map<string, Raw>
    requires !a.FunnelOf?
  {
    match a
    case ScalarOf(_, _, _, summary) => map["shape" := RawString("scalar"), "summary" := RawString(SummaryText(summary))]
    case SeriesOf(_, _, _, grain, split, limit) =>
      map["shape" := RawString("series"), "grain" := RawString(GrainText(grain))]
      + Optional("by", if split.None? then None else Some(field(split.value)))
      + Optional("limit", if limit.None? then None else Some(RawNumber(limit.value)))
    case BreakdownOf(_, _, _, grouping, direction, top) =>
      map["shape" := RawString("breakdown"),
          "by" := if grouping.One? then field(grouping.sole) else RawArray(RawFields(field, grouping.all)),
          "order" := RawString(DirectionText(direction)), "limit" := RawNumber(top)]
  }

  function RawFunnel<F, W>(field: F -> Raw, window: Raw, conversion: map<string, Raw>, a: Analysis<F, W>): Raw
    requires a.FunnelOf?
  {
    RawObject(map["steps" := RawArray(RawSteps(field, a.steps)), "window" := window, "basis" := RawString(BasisText(a.basis))]
              + conversion)
  }

  /** An analysis as JSON, given how its window and its conversion window are written. */
  function RawAnalysis<F, W>(field: F -> Raw, window: Raw, conversion: map<string, Raw>, a: Analysis<F, W>): Raw {
    if a.FunnelOf? then
      RawObject(map["shape" := RawString("funnel"), "funnel" := RawFunnel(field, window, conversion, a)])
    else
      RawObject(ShapeMembers(field, a)
                + map["measure" := RawMeasure(a.measure), "window" := window]
                + Optional("where", RawCondition(field, a.condition)))
  }

  /** What the worker stores: the domain form as it is. */
  function OwnRow(a: DomainAnalysis): Raw {
    RawAnalysis(RawField, RawWindow(a.window), OwnConversion(a), a)
  }

  function OwnConversion(a: DomainAnalysis): map<string, Raw> {
    if a.FunnelOf? then map["conversionWindow" := RawObject(map["within" := RawNumber(a.conversionMs)])] else map[]
  }

  /** What the API stores: the wire form. */
  function ApiRow(iso: IsoText, a: DomainAnalysis): Raw {
    var w := FromAnalysis(iso, a);
    RawAnalysis(RawWireField, RawWireWindow(w.window), ApiConversion(a), w)
  }

  function ApiConversion(a: DomainAnalysis): map<string, Raw> {
    if a.FunnelOf? then map["conversionWindowMs" := RawNumber(a.conversionMs)] else map[]
  }

  // ---- what the worker makes of a row ---------------------------------------------------------------------

  predicate ReadableCondition(p: Option<DomainPredicate>) { p.Some? ==> Readable(p.value, 0) }

  predicate ReadableNames(names: seq<string>) { forall i :: 0 <= i < |names| ==> names[i] != "" }

  predicate ReadableStep(s: DomainStep) {
    s.events != [] && ReadableNames(s.events) && s.caption != Some("") && ReadableCondition(s.condition)
  }

  predicate ReadableSteps(steps: seq<DomainStep>) { forall i :: 0 <= i < |steps| ==> ReadableStep(steps[i]) }

  predicate WholeLimit(n: real) { n == n.Floor as real && 0.0 < n <= 100.0 }

  /** The analyses the worker can make something of. */
  predicate Legible(a: DomainAnalysis) {
    match a
    case FunnelOf(steps, _, _, _) => ReadableSteps(steps)
    case ScalarOf(measure, _, condition, _) => measure != Sum("") && ReadableCondition(condition)
    case SeriesOf(measure, _, condition, _, _, _) => measure != Sum("") && ReadableCondition(condition)
    case BreakdownOf(measure, _, condition, grouping, _, top) =>
      measure != Sum("") && ReadableCondition(condition) && grouping.One? && Named(grouping.sole) && WholeLimit(top)
  }

  /** What the worker reads a legible analysis as: a series without its split. */
  function Seen(a: DomainAnalysis): DomainAnalysis {
    match a
    case SeriesOf(measure, window, condition, grain, _, _) => SeriesOf(measure, window, condition, grain, None, None)
    case _ => a
  }

  predicate Unsplit(a: DomainAnalysis) { a.SeriesOf? ==> a.split.None? && a.limit.None? }

  lemma {:induction false} NamesRead(names: seq<string>)
    ensures ReadNames(RawNames(names)) == if ReadableNames(names) then Some(names) else None
  {
    if names != [] {
      NamesRead(names[1..]);
      assert RawNames(names)[1..] == RawNames(names[1..]);
      assert names == [names[0]] + names[1..];
      assert ReadableNames(names) <==> names[0] != "" && ReadableNames(names[1..]);
    }
  }

  lemma ConditionReads(condition: Option<DomainPredicate>)
    ensures ReadCondition(RawCondition(RawField, condition)) ==
      if ReadableCondition(condition) then Some(condition) else None
    ensures RawCondition(RawField, condition) != Some(RawNull)
  {
    if condition.Some? { PredicateReads(condition.value, 0); }
  }

  lemma StepReads(s: DomainStep)
    ensures ReadStep(RawStep(RawField, s)) == if ReadableStep(s) then Some(s) else None
  {
    var raw := RawStep(RawField, s);
    NamesRead(s.events);
    ConditionReads(s.condition);
    assert Member(raw, "events") == Some(RawArray(RawNames(s.events)));
    assert Member(raw, "label") == if s.caption.None? then None else Some(RawString(s.caption.value));
    assert Member(raw, "where") == RawCondition(RawField, s.condition);
    assert s.events == [] <==> RawNames(s.events) == [];
  }

  lemma {:induction false} StepsRead(steps: seq<DomainStep>)
    ensures ReadSteps(RawSteps(RawField, steps)) == if ReadableSteps(steps) then Some(steps) else None
  {
    if steps != [] {
      StepReads(steps[0]);
      StepsRead(steps[1..]);
      assert RawSteps(RawField, steps)[1..] == RawSteps(RawField, steps[1..]);
      assert steps == [steps[0]] + steps[1..];
      assert ReadableSteps(steps) <==> ReadableStep(steps[0]) && ReadableSteps(steps[1..]);
    }
  }

  lemma MeasureReads(m: Measure)
    ensures ReadMeasure(Some(RawMeasure(m))) == if m == Sum("") then None else Some(m)
  {
  }

  lemma WindowsRead(iso: IsoText, w: Window)
    ensures ReadWindow(Some(RawWindow(w))) == Some(w)
    ensures ReadWindow(Some(RawWireWindow(FromWindow(iso, w)))) == if w.Relative? then Some(w) else None
  {
  }

  lemma MillisRead(a: DomainAnalysis, o: Raw)
    requires a.FunnelOf? && o.RawObject?
    requires || Member(o, "conversionWindow") == Some(RawObject(map["within" := RawNumber(a.conversionMs)]))
             || (Member(o, "conversionWindow") == None &&
                 Member(o, "conversionWindowMs") == Some(RawNumber(a.conversionMs)))
    ensures ReadMillis(o) == Some(a.conversionMs)
  {
  }

  lemma BasisReads(b: Basis)
    ensures ReadBasis(Some(RawString(BasisText(b)))) == Some(b)
  {
  }

  lemma FunnelMembersRead(a: DomainAnalysis, o: Raw, window: Raw)
    requires a.FunnelOf? && o.RawObject?
    requires ReadWindow(Some(window)) in {None, Some(a.window)}
    requires Member(o, "steps") == Some(RawArray(RawSteps(RawField, a.steps))) && Member(o, "window") == Some(window)
    requires Member(o, "basis") == Some(RawString(BasisText(a.basis))) && ReadMillis(o) == Some(a.conversionMs)
    ensures ReadFunnel(Some(o)) == if ReadWindow(Some(window)).Some? && Legible(a) then Some(a) else None
  {
    StepsRead(a.steps);
    BasisReads(a.basis);
  }

  lemma FunnelMembers(a: DomainAnalysis, o: Raw, window: Raw, conversion: map<string, Raw>)
    requires a.FunnelOf? && o == RawFunnel(RawField, window, conversion, a)
    requires conversion == OwnConversion(a) || conversion == ApiConversion(a)
    ensures o.RawObject? && Member(o, "steps") == Some(RawArray(RawSteps(RawField, a.steps))) &&
      Member(o, "window") == Some(window)
    ensures Member(o, "basis") == Some(RawString(BasisText(a.basis)))
    ensures || Member(o, "conversionWindow") == Some(RawObject(map["within" := RawNumber(a.conversionMs)]))
            || (Member(o, "conversionWindow") == None &&
                Member(o, "conversionWindowMs") == Some(RawNumber(a.conversionMs)))
  {
  }

  /** A row read back: `window` is the window as written and `conversion` the conversion window. */
  lemma FunnelReads(a: DomainAnalysis, window: Raw, conversion: map<string, Raw>)
    requires a.FunnelOf? && (conversion == OwnConversion(a) || conversion == ApiConversion(a))
    requires ReadWindow(Some(window)) in {None, Some(a.window)}
    ensures ReadFunnel(Some(RawFunnel(RawField, window, conversion, a))) ==
            if ReadWindow(Some(window)).Some? && Legible(a) then Some(a) else None
  {
    var o := RawFunnel(RawField, window, conversion, a);
    FunnelMembers(a, o, window, conversion);
    MillisRead(a, o);
    FunnelMembersRead(a, o, window);
  }

  ghost predicate Holds(o: Raw, members: map<string, Raw>) {
    o.RawObject? && forall key :: key in members ==> Member(o, key) == Some(members[key])
  }

  lemma ScalarReads(a: DomainAnalysis, o: Raw)
    requires a.ScalarOf? && Holds(o, ShapeMembers(RawField, a)) && a.measure != Sum("") &&
      ReadableCondition(a.condition)
    ensures ReadShape(o, a.measure, a.window, a.condition) == Some(a)
  {
    assert Member(o, "shape") == Some(RawString("scalar")) && Member(o, "summary") == Some(RawString(SummaryText(a.summary)));
  }

  lemma SeriesReads(a: DomainAnalysis, o: Raw)
    requires a.SeriesOf? && Holds(o, ShapeMembers(RawField, a)) && a.measure != Sum("") &&
      ReadableCondition(a.condition)
    ensures ReadShape(o, a.measure, a.window, a.condition) == Some(Seen(a))
  {
    var members := ShapeMembers(RawField, a);
    assert members["shape"] == RawString("series") && members["grain"] == RawString(GrainText(a.grain));
    assert Member(o, "shape") == Some(members["shape"]) && Member(o, "grain") == Some(members["grain"]);
  }

  lemma BreakdownReads(a: DomainAnalysis, o: Raw)
    requires a.BreakdownOf? && Holds(o, ShapeMembers(RawField, a)) && a.measure != Sum("") &&
      ReadableCondition(a.condition)
    ensures ReadShape(o, a.measure, a.window, a.condition) == if Legible(a) then Some(a) else None
  {
    var members := ShapeMembers(RawField, a);
    assert Member(o, "shape") == Some(RawString("breakdown")) && Member(o, "by") == Some(members["by"]);
    assert Member(o, "order") == Some(RawString(DirectionText(a.direction))) && Member(o, "limit") == Some(RawNumber(a.top));
    if a.grouping.One? { FieldReads(a.grouping.sole); }
  }

  lemma ShapeReads(a: DomainAnalysis, o: Raw)
    requires !a.FunnelOf? && Holds(o, ShapeMembers(RawField, a)) && a.measure != Sum("") &&
      ReadableCondition(a.condition)
    ensures ReadShape(o, a.measure, a.window, a.condition) == if Legible(a) then Some(Seen(a)) else None
  {
    match a
    case ScalarOf(_, _, _, _) => ScalarReads(a, o);
    case SeriesOf(_, _, _, _, _, _) => SeriesReads(a, o);
    case BreakdownOf(_, _, _, _, _, _) => BreakdownReads(a, o);
  }

  lemma FlatMembersRead(a: DomainAnalysis, o: Raw, window: Raw)
    requires !a.FunnelOf? && o.RawObject?
    requires ReadWindow(Some(window)) in {None, Some(a.window)}
    requires Member(o, "measure") == Some(RawMeasure(a.measure)) && Member(o, "window") == Some(window)
    requires Member(o, "where") == RawCondition(RawField, a.condition)
    requires AsText(Member(o, "shape")) != Some("funnel")
    requires a.measure != Sum("") && ReadableCondition(a.condition) ==>
               ReadShape(o, a.measure, a.window, a.condition) == if Legible(a) then Some(Seen(a)) else None
    ensures ParseAnalysis(o) == if ReadWindow(Some(window)).Some? && Legible(a) then Some(Seen(a)) else None
  {
    MeasureReads(a.measure);
    ConditionReads(a.condition);
  }

  lemma OwnMembers(a: DomainAnalysis)
    requires !a.FunnelOf?
    ensures var own := ShapeMembers(RawField, a);
      "measure" !in own && "window" !in own && "where" !in own && "shape" in own && AsText(Some(own["shape"])) != Some("funnel")
  {
  }

  lemma FlatMembers(a: DomainAnalysis, window: Raw, o: Raw)
    requires !a.FunnelOf? && o == RawAnalysis(RawField, window, map[], a)
    ensures o.RawObject?
    ensures Member(o, "measure") == Some(RawMeasure(a.measure)) && Member(o, "window") == Some(window)
    ensures Member(o, "where") == RawCondition(RawField, a.condition)
    ensures AsText(Member(o, "shape")) != Some("funnel")
    ensures Holds(o, ShapeMembers(RawField, a))
  {
    OwnMembers(a);
    JoinedMembers(ShapeMembers(RawField, a), RawMeasure(a.measure), window, RawCondition(RawField, a.condition));
  }

  lemma JoinedMembers(own: map<string, Raw>, measure: Raw, window: Raw, condition: Option<Raw>)
    requires "measure" !in own && "window" !in own && "where" !in own && "shape" in own
    ensures var o := RawObject(own + map["measure" := measure, "window" := window] + Optional("where", condition));
      && Member(o, "measure") == Some(measure) && Member(o, "window") == Some(window)
      && Member(o, "where") == condition && Holds(o, own) && Member(o, "shape") == Some(own["shape"])
  {
  }

  lemma RowReads(a: DomainAnalysis, window: Raw, conversion: map<string, Raw>)
    requires conversion == OwnConversion(a) || conversion == ApiConversion(a)
    requires ReadWindow(Some(window)) in {None, Some(a.window)}
    ensures ParseAnalysis(RawAnalysis(RawField, window, conversion, a)) ==
            if ReadWindow(Some(window)).Some? && Legible(a) then Some(Seen(a)) else None
  {
    var raw := RawAnalysis(RawField, window, conversion, a);
    if a.FunnelOf? {
      FunnelReads(a, window, conversion);
      assert Member(raw, "funnel") == Some(RawFunnel(RawField, window, conversion, a));
    } else {
      FlatMembers(a, window, raw);
      if a.measure != Sum("") && ReadableCondition(a.condition) { ShapeReads(a, raw); }
      FlatMembersRead(a, raw, window);
    }
  }

  /** The worker reads what it stored exactly when it is legible; a series comes back without its split. */
  lemma OwnRowReads(a: DomainAnalysis)
    ensures ParseAnalysis(OwnRow(a)) == if Legible(a) then Some(Seen(a)) else None
    ensures ParseAnalysis(OwnRow(a)) == Some(a) <==> Legible(a) && Unsplit(a)
  {
    WindowsRead(IsoText(_ => "", _ => None), a.window);
    RowReads(a, RawWindow(a.window), OwnConversion(a));
  }

  lemma {:induction false} StepsStoreAlike(steps: seq<DomainStep>)
    ensures RawSteps(RawWireField, FromSteps(steps)) == RawSteps(RawField, steps)
  {
    if steps != [] {
      if steps[0].condition.Some? { PredicateStoresAlike(steps[0].condition.value); }
      StepsStoreAlike(steps[1..]);
      assert FromSteps(steps)[1..] == FromSteps(steps[1..]);
    }
  }

  lemma {:induction false} FieldsStoreAlike(fs: seq<Field>)
    ensures RawFields(RawWireField, FromFields(fs)) == RawFields(RawField, fs)
  {
    if fs != [] {
      FieldsStoreAlike(fs[1..]);
      assert FromFields(fs)[1..] == FromFields(fs[1..]);
    }
  }

  lemma ConditionStoresAlike(condition: Option<DomainPredicate>)
    ensures RawCondition(RawWireField, FromCondition(condition)) == RawCondition(RawField, condition)
  {
    if condition.Some? { PredicateStoresAlike(condition.value); }
  }

  lemma ShapeStoresAlike(iso: IsoText, a: DomainAnalysis)
    requires !a.FunnelOf?
    ensures ShapeMembers(RawWireField, FromAnalysis(iso, a)) == ShapeMembers(RawField, a)
  {
    if a.BreakdownOf? && a.grouping.Several? { FieldsStoreAlike(a.grouping.all); }
  }

  lemma AnalysisStoresAlike(iso: IsoText, a: DomainAnalysis, window: Raw, conversion: map<string, Raw>)
    ensures RawAnalysis(RawWireField, window, conversion, FromAnalysis(iso, a)) ==
      RawAnalysis(RawField, window, conversion, a)
  {
    if a.FunnelOf? {
      StepsStoreAlike(a.steps);
    } else {
      ShapeStoresAlike(iso, a);
      ConditionStoresAlike(a.condition);
    }
  }

  /**
   * The worker reads what the API stored exactly when it is legible and its window is relative: an
   * absolute one is text in the API's rows and numbers in the worker's.
   */
  lemma ApiRowReads(iso: IsoText, a: DomainAnalysis)
    ensures ParseAnalysis(ApiRow(iso, a)) == if a.window.Relative? && Legible(a) then Some(Seen(a)) else None
    ensures ParseAnalysis(ApiRow(iso, a)) == Some(a) <==> a.window.Relative? && Legible(a) && Unsplit(a)
  {
    var window := RawWireWindow(FromWindow(iso, a.window));
    AnalysisStoresAlike(iso, a, window, ApiConversion(a));
    WindowsRead(iso, a.window);
    RowReads(a, window, ApiConversion(a));
  }
}
