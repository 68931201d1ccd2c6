/**
 * The worker's own reader of a stored analysis (apps/worker/src/analysis-codec.ts): from untyped
 * JSON, refusing whatever it does not know.
 */
module AnalysisReader {
  import opened Common
  import opened Analyses

  datatype Raw =
    | RawNull
    | RawBool(flag: bool)
    | RawNumber(number: real)
    | RawString(text: string)
    | RawArray(items: seq<Raw>)
    | RawObject(members: map<string, Raw>)

  const MAX_BREAKDOWN_LIMIT := 100.0
  const MAX_DEPTH := 32

  /** `raw[key]`: nothing is `undefined`. */
  function Member(raw: Raw, key: string): Option<Raw>
    requires raw.RawObject?
  {
    if key in raw.members then Some(raw.members[key]) else None
  }

  function AsString(raw: Option<Raw>): Option<string> {
    if raw.Some? && raw.value.RawString? && raw.value.text != "" then Some(raw.value.text) else None
  }

  function AsNumber(raw: Option<Raw>): Option<real> {
    if raw.Some? && raw.value.RawNumber? then Some(raw.value.number) else None
  }

  function AsText(raw: Option<Raw>): Option<string> {
    if raw.Some? && raw.value.RawString? then Some(raw.value.text) else None
  }

  function AsArray(raw: Option<Raw>): Option<seq<Raw>> {
    if raw.Some? && raw.value.RawArray? then Some(raw.value.items) else None
  }

  function ReadGrain(raw: Option<Raw>): Option<Grain> {
    match AsText(raw)
    case None => None
    case Some(t) => if t == "hour" then Some(Hour) else if t == "day" then Some(Day) else if t == "week" then Some(Week)
                    else if t == "month" then Some(Month) else None
  }

  function ReadBasis(raw: Option<Raw>): Option<Basis> {
    match AsText(raw)
    case None => None
    case Some(t) => if t == "visit" then Some(Visit) else if t == "person" then Some(Person) else None
  }

  function ReadSummary(raw: Option<Raw>): Option<Summary> {
    match AsText(raw)
    case None => None
    case Some(t) => if t == "total" then Some(Total) else if t == "average" then Some(Average) else if t == "peak" then Some(Peak)
                    else if t == "low" then Some(Low) else if t == "latest" then Some(Latest) else None
  }

  function ReadDirection(raw: Option<Raw>): Option<Direction> {
    match AsText(raw)
    case None => None
    case Some(t) => if t == "asc" then Some(Ascending) else if t == "desc" then Some(Descending) else None
  }

  function ReadField(raw: Option<Raw>): Option<Field> {
    if raw.None? || !raw.value.RawObject? then None
    else
      var key := AsString(Member(raw.value, "key"));
      var source := AsText(Member(raw.value, "source"));
      if key.None? then None
      else if source == Some("dimension") then (if key.value in DIMENSIONS then Some(Dimension(key.value)) else None)
      else if source == Some("property") then Some(Property(key.value))
      else None
  }

  function ReadScalar(raw: Option<Raw>): Option<Scalar> {
    if raw.None? then None
    else
      match raw.value
      case RawNull => Some(NoValue)
      case RawString(t) => Some(Text(t))
      case RawBool(b) => Some(Flag(b))
      case RawNumber(n) => Some(Numeric(n))
      case _ => None
  }

  function ReadScalars(raws: seq<Raw>): Option<seq<Scalar>> {
    if raws == [] then Some([])
    else
      match ReadScalar(Some(raws[0]))
      case None => None
      case Some(v) => Cons(v, ReadScalars(raws[1..]))
  }

  /** A value read in front of the rest. */
  function Cons<T>(first: T, rest: Option<seq<T>>): Option<seq<T>> {
    if rest.None? then None else Some([first] + rest.value)
  }

  function ReadPredicate(raw: Option<Raw>, depth: nat): Option<DomainPredicate>
    decreases MAX_DEPTH + 2 - depth, 0
  {
    if depth > MAX_DEPTH || raw.None? || !raw.value.RawObject? then None
    else
      var o := raw.value;
      var op := AsText(Member(o, "op"));
      if op == Some("and") || op == Some("or") then
        match AsArray(Member(o, "operands"))
        case None => None
        case Some(operands) =>
          (match ReadPredicates(operands, depth + 1)
           case None => None
           case Some(ps) => Some(Junction(if op == Some("and") then And else Or, ps)))
      else if op == Some("not") then
        match ReadPredicate(Member(o, "operand"), depth + 1)
        case None => None
        case Some(p) => Some(Not(p))
      else
        match ReadField(Member(o, "field"))
        case None => None
        case Some(f) => ReadComparison(o, op, f)
  }

  function ReadPredicates(raws: seq<Raw>, depth: nat): Option<seq<DomainPredicate>>
    requires depth <= MAX_DEPTH + 1
    decreases MAX_DEPTH + 2 - depth, |raws|
  {
    if raws == [] then Some([])
    else
      match ReadPredicate(Some(raws[0]), depth)
      case None => None
      case Some(p) => Cons(p, ReadPredicates(raws[1..], depth))
  }

  function ReadComparison(o: Raw, op: Option<string>, f: Field): Option<DomainPredicate>
    requires o.RawObject?
  {
    if op == Some("eq") || op == Some("neq") then
      match ReadScalar(Member(o, "value"))
      case None => None
      case Some(v) => Some(Equality(if op == Some("eq") then Eq else Neq, f, v))
    else if op == Some("in") || op == Some("notIn") then
      match AsArray(Member(o, "values"))
      case None => None
      case Some(raws) =>
        (match ReadScalars(raws)
         case None => None
         case Some(vs) => Some(Membership(if op == Some("in") then In else NotIn, f, vs)))
    else if op == Some("contains") || op == Some("startsWith") || op == Some("endsWith") then
      match AsText(Member(o, "value"))
      case None => None
      case Some(t) =>
        Some(Match(if op == Some("contains") then Contains else if op == Some("startsWith") then StartsWith else EndsWith, f, t))
    else if op == Some("gt") || op == Some("gte") || op == Some("lt") || op == Some("lte") then
      match AsNumber(Member(o, "value"))
      case None => None
      case Some(n) =>
        Some(Order(if op == Some("gt") then Gt else if op == Some("gte") then Gte else if op == Some("lt") then Lt else Lte, f, n))
    else if op == Some("exists") then Some(Presence(Exists, f))
    else if op == Some("notExists") then Some(Presence(NotExists, f))
    else None
  }

  function ReadWindow(raw: Option<Raw>): Option<Window> {
    if raw.None? || !raw.value.RawObject? then None
    else
      var o := raw.value;
      var kind := AsText(Member(o, "kind"));
      if kind == Some("relative") then
        var amount, unit := AsNumber(Member(o, "amount")), ReadGrain(Member(o, "unit"));
        if amount.None? || unit.None? then None else Some(Relative(amount.value, unit.value))
      else if kind == Some("absolute") then
        var from, to := AsNumber(Member(o, "from")), AsNumber(Member(o, "to"));
        if from.None? || to.None? then None else Some(Absolute(from.value, to.value))
      else None
  }

  function ReadMeasure(raw: Option<Raw>): Option<Measure> {
    if raw.None? || !raw.value.RawObject? then None
    else
      var o := raw.value;
      var kind := AsText(Member(o, "kind"));
      if kind == Some("count") then Some(Count)
      else if kind == Some("unique") then
        (match ReadBasis(Member(o, "basis")) case None => None case Some(b) => Some(Unique(b)))
      else if kind == Some("sum") then
        (match AsString(Member(o, "name")) case None => None case Some(n) => Some(Sum(n)))
      else None
  }

  function ReadNames(raws: seq<Raw>): Option<seq<string>> {
    if raws == [] then Some([])
    else
      match AsString(Some(raws[0]))
      case None => None
      case Some(n) => Cons(n, ReadNames(raws[1..]))
  }

  /** An optional condition: only a predicate or nothing at all will do. */
  function ReadCondition(raw: Option<Raw>): Option<Option<DomainPredicate>> {
    if raw.None? then Some(None)
    else match ReadPredicate(raw, 0) case None => None case Some(p) => Some(Some(p))
  }

  function ReadStep(raw: Raw): Option<DomainStep> {
    if !raw.RawObject? then None
    else
      match AsArray(Member(raw, "events"))
      case None => None
      case Some(events) =>
        var names, caption, condition := ReadNames(events), Member(raw, "label"), ReadCondition(Member(raw, "where"));
        if events == [] || names.None? || (caption.Some? && AsString(caption).None?) || condition.None? then None
        else Some(Step(AsString(caption), names.value, condition.value))
  }

  function ReadSteps(raws: seq<Raw>): Option<seq<DomainStep>> {
    if raws == [] then Some([])
    else
      match ReadStep(raws[0])
      case None => None
      case Some(s) => Cons(s, ReadSteps(raws[1..]))
  }

  /** Two spellings of the conversion window: `conversionWindow: { within }` and `conversionWindowMs`. */
  function ReadMillis(o: Raw): Option<real>
    requires o.RawObject?
  {
    var nested := Member(o, "conversionWindow");
    var within := AsNumber(if nested.Some? && nested.value.RawObject? then Member(nested.value, "within") else None);
    if within.Some? then within else AsNumber(Member(o, "conversionWindowMs"))
  }

  function FunnelFrom(steps: Option<seq<DomainStep>>, window: Option<Window>, basis: Option<Basis>,
      millis: Option<real>): Option<DomainAnalysis> {
    if steps.None? || window.None? || basis.None? || millis.None? then None
    else Some(FunnelOf(steps.value, window.value, millis.value, basis.value))
  }

  function ReadFunnel(raw: Option<Raw>): Option<DomainAnalysis> {
    if raw.None? || !raw.value.RawObject? then None
    else
      var o := raw.value;
      match AsArray(Member(o, "steps"))
      case None => None
      case Some(raws) => FunnelFrom(ReadSteps(raws), ReadWindow(Member(o, "window")), ReadBasis(Member(o, "basis")), ReadMillis(o))
  }

  /** `null` counts as no condition at the top. */
  function TopCondition(raw: Option<Raw>): Option<Option<DomainPredicate>> {
    if raw == Some(RawNull) then Some(None) else ReadCondition(raw)
  }

  function ReadShape(o: Raw, measure: Measure, window: Window,
      condition: Option<DomainPredicate>): Option<DomainAnalysis>
    requires o.RawObject?
  {
    var shape := AsText(Member(o, "shape"));
    if shape == Some("scalar") then
      match ReadSummary(Member(o, "summary"))
      case None => None
      case Some(s) => Some(ScalarOf(measure, window, condition, s))
    else if shape == Some("series") then
      match ReadGrain(Member(o, "grain"))
      case None => None
      case Some(g) => Some(SeriesOf(measure, window, condition, g, None, None))
    else if shape == Some("breakdown") then
      var grouping, direction, limit := ReadField(Member(o, "by")), ReadDirection(Member(o, "order")), AsNumber(Member(o, "limit"));
      if grouping.None? || direction.None? || limit.None? then None
      else if limit.value != limit.value.Floor as real || limit.value <= 0.0 || limit.value > MAX_BREAKDOWN_LIMIT then None
      else Some(BreakdownOf(measure, window, condition, One(grouping.value), direction.value, limit.value))
    else None
  }

  function ParseAnalysis(raw: Raw): Option<DomainAnalysis> {
    if !raw.RawObject? then None
    else if AsText(Member(raw, "shape")) == Some("funnel") then ReadFunnel(Member(raw, "funnel"))
    else
      var measure, window := ReadMeasure(Member(raw, "measure")), ReadWindow(Member(raw, "window"));
      if measure.None? || window.None? then None
      else
        match TopCondition(Member(raw, "where"))
        case None => None
        case Some(condition) => ReadShape(raw, measure.value, window.value, condition)
  }

  // ---- the loops of the reader ---------------------------------------------------------------------------

  /** Values read already, in front of those still to come. */
  function Onto<T>(done: seq<T>, rest: Option<seq<T>>): Option<seq<T>> {
    if rest.None? then None else Some(done + rest.value)
  }

  lemma OntoStep<T>(done: seq<T>, x: T, rest: Option<seq<T>>)
    ensures Onto(done, Cons(x, rest)) == Onto(done + [x], rest)
    ensures Onto([], rest) == rest
  {
    if rest.Some? {
      assert done + ([x] + rest.value) == done + [x] + rest.value;
      assert [] + rest.value == rest.value;
    }
  }

  method ParseScalars(raws: seq<Raw>) returns (r: Option<seq<Scalar>>)
    ensures r == ReadScalars(raws)
  {
    var values: seq<Scalar> := [];
    OntoStep(values, NoValue, ReadScalars(raws));
    for i := 0 to |raws|
      invariant ReadScalars(raws) == Onto(values, ReadScalars(raws[i..]))
    {
      var value := ReadScalar(Some(raws[i]));
      if value.None? {
        return None;
      }
      OntoStep(values, value.value, ReadScalars(raws[i + 1..]));
      assert raws[i..][1..] == raws[i + 1..];
      values := values + [value.value];
    }
    assert values + [] == values;
    return Some(values);
  }

  method ParsePredicate(raw: Option<Raw>, depth: nat) returns (r: Option<DomainPredicate>)
    ensures r == ReadPredicate(raw, depth)
    decreases MAX_DEPTH + 2 - depth, 0
  {
    if depth > MAX_DEPTH || raw.None? || !raw.value.RawObject? {
      return None;
    }
    var o := raw.value;
    var op := AsText(Member(o, "op"));
    if op == Some("and") || op == Some("or") {
      var operands := AsArray(Member(o, "operands"));
      if operands.None? {
        return None;
      }
      var parsed := ParseOperands(operands.value, depth + 1);
      return if parsed.None? then None else Some(Junction(if op == Some("and") then And else Or, parsed.value));
    }
    if op == Some("not") {
      var operand := ParsePredicate(Member(o, "operand"), depth + 1);
      return if operand.None? then None else Some(Not(operand.value));
    }
    var field := ReadField(Member(o, "field"));
    if field.None? {
      return None;
    }
    if op == Some("in") || op == Some("notIn") {
      var raws := AsArray(Member(o, "values"));
      if raws.None? {
        return None;
      }
      var values := ParseScalars(raws.value);
      return if values.None? then None else Some(Membership(if op == Some("in") then In else NotIn, field.value, values.value));
    }
    return ReadComparison(o, op, field.value);
  }

  method ParseOperands(raws: seq<Raw>, depth: nat) returns (r: Option<seq<DomainPredicate>>)
    requires depth <= MAX_DEPTH + 1
    ensures r == ReadPredicates(raws, depth)
    decreases MAX_DEPTH + 2 - depth, 1
  {
    var parsed: seq<DomainPredicate> := [];
    OntoStep(parsed, Presence(Exists, Property("")), ReadPredicates(raws, depth));
    for i := 0 to |raws|
      invariant ReadPredicates(raws, depth) == Onto(parsed, ReadPredicates(raws[i..], depth))
    {
      var one := ParsePredicate(Some(raws[i]), depth);
      if one.None? {
        return None;
      }
      OntoStep(parsed, one.value, ReadPredicates(raws[i + 1..], depth));
      assert raws[i..][1..] == raws[i + 1..];
      parsed := parsed + [one.value];
    }
    assert parsed + [] == parsed;
    return Some(parsed);
  }

  method ParseStep(raw: Raw) returns (r: Option<DomainStep>)
    ensures r == ReadStep(raw)
  {
    if !raw.RawObject? {
      return None;
    }
    var events := AsArray(Member(raw, "events"));
    if events.None? || events.value == [] {
      return None;
    }
    var names: seq<string> := [];
    OntoStep(names, "", ReadNames(events.value));
    for i := 0 to |events.value|
      invariant ReadNames(events.value) == Onto(names, ReadNames(events.value[i..]))
    {
      var name := AsString(Some(events.value[i]));
      if name.None? {
        return None;
      }
      OntoStep(names, name.value, ReadNames(events.value[i + 1..]));
      assert events.value[i..][1..] == events.value[i + 1..];
      names := names + [name.value];
    }
    assert names + [] == names;
    var caption := Member(raw, "label");
    if caption.Some? && AsString(caption).None? {
      return None;
    }
    var condition: Option<DomainPredicate> := None;
    if Member(raw, "where").Some? {
      condition := ParsePredicate(Member(raw, "where"), 0);
      if condition.None? {
        return None;
      }
    }
    return Some(Step(AsString(caption), names, condition));
  }

  method ParseSteps(raws: seq<Raw>) returns (r: Option<seq<DomainStep>>)
    ensures r == ReadSteps(raws)
  {
    var parsed: seq<DomainStep> := [];
    OntoStep(parsed, Step(None, [], None), ReadSteps(raws));
    for i := 0 to |raws|
      invariant ReadSteps(raws) == Onto(parsed, ReadSteps(raws[i..]))
    {
      var one := ParseStep(raws[i]);
      if one.None? {
        return None;
      }
      OntoStep(parsed, one.value, ReadSteps(raws[i + 1..]));
      assert raws[i..][1..] == raws[i + 1..];
      parsed := parsed + [one.value];
    }
    assert parsed + [] == parsed;
    return Some(parsed);
  }
}
