/**
 * Analyses across the HTTP boundary, both ways (apps/api/src/analysis/wire.ts). How instants are
 * printed and parsed is the runtime's; it enters as a pair of functions.
 */
module AnalysisWire {
  import opened Common
  import opened Analyses

  datatype AnalysisError = UnknownDimension(dimension: string) | InvalidAnalysis(text: string)

  /** `Instant.toISO` and `Instant.fromISO`. */
  datatype IsoText = IsoText(format: real -> string, parse: string -> Option<real>)

  // ---- wire to domain -----------------------------------------------------------------------------------

  function ToField(w: WireField): Result<Field, AnalysisError> {
    match w.source
    case FromDimension => if w.key in DIMENSIONS then Ok(Dimension(w.key)) else Err(UnknownDimension(w.key))
    case FromProperty => Ok(Property(w.key))
  }

  function ToFields(ws: seq<WireField>): Result<seq<Field>, AnalysisError> {
    if ws == [] then Ok([])
    else
      match ToField(ws[0])
      case Err(e) => Err(e)
      case Ok(f) => Prepend(f, ToFields(ws[1..]))
  }

  /** A converted element in front of the converted rest. */
  function Prepend<T>(first: T, rest: Result<seq<T>, AnalysisError>): Result<seq<T>, AnalysisError> {
    match rest
    case Err(e) => Err(e)
    case Ok(more) => Ok([first] + more)
  }

  function ToPredicate(w: WirePredicate): Result<DomainPredicate, AnalysisError> {
    match w
    case Junction(op, operands) =>
      (match ToPredicates(operands)
       case Err(e) => Err(e)
       case Ok(converted) => Ok(Junction(op, converted)))
    case Not(operand) =>
      (match ToPredicate(operand)
       case Err(e) => Err(e)
       case Ok(converted) => Ok(Not(converted)))
    case Equality(op, field, value) =>
      (match ToField(field) case Err(e) => Err(e) case Ok(f) => Ok(Equality(op, f, value)))
    case Membership(op, field, values) =>
      (match ToField(field) case Err(e) => Err(e) case Ok(f) => Ok(Membership(op, f, values)))
    case Match(op, field, pattern) =>
      (match ToField(field) case Err(e) => Err(e) case Ok(f) => Ok(Match(op, f, pattern)))
    case Order(op, field, bound) =>
      (match ToField(field) case Err(e) => Err(e) case Ok(f) => Ok(Order(op, f, bound)))
    case Presence(op, field) =>
      (match ToField(field) case Err(e) => Err(e) case Ok(f) => Ok(Presence(op, f)))
  }

  function ToPredicates(ws: seq<WirePredicate>): Result<seq<DomainPredicate>, AnalysisError> {
    if ws == [] then Ok([])
    else
      match ToPredicate(ws[0])
      case Err(e) => Err(e)
      case Ok(p) => Prepend(p, ToPredicates(ws[1..]))
  }

  function ToCondition(w: Option<WirePredicate>): Result<Option<DomainPredicate>, AnalysisError> {
    if w.None? then Ok(None)
    else match ToPredicate(w.value) case Err(e) => Err(e) case Ok(p) => Ok(Some(p))
  }

  function ToStep(w: WireStep): Result<DomainStep, AnalysisError> {
    match ToCondition(w.condition)
    case Err(e) => Err(e)
    case Ok(condition) => Ok(Step(w.caption, w.events, condition))
  }

  function ToSteps(ws: seq<WireStep>): Result<seq<DomainStep>, AnalysisError> {
    if ws == [] then Ok([])
    else
      match ToStep(ws[0])
      case Err(e) => Err(e)
      case Ok(s) => Prepend(s, ToSteps(ws[1..]))
  }

  function ToWindow(iso: IsoText, w: WireWindow): Result<Window, AnalysisError> {
    match w
    case WireRelative(amount, grain) => Ok(Relative(amount, grain))
    case WireAbsolute(from, to) =>
      if iso.parse(from).None? then Err(InvalidAnalysis(from))
      else if iso.parse(to).None? then Err(InvalidAnalysis(to))
      else Ok(Absolute(iso.parse(from).value, iso.parse(to).value))
  }

  function ToSplit(w: Option<WireField>): Result<Option<Field>, AnalysisError> {
    if w.None? then Ok(None)
    else match ToField(w.value) case Err(e) => Err(e) case Ok(f) => Ok(Some(f))
  }

  function ToBreakdown(w: Breakdown<WireField>): Result<Breakdown<Field>, AnalysisError> {
    match w
    case One(sole) => (match ToField(sole) case Err(e) => Err(e) case Ok(f) => Ok(One(f)))
    case Several(all) => (match ToFields(all) case Err(e) => Err(e) case Ok(fs) => Ok(Several(fs)))
  }

  function ToAnalysis(iso: IsoText, w: WireAnalysis): Result<DomainAnalysis, AnalysisError> {
    if w.FunnelOf? then
      match ToSteps(w.steps)
      case Err(e) => Err(e)
      case Ok(steps) =>
        match ToWindow(iso, w.window)
        case Err(e) => Err(e)
        case Ok(window) => Ok(FunnelOf(steps, window, w.conversionMs, w.basis))
    else
      match ToWindow(iso, w.window)
      case Err(e) => Err(e)
      case Ok(window) =>
        match ToCondition(w.condition)
        case Err(e) => Err(e)
        case Ok(condition) =>
          match w
          case ScalarOf(measure, _, _, summary) => Ok(ScalarOf(measure, window, condition, summary))
          case SeriesOf(measure, _, _, grain, split, limit) =>
            (match ToSplit(split) case Err(e) => Err(e) case Ok(f) => Ok(SeriesOf(measure, window, condition, grain, f, limit)))
          case BreakdownOf(measure, _, _, grouping, direction, top) =>
            (match ToBreakdown(grouping) case Err(e) => Err(e) case Ok(b) => Ok(BreakdownOf(measure, window, condition, b, direction, top)))
  }

  // ---- domain to wire -----------------------------------------------------------------------------------

  function FromField(f: Field): WireField {
    match f
    case Dimension(name) => WireField(FromDimension, name)
    case Property(key) => WireField(FromProperty, key)
  }

  function FromFields(fs: seq<Field>): seq<WireField> {
    if fs == [] then [] else [FromField(fs[0])] + FromFields(fs[1..])
  }

  function FromPredicate(p: DomainPredicate): WirePredicate {
    match p
    case Junction(op, operands) => Junction(op, FromPredicates(operands))
    case Not(operand) => Not(FromPredicate(operand))
    case Equality(op, field, value) => Equality(op, FromField(field), value)
    case Membership(op, field, values) => Membership(op, FromField(field), values)
    case Match(op, field, pattern) => Match(op, FromField(field), pattern)
    case Order(op, field, bound) => Order(op, FromField(field), bound)
    case Presence(op, field) => Presence(op, FromField(field))
  }

  function FromPredicates(ps: seq<DomainPredicate>): seq<WirePredicate> {
    if ps == [] then [] else [FromPredicate(ps[0])] + FromPredicates(ps[1..])
  }

  function FromCondition(p: Option<DomainPredicate>): Option<WirePredicate> {
    if p.None? then None else Some(FromPredicate(p.value))
  }

  function FromSteps(steps: seq<DomainStep>): seq<WireStep> {
    if steps == [] then []
    else [Step(steps[0].caption, steps[0].events, FromCondition(steps[0].condition))] + FromSteps(steps[1..])
  }

  function FromWindow(iso: IsoText, w: Window): WireWindow {
    match w
    case Relative(amount, grain) => WireRelative(amount, grain)
    case Absolute(from, to) => WireAbsolute(iso.format(from), iso.format(to))
  }

  function FromAnalysis(iso: IsoText, a: DomainAnalysis): WireAnalysis {
    match a
    case FunnelOf(steps, window, conversionMs, basis) => FunnelOf(FromSteps(steps), FromWindow(iso, window), conversionMs, basis)
    case ScalarOf(measure, window, condition, summary) =>
      ScalarOf(measure, FromWindow(iso, window), FromCondition(condition), summary)
    case SeriesOf(measure, window, condition, grain, split, limit) =>
      SeriesOf(measure, FromWindow(iso, window), FromCondition(condition), grain,
               if split.None? then None else Some(FromField(split.value)), limit)
    case BreakdownOf(measure, window, condition, grouping, direction, top) =>
      BreakdownOf(measure, FromWindow(iso, window), FromCondition(condition),
                  if grouping.One? then One(FromField(grouping.sole)) else Several(FromFields(grouping.all)), direction, top)
  }

  // ---- the loops of the conversion -----------------------------------------------------------------------

  lemma PrependStep<T>(done: seq<T>, x: T, rest: Result<seq<T>, AnalysisError>)
    ensures Append(done, Prepend(x, rest)) == Append(done + [x], rest)
    ensures Append([], rest) == rest
  {
    if rest.Ok? {
      assert done + ([x] + rest.value) == done + [x] + rest.value;
      assert [] + rest.value == rest.value;
    }
  }

  /** Elements converted already, in front of those still to come. */
  function Append<T>(done: seq<T>, rest: Result<seq<T>, AnalysisError>): Result<seq<T>, AnalysisError> {
    match rest
    case Err(e) => Err(e)
    case Ok(more) => Ok(done + more)
  }

  method ConvertPredicate(w: WirePredicate) returns (r: Result<DomainPredicate, AnalysisError>)
    ensures r == ToPredicate(w)
  {
    if w.Junction? {
      var operands: seq<DomainPredicate> := [];
      PrependStep(operands, Presence(Exists, Property("")), ToPredicates(w.operands));
      for i := 0 to |w.operands|
        invariant ToPredicates(w.operands) == Append(operands, ToPredicates(w.operands[i..]))
      {
        var converted := ConvertPredicate(w.operands[i]);
        if converted.Err? {
          return Err(converted.error);
        }
        PrependStep(operands, converted.value, ToPredicates(w.operands[i + 1..]));
        assert w.operands[i..][1..] == w.operands[i + 1..];
        operands := operands + [converted.value];
      }
      assert operands + [] == operands;
      return Ok(Junction(w.junction, operands));
    } else if w.Not? {
      var operand := ConvertPredicate(w.operand);
      return if operand.Err? then Err(operand.error) else Ok(Not(operand.value));
    } else {
      var field := ToField(w.field);
      if field.Err? {
        return Err(field.error);
      }
      return Ok(match w
        case Equality(op, _, value) => Equality(op, field.value, value)
        case Membership(op, _, values) => Membership(op, field.value, values)
        case Match(op, _, pattern) => Match(op, field.value, pattern)
        case Order(op, _, bound) => Order(op, field.value, bound)
        case Presence(op, _) => Presence(op, field.value));
    }
  }

  method ConvertSteps(ws: seq<WireStep>) returns (r: Result<seq<DomainStep>, AnalysisError>)
    ensures r == ToSteps(ws)
  {
    var steps: seq<DomainStep> := [];
    PrependStep(steps, Step(None, [], None), ToSteps(ws));
    for i := 0 to |ws|
      invariant ToSteps(ws) == Append(steps, ToSteps(ws[i..]))
    {
      var condition: Option<DomainPredicate> := None;
      if ws[i].condition.Some? {
        var converted := ConvertPredicate(ws[i].condition.value);
        if converted.Err? {
          return Err(converted.error);
        }
        condition := Some(converted.value);
      }
      var step := Step(ws[i].caption, ws[i].events, condition);
      PrependStep(steps, step, ToSteps(ws[i + 1..]));
      assert ws[i..][1..] == ws[i + 1..];
      steps := steps + [step];
    }
    assert steps + [] == steps;
    return Ok(steps);
  }

  method ConvertFields(ws: seq<WireField>) returns (r: Result<seq<Field>, AnalysisError>)
    ensures r == ToFields(ws)
  {
    var fields: seq<Field> := [];
    PrependStep(fields, Property(""), ToFields(ws));
    for i := 0 to |ws|
      invariant ToFields(ws) == Append(fields, ToFields(ws[i..]))
    {
      var converted := ToField(ws[i]);
      if converted.Err? {
        return Err(converted.error);
      }
      PrependStep(fields, converted.value, ToFields(ws[i + 1..]));
      assert ws[i..][1..] == ws[i + 1..];
      fields := fields + [converted.value];
    }
    assert fields + [] == fields;
    return Ok(fields);
  }

  // ---- what fails ----------------------------------------------------------------------------------------

  ghost predicate AllKnown(fields: seq<WireField>) { forall i :: 0 <= i < |fields| ==> Known(fields[i]) }

  lemma AllKnownConcat(a: seq<WireField>, b: seq<WireField>)
    ensures AllKnown(a + b) <==> AllKnown(a) && AllKnown(b)
  {
    if AllKnown(a + b) {
      forall i | 0 <= i < |a| ensures Known(a[i]) { assert (a + b)[i] == a[i]; }
      forall i | 0 <= i < |b| ensures Known(b[i]) { assert (a + b)[|a| + i] == b[i]; }
    }
  }

  /** The first field of a list that names no dimension. */
  ghost function FirstUnknown(fields: seq<WireField>): Option<string> {
    if fields == [] then None else if !Known(fields[0]) then Some(fields[0].key) else FirstUnknown(fields[1..])
  }

  lemma {:induction false} FirstUnknownIs(fields: seq<WireField>)
    ensures FirstUnknown(fields).None? <==> AllKnown(fields)
    ensures FirstUnknown(fields).Some? ==> exists i ::
      0 <= i < |fields| && !Known(fields[i]) && fields[i].key == FirstUnknown(fields).value && AllKnown(fields[..i])
  {
    if fields != [] {
      FirstUnknownIs(fields[1..]);
      AllKnownConcat([fields[0]], fields[1..]);
      assert fields == [fields[0]] + fields[1..];
      assert AllKnown([fields[0]]) <==> Known([fields[0]][0]);
      if !Known(fields[0]) {
        assert AllKnown(fields[..0]);
      } else if FirstUnknown(fields).Some? {
        var i :| 0 <= i < |fields[1..]| && !Known(fields[1..][i]) && fields[1..][i].key == FirstUnknown(fields).value && AllKnown(fields[1..][..i]);
        AllKnownConcat([fields[0]], fields[1..][..i]);
        assert fields[..i + 1] == [fields[0]] + fields[1..][..i] && fields[i + 1] == fields[1..][i];
      }
    }
  }

  /** Converted, unless some field is unknown: then refused for the first of those. */
  ghost predicate RefusedForTheFirst<T>(r: Result<T, AnalysisError>, fields: seq<WireField>) {
    if FirstUnknown(fields).None? then r.Ok? else r == Err(UnknownDimension(FirstUnknown(fields).value))
  }

  lemma {:induction false} FirstOfTwo(a: seq<WireField>, b: seq<WireField>)
    ensures FirstUnknown(a + b) == if FirstUnknown(a).Some? then FirstUnknown(a) else FirstUnknown(b)
  {
    if a == [] {
      assert a + b == b;
    } else {
      FirstOfTwo(a[1..], b);
      assert (a + b)[1..] == a[1..] + b;
    }
  }

  lemma FirstOfOne(f: WireField)
    ensures RefusedForTheFirst(ToField(f), [f])
    ensures FirstUnknown([f]) == if Known(f) then None else Some(f.key)
  {
    assert [f][1..] == [];
  }

  lemma {:induction false} PredicateFailsIff(w: WirePredicate)
    ensures ToPredicate(w).Ok? <==> AllKnown(Fields(w))
    ensures RefusedForTheFirst(ToPredicate(w), Fields(w))
  {
    FirstUnknownIs(Fields(w));
    match w
    case Junction(_, operands) => PredicatesFailIff(operands);
    case Not(operand) => PredicateFailsIff(operand);
    case _ => FirstOfOne(w.field);
  }

  lemma {:induction false} PredicatesFailIff(ws: seq<WirePredicate>)
    ensures RefusedForTheFirst(ToPredicates(ws), FieldsOfAll(ws))
  {
    if ws != [] {
      PredicateFailsIff(ws[0]);
      PredicatesFailIff(ws[1..]);
      FirstOfTwo(Fields(ws[0]), FieldsOfAll(ws[1..]));
    }
  }

  lemma ConditionFailsIff(w: Option<WirePredicate>)
    ensures RefusedForTheFirst(ToCondition(w), FieldsOfCondition(w))
  {
    if w.Some? { PredicateFailsIff(w.value); }
  }

  lemma {:induction false} StepsFailIff(ws: seq<WireStep>)
    ensures RefusedForTheFirst(ToSteps(ws), FieldsOfSteps(ws))
  {
    if ws != [] {
      ConditionFailsIff(ws[0].condition);
      StepsFailIff(ws[1..]);
      FirstOfTwo(FieldsOfCondition(ws[0].condition), FieldsOfSteps(ws[1..]));
    }
  }

  lemma {:induction false} FieldsFailIff(ws: seq<WireField>)
    ensures RefusedForTheFirst(ToFields(ws), ws)
  {
    if ws != [] {
      FieldsFailIff(ws[1..]);
      FirstOfOne(ws[0]);
      FirstOfTwo([ws[0]], ws[1..]);
      assert ws == [ws[0]] + ws[1..];
    }
  }

  predicate AllParse(iso: IsoText, instants: seq<string>) {
    forall i :: 0 <= i < |instants| ==> iso.parse(instants[i]).Some?
  }

  /** The first instant of a window that does not parse. */
  ghost function FirstUnparsed(iso: IsoText, w: WireWindow): Option<string> {
    if w.WireRelative? then None
    else if iso.parse(w.from).None? then Some(w.from)
    else if iso.parse(w.to).None? then Some(w.to)
    else None
  }

  lemma WindowFailsIff(iso: IsoText, w: WireAnalysis)
    ensures FirstUnparsed(iso, w.window).None? <==> AllParse(iso, InstantsOf(w))
    ensures ToWindow(iso, w.window) ==
      if FirstUnparsed(iso, w.window).Some? then Err(InvalidAnalysis(FirstUnparsed(iso, w.window).value))
      else Ok(if w.window.WireRelative? then Relative(w.window.amount, w.window.grain)
              else Absolute(iso.parse(w.window.from).value, iso.parse(w.window.to).value))
  {
    if w.window.WireAbsolute? {
      assert InstantsOf(w)[0] == w.window.from && InstantsOf(w)[1] == w.window.to;
    }
  }

  /**
   * What a wire analysis is refused for: of a funnel the first field that names no dimension, then
   * an instant that does not parse; of anything else the instants come first.
   */
  ghost function RefusalOf(iso: IsoText, w: WireAnalysis): Option<AnalysisError> {
    var unknown, unparsed := FirstUnknown(FieldsOf(w)), FirstUnparsed(iso, w.window);
    if unknown.Some? && (w.FunnelOf? || unparsed.None?) then Some(UnknownDimension(unknown.value))
    else if unparsed.Some? then Some(InvalidAnalysis(unparsed.value))
    else None
  }

  /** A wire analysis is refused exactly when it names an unknown dimension or an instant that does not parse, and for the first. */
  lemma AnalysisFailsIff(iso: IsoText, w: WireAnalysis)
    ensures ToAnalysis(iso, w).Err? <==>
      !AllKnown(FieldsOf(w)) || !AllParse(iso, InstantsOf(w))
    ensures if RefusalOf(iso, w).Some? then ToAnalysis(iso, w) == Err(RefusalOf(iso, w).value) else ToAnalysis(iso, w).Ok?
  {
    WindowFailsIff(iso, w);
    FirstUnknownIs(FieldsOf(w));
    match w
    case FunnelOf(steps, _, _, _) => StepsFailIff(steps);
    case ScalarOf(_, _, condition, _) => ConditionFailsIff(condition);
    case SeriesOf(_, _, condition, _, split, _) =>
      ConditionFailsIff(condition);
      FirstOfTwo(FieldsOfCondition(condition), if split.None? then [] else [split.value]);
      if split.Some? { FirstOfOne(split.value); }
    case BreakdownOf(_, _, condition, grouping, _, _) =>
      ConditionFailsIff(condition);
      FirstOfTwo(FieldsOfCondition(condition), if grouping.One? then [grouping.sole] else grouping.all);
      if grouping.One? { FirstOfOne(grouping.sole); } else { FieldsFailIff(grouping.all); }
  }

  // ---- round trips ----------------------------------------------------------------------------------------

  /** The instants a window names are written and parsed back by the runtime. */
  predicate Faithful(iso: IsoText, w: Window) {
    w.Absolute? ==> iso.parse(iso.format(w.from)) == Some(w.from) && iso.parse(iso.format(w.to)) == Some(w.to)
  }

  lemma {:induction false} PredicateReturns(p: DomainPredicate)
    ensures ToPredicate(FromPredicate(p)) == Ok(p)
  {
    match p
    case Junction(_, operands) => PredicatesReturn(operands);
    case Not(operand) => PredicateReturns(operand);
    case _ =>
  }

  lemma {:induction false} PredicatesReturn(ps: seq<DomainPredicate>)
    ensures ToPredicates(FromPredicates(ps)) == Ok(ps)
  {
    if ps != [] {
      PredicateReturns(ps[0]);
      PredicatesReturn(ps[1..]);
      assert FromPredicates(ps)[1..] == FromPredicates(ps[1..]);
      assert ps == [ps[0]] + ps[1..];
    }
  }

  lemma {:induction false} StepsReturn(steps: seq<DomainStep>)
    ensures ToSteps(FromSteps(steps)) == Ok(steps)
  {
    if steps != [] {
      if steps[0].condition.Some? { PredicateReturns(steps[0].condition.value); }
      StepsReturn(steps[1..]);
      assert FromSteps(steps)[1..] == FromSteps(steps[1..]);
      assert steps == [steps[0]] + steps[1..];
    }
  }

  lemma {:induction false} FieldsReturn(fs: seq<Field>)
    ensures ToFields(FromFields(fs)) == Ok(fs)
  {
    if fs != [] {
      FieldsReturn(fs[1..]);
      assert FromFields(fs)[1..] == FromFields(fs[1..]);
      assert fs == [fs[0]] + fs[1..];
    }
  }

  /** What the API writes it reads back, exactly for the analyses whose instants the runtime writes faithfully. */
  lemma AnalysisReturnsIff(iso: IsoText, a: DomainAnalysis)
    ensures ToAnalysis(iso, FromAnalysis(iso, a)) == Ok(a) <==> Faithful(iso, a.window)
  {
    match a
    case FunnelOf(steps, _, _, _) => StepsReturn(steps);
    case ScalarOf(_, _, condition, _) => if condition.Some? { PredicateReturns(condition.value); }
    case SeriesOf(_, _, condition, _, _, _) => if condition.Some? { PredicateReturns(condition.value); }
    case BreakdownOf(_, _, condition, grouping, _, _) =>
      if condition.Some? { PredicateReturns(condition.value); }
      if grouping.Several? { FieldsReturn(grouping.all); }
  }
}
