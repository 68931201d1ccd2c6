/**
 * The question an analysis asks (packages/analytics/domain), and its form on the wire. The two
 * differ in how a field and a window are written, so both are parameters of the one shape.
 */
module Analyses {
  import opened Common

  const DIMENSIONS := {"event_type", "os_name", "os_version", "locale", "app_version", "device_model", "sdk_version", "country"}

  type DimensionName = s: string | s in DIMENSIONS witness "country"

  datatype Field = Dimension(name: DimensionName) | Property(key: string)

  datatype Source = FromDimension | FromProperty

  datatype WireField = WireField(source: Source, key: string)

  datatype Scalar = Text(text: string) | Numeric(number: real) | Flag(flag: bool) | NoValue

  datatype JunctionOp = And | Or
  datatype EqualityOp = Eq | Neq
  datatype MembershipOp = In | NotIn
  datatype MatchOp = Contains | StartsWith | EndsWith
  datatype OrderOp = Gt | Gte | Lt | Lte
  datatype PresenceOp = Exists | NotExists

  datatype Predicate<F> =
    | Junction(junction: JunctionOp, operands: seq<Predicate<F>>)
    | Not(operand: Predicate<F>)
    | Equality(equality: EqualityOp, field: F, value: Scalar)
    | Membership(membership: MembershipOp, field: F, values: seq<Scalar>)
    | Match(match_: MatchOp, field: F, pattern: string)
    | Order(order: OrderOp, field: F, bound: real)
    | Presence(presence: PresenceOp, field: F)

  datatype Grain = Hour | Day | Week | Month
  datatype Basis = Visit | Person
  datatype Summary = Total | Average | Peak | Low | Latest
  datatype Direction = Ascending | Descending

  datatype Window = Relative(amount: real, grain: Grain) | Absolute(from: real, to: real)

  datatype WireWindow = WireRelative(amount: real, grain: Grain) | WireAbsolute(from: string, to: string)

  datatype Measure = Count | Unique(basis: Basis) | Sum(name: string)

  datatype Step<F> = Step(caption: Option<string>, events: seq<string>, condition: Option<Predicate<F>>)

  datatype Breakdown<F> = One(sole: F) | Several(all: seq<F>)

  datatype Analysis<F, W> =
    | FunnelOf(steps: seq<Step<F>>, window: W, conversionMs: real, basis: Basis)
    | ScalarOf(measure: Measure, window: W, condition: Option<Predicate<F>>, summary: Summary)
    | SeriesOf(measure: Measure, window: W, condition: Option<Predicate<F>>, grain: Grain, split: Option<F>,
        limit: Option<real>)
    | BreakdownOf(measure: Measure, window: W, condition: Option<Predicate<F>>, grouping: Breakdown<F>,
        direction: Direction, top: real)

  type DomainPredicate = Predicate<Field>
  type WirePredicate = Predicate<WireField>
  type DomainStep = Step<Field>
  type WireStep = Step<WireField>
  type DomainAnalysis = Analysis<Field, Window>
  type WireAnalysis = Analysis<WireField, WireWindow>

  // ---- everything an analysis mentions -------------------------------------------------------------------

  function Fields<F>(p: Predicate<F>): seq<F> {
    match p
    case Junction(_, operands) => FieldsOfAll(operands)
    case Not(operand) => Fields(operand)
    case Equality(_, f, _) => [f]
    case Membership(_, f, _) => [f]
    case Match(_, f, _) => [f]
    case Order(_, f, _) => [f]
    case Presence(_, f) => [f]
  }

  function FieldsOfAll<F>(operands: seq<Predicate<F>>): seq<F> {
    if operands == [] then [] else Fields(operands[0]) + FieldsOfAll(operands[1..])
  }

  function FieldsOfCondition<F>(condition: Option<Predicate<F>>): seq<F> {
    if condition.None? then [] else Fields(condition.value)
  }

  function FieldsOfSteps<F>(steps: seq<Step<F>>): seq<F> {
    if steps == [] then [] else FieldsOfCondition(steps[0].condition) + FieldsOfSteps(steps[1..])
  }

  /** Every field an analysis mentions, in reading order. */
  function FieldsOf<F, W>(a: Analysis<F, W>): seq<F> {
    match a
    case FunnelOf(steps, _, _, _) => FieldsOfSteps(steps)
    case ScalarOf(_, _, condition, _) => FieldsOfCondition(condition)
    case SeriesOf(_, _, condition, _, split, _) =>
      FieldsOfCondition(condition) + if split.None? then [] else [split.value]
    case BreakdownOf(_, _, condition, grouping, _, _) =>
      FieldsOfCondition(condition) + if grouping.One? then [grouping.sole] else grouping.all
  }

  /** Every instant a wire analysis writes as text. */
  function InstantsOf(w: WireAnalysis): seq<string> {
    if w.window.WireAbsolute? then [w.window.from, w.window.to] else []
  }

  /** A field names one of the eight dimensions there are, or any property. */
  ghost predicate Known(f: WireField) {
    f.source.FromDimension? ==>
      || f.key == "event_type" || f.key == "os_name" || f.key == "os_version" || f.key == "locale"
      || f.key == "app_version" || f.key == "device_model" || f.key == "sdk_version" || f.key == "country"
  }
}
