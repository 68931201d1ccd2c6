/**
 * The ingest quota (apps/api/src/ingest/quota.ts): a cached reading of the event store, advanced by
 * what is recorded in between. A query of the engine enters as its answer, `None` when it fails.
 */
module IngestQuota {
  import opened Common

  datatype Reading = Reading(used: nat, readAt: int)

  type Readings = map<string, Reading>

  datatype Verdict =
    | RateLimited(retryAfter: int)
    | PlanExceeded(limit: nat, used: nat)
    | Allowed(remaining: Option<int>)

  /** `projectWorkspace`: no such project, a project nobody has claimed, or a claimed one. */
  datatype Owner = NoProject | Unclaimed | Claimed(workspace: string)

  /** A workspace's plan: none found, or its allowance, `None` for unlimited. */
  datatype Plan = NoPlan | Plan(eventsPerMonth: Option<nat>)

  const HOUR := 3_600_000
  const OVERAGE_MULTIPLE := 1.3
  const MAX_FUTURE_SKEW := 5 * 60_000
  const MAX_AGE := 30 * 86_400_000

  function UnclaimedKey(project: string): string { "unclaimed:" + project }

  predicate Stale(reading: Reading, at: int, refresh: int) { at - reading.readAt >= refresh }

  predicate Cached(readings: Readings, key: string, at: int, refresh: int) {
    key in readings && !Stale(readings[key], at, refresh)
  }

  /** The readings after a count was asked for: a fresh answer replaces a stale one, a failed one nothing. */
  function Refreshed(readings: Readings, key: string, at: int, refresh: int, answer: Option<nat>): Readings {
    if Cached(readings, key, at, refresh) || answer.None? then readings else readings[key := Reading(answer.value, at)]
  }

  function Used(readings: Readings, key: string, at: int, refresh: int, answer: Option<nat>): Option<nat> {
    if Cached(readings, key, at, refresh) then Some(readings[key].used) else answer
  }

  function UnclaimedVerdict(prior: Option<nat>, count: nat, allowance: nat): Verdict {
    if prior.None? then Allowed(None)
    else if prior.value + count > allowance then PlanExceeded(allowance, prior.value + count)
    else Allowed(Some(allowance - (prior.value + count)))
  }

  datatype Decision = Fine | Overage | Rejected

  /** `Quota.decide` (packages/tenancy/domain/src/quota.ts). */
  function Decide(limit: Option<nat>, used: nat): Decision {
    if limit.None? || used < limit.value then Fine
    else if limit.value == 0 then Rejected
    else if used as real / limit.value as real < OVERAGE_MULTIPLE then Overage
    else Rejected
  }

  function ClaimedVerdict(limit: nat, used: Option<nat>, count: nat): Verdict {
    if used.None? then Allowed(None)
    else if Decide(Some(limit), used.value + count).Rejected? then PlanExceeded(limit, used.value + count)
    else Allowed(Some(Max(0, limit - (used.value + count))))
  }

  lemma RatioDecides(limit: nat, used: nat, count: nat)
    ensures ClaimedVerdict(limit, Some(used), count).PlanExceeded? <==>
              (used + count) as real >= OVERAGE_MULTIPLE * limit as real && used + count >= limit
  {
    if limit > 0 {
      var ratio := (used + count) as real / limit as real;
      assert ratio * limit as real == (used + count) as real;
      if ratio < OVERAGE_MULTIPLE {
        Scaled(ratio, OVERAGE_MULTIPLE, limit as real);
      } else if ratio > OVERAGE_MULTIPLE {
        Scaled(OVERAGE_MULTIPLE, ratio, limit as real);
      }
    }
  }

  /**
   * A workspace is refused exactly when the batch would carry it to 1.3 times its allowance, and to the
   * allowance itself.
   */
  lemma RefusedAtTheBand(limit: nat, used: nat, count: nat)
    ensures ClaimedVerdict(limit, Some(used), count).PlanExceeded? <==>
              (used + count) as real >= 1.3 * limit as real && used + count >= limit
  {
    RatioDecides(limit, used, count);
  }

  lemma Scaled(a: real, b: real, factor: real)
    requires a < b && factor > 0.0
    ensures a * factor < b * factor
  {
  }

  /** `record`: both keys are advanced, each only if there is a reading of it. */
  function Recorded(readings: Readings, key: string, count: nat): Readings {
    if key in readings then readings[key := Reading(readings[key].used + count, readings[key].readAt)] else readings
  }

  class DerivedQuota {
    const refresh: int
    const allowance: nat
    var readings: Readings

    constructor (refresh: int, allowance: nat)
      ensures this.refresh == refresh && this.allowance == allowance && readings == map[]
    {
      this.refresh, this.allowance, readings := refresh, allowance, map[];
    }

    method UsedBy(key: string, at: int, answer: Option<nat>) returns (used: Option<nat>)
      modifies this
      ensures used == Used(old(readings), key, at, refresh, answer)
      ensures readings == Refreshed(old(readings), key, at, refresh, answer)
    {
      if key in readings && !Stale(readings[key], at, refresh) {
        return Some(readings[key].used);
      }
      if answer.Some? {
        readings := readings[key := Reading(answer.value, at)];
      }
      return answer;
    }

    method Check(project: string, owner: Owner, plan: Plan, count: nat, at: int, answer: Option<nat>)
      returns (verdict: Verdict)
      modifies this
      ensures owner.NoProject? ==> verdict == RateLimited(HOUR) && readings == old(readings)
      ensures owner.Unclaimed? ==>
        && verdict == UnclaimedVerdict(Used(old(readings), UnclaimedKey(project), at, refresh, answer), count, allowance)
        && readings == Refreshed(old(readings), UnclaimedKey(project), at, refresh, answer)
      ensures owner.Claimed? && (plan.NoPlan? || plan.eventsPerMonth.None?) ==> verdict == Allowed(None) && readings == old(readings)
      ensures owner.Claimed? && plan.Plan? && plan.eventsPerMonth.Some? ==>
        && verdict == ClaimedVerdict(plan.eventsPerMonth.value, Used(old(readings), owner.workspace, at, refresh, answer), count)
        && readings == Refreshed(old(readings), owner.workspace, at, refresh, answer)
    {
      match owner
      case NoProject =>
        return RateLimited(HOUR);
      case Unclaimed =>
        var prior := UsedBy(UnclaimedKey(project), at, answer);
        if prior.None? {
          return Allowed(None);
        }
        var used := prior.value + count;
        return if used > allowance then PlanExceeded(allowance, used) else Allowed(Some(allowance - used));
      case Claimed(workspace) =>
        if plan.NoPlan? || plan.eventsPerMonth.None? {
          return Allowed(None);
        }
        var limit := plan.eventsPerMonth.value;
        var used := UsedBy(workspace, at, answer);
        if used.None? {
          return Allowed(None);
        }
        if Decide(Some(limit), used.value + count).Rejected? {
          return PlanExceeded(limit, used.value + count);
        }
        return Allowed(Some(Max(0, limit - (used.value + count))));
    }

    method Record(workspace: string, count: nat, project: string)
      modifies this
      ensures readings == Recorded(Recorded(old(readings), workspace, count), UnclaimedKey(project), count)
    {
      var keys := [workspace, UnclaimedKey(project)];
      for i := 0 to |keys|
        invariant i == 0 ==> readings == old(readings)
        invariant i == 1 ==> readings == Recorded(old(readings), workspace, count)
        invariant i == 2 ==> readings == Recorded(Recorded(old(readings), workspace, count), UnclaimedKey(project), count)
      {
        if keys[i] in readings {
          readings := readings[keys[i] := Reading(readings[keys[i]].used + count, readings[keys[i]].readAt)];
        }
      }
    }
  }
}
