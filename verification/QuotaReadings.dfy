/**
 * What the quota goes by (apps/api/src/ingest/quota.ts), over any sequence of checks and records, of
 * claimed workspaces and unclaimed projects alike: the last answer of the engine that landed, for as
 * long as it is fresh, and what was recorded since.
 */
module QuotaReadings {
  import opened Common
  import opened IngestQuota

  /** A call of `check`, with what the engine would answer, or of `record`. */
  datatype Call =
    | Check(project: string, owner: Owner, plan: Plan, count: nat, at: int, answer: Option<nat>)
    | Record(workspace: string, count: nat, project: string)

  /** What a check leaves cached and says, as `DerivedQuota.Check` does. */
  function Checked(readings: Readings, c: Call, refresh: int, allowance: nat): (Readings, Verdict)
    requires c.Check?
  {
    match c.owner
    case NoProject => (readings, RateLimited(HOUR))
    case Unclaimed =>
      var key := UnclaimedKey(c.project);
      (Refreshed(readings, key, c.at, refresh, c.answer),
       UnclaimedVerdict(Used(readings, key, c.at, refresh, c.answer), c.count, allowance))
    case Claimed(workspace) =>
      if c.plan.NoPlan? || c.plan.eventsPerMonth.None? then (readings, Allowed(None))
      else
        (Refreshed(readings, workspace, c.at, refresh, c.answer),
         ClaimedVerdict(c.plan.eventsPerMonth.value, Used(readings, workspace, c.at, refresh, c.answer), c.count))
  }

  /** The class does what the runs here are made of. */
  method CheckIs(quota: DerivedQuota, c: Call) returns (verdict: Verdict)
    requires c.Check?
    modifies quota
    ensures (quota.readings, verdict) == Checked(old(quota.readings), c, quota.refresh, quota.allowance)
  {
    verdict := quota.Check(c.project, c.owner, c.plan, c.count, c.at, c.answer);
  }

  function Run(calls: seq<Call>, refresh: int, allowance: nat): Readings {
    if calls == [] then map[]
    else
      var before, c := Run(calls[..|calls| - 1], refresh, allowance), calls[|calls| - 1];
      if c.Check? then Checked(before, c, refresh, allowance).0
      else Recorded(Recorded(before, c.workspace, c.count), UnclaimedKey(c.project), c.count)
  }

  // ---- what has landed, from the calls alone ----------------------------------------------------------

  /** Whose usage a check needs: that of an unclaimed project, of a workspace with a limit, or nobody's. */
  function Needs(c: Call): Option<string> {
    if c.Record? then None
    else
      match c.owner
      case NoProject => None
      case Unclaimed => Some("unclaimed:" + c.project)
      case Claimed(workspace) => if c.plan.Plan? && c.plan.eventsPerMonth.Some? then Some(workspace) else None
  }

  /** The last check whose answer about `key` landed, or -1: the engine was asked, as none had landed so recently, and it answered. */
  function LastLanded(calls: seq<Call>, key: string, refresh: int): (i: int)
    ensures -1 <= i < |calls| && (i >= 0 ==> calls[i].Check? && calls[i].answer.Some?)
  {
    if calls == [] then -1
    else
      var before, c := calls[..|calls| - 1], calls[|calls| - 1];
      var i := LastLanded(before, key, refresh);
      if Needs(c) == Some(key) && c.answer.Some? && (i < 0 || c.at - calls[i].at >= refresh) then |calls| - 1 else i
  }

  /** What was recorded about `key`: as the workspace, or as the project while it is unclaimed. */
  function RecordedAbout(calls: seq<Call>, key: string): nat {
    if calls == [] then 0
    else
      var c := calls[|calls| - 1];
      RecordedAbout(calls[..|calls| - 1], key) +
      (if c.Record? && c.workspace == key then c.count else 0) +
      (if c.Record? && "unclaimed:" + c.project == key then c.count else 0)
  }

  /** What is known about `key` after some calls: the last answer that landed and what was recorded since. */
  ghost predicate Known(calls: seq<Call>, key: string, refresh: int, readings: Readings) {
    var i := LastLanded(calls, key, refresh);
    if i < 0 then key !in readings
    else key in readings && readings[key] == Reading(calls[i].answer.value + RecordedAbout(calls[i + 1..], key), calls[i].at)
  }

  lemma KeepsRecords(calls: seq<Call>, i: nat, key: string)
    requires i < |calls| - 1
    ensures RecordedAbout(calls[i + 1..], key) == RecordedAbout(calls[..|calls| - 1][i + 1..], key) +
      (if calls[|calls| - 1].Record? && calls[|calls| - 1].workspace == key then calls[|calls| - 1].count else 0) +
      (if calls[|calls| - 1].Record? && "unclaimed:" + calls[|calls| - 1].project == key then calls[|calls| - 1].count else 0)
  {
    assert calls[i + 1..][..|calls[i + 1..]| - 1] == calls[..|calls| - 1][i + 1..];
  }

  /** Another call that is no answer about `key` adds what it recorded. */
  lemma StillLanded(calls: seq<Call>, key: string, refresh: int, readings: Readings, after: Readings)
    requires calls != [] && Known(calls[..|calls| - 1], key, refresh, readings)
    requires LastLanded(calls, key, refresh) == LastLanded(calls[..|calls| - 1], key, refresh)
    requires var c := calls[|calls| - 1];
      if key in readings then
        key in after && after[key].readAt == readings[key].readAt && after[key].used == readings[key].used +
          (if c.Record? && c.workspace == key then c.count else 0) + (if c.Record? && "unclaimed:" + c.project == key then c.count else 0)
      else key !in after
    ensures Known(calls, key, refresh, after)
  {
    var i := LastLanded(calls, key, refresh);
    if i >= 0 {
      assert calls[..|calls| - 1][i] == calls[i];
      KeepsRecords(calls, i, key);
    }
  }

  lemma RecordKnows(calls: seq<Call>, key: string, refresh: int, readings: Readings)
    requires calls != [] && calls[|calls| - 1].Record? && Known(calls[..|calls| - 1], key, refresh, readings)
    ensures var c := calls[|calls| - 1];
      Known(calls, key, refresh, Recorded(Recorded(readings, c.workspace, c.count), UnclaimedKey(c.project), c.count))
  {
    var c := calls[|calls| - 1];
    var after := Recorded(Recorded(readings, c.workspace, c.count), UnclaimedKey(c.project), c.count);
    assert UnclaimedKey(c.project) == "unclaimed:" + c.project;
    StillLanded(calls, key, refresh, readings, after);
  }

  lemma Landed(calls: seq<Call>, key: string, refresh: int, after: Readings)
    requires calls != [] && LastLanded(calls, key, refresh) == |calls| - 1
    requires key in after && after[key] == Reading(calls[|calls| - 1].answer.value, calls[|calls| - 1].at)
    ensures Known(calls, key, refresh, after)
  {
    assert calls[|calls|..] == [];
  }

  lemma CheckKnows(calls: seq<Call>, key: string, refresh: int, allowance: nat, readings: Readings)
    requires calls != [] && calls[|calls| - 1].Check? && Known(calls[..|calls| - 1], key, refresh, readings)
    ensures Known(calls, key, refresh, Checked(readings, calls[|calls| - 1], refresh, allowance).0)
  {
    var before, c := calls[..|calls| - 1], calls[|calls| - 1];
    var after := Checked(readings, c, refresh, allowance).0;
    var i := LastLanded(before, key, refresh);
    if Needs(c) == Some(key) && c.answer.Some? && (i < 0 || c.at - before[i].at >= refresh) {
      Landed(calls, key, refresh, after);
    } else {
      StillLanded(calls, key, refresh, readings, after);
    }
  }

  lemma {:induction false} RunKnows(calls: seq<Call>, key: string, refresh: int, allowance: nat)
    ensures Known(calls, key, refresh, Run(calls, refresh, allowance))
  {
    if calls != [] {
      var before := calls[..|calls| - 1];
      RunKnows(before, key, refresh, allowance);
      if calls[|calls| - 1].Check? {
        CheckKnows(calls, key, refresh, allowance, Run(before, refresh, allowance));
      } else {
        RecordKnows(calls, key, refresh, Run(before, refresh, allowance));
      }
    }
  }

  // ---- what a check goes by ---------------------------------------------------------------------------

  /**
   * The usage a check after these calls goes by: the last answer that landed, if it did less than
   * `refresh` ago, with what was recorded since; otherwise its own answer, if it gets one.
   */
  function GoesBy(calls: seq<Call>, c: Call, refresh: int): Option<nat>
    requires c.Check? && Needs(c).Some?
  {
    var i := LastLanded(calls, Needs(c).value, refresh);
    if i >= 0 && c.at - calls[i].at < refresh then Some(calls[i].answer.value + RecordedAbout(calls[i + 1..], Needs(c).value))
    else c.answer
  }

  /** The verdict on an unclaimed project that has used so much, or nobody knows how much. */
  ghost predicate UnclaimedSays(used: Option<nat>, count: nat, allowance: nat, verdict: Verdict) {
    match used
    case None => verdict == Allowed(None)
    case Some(n) =>
      if n + count > allowance then verdict == PlanExceeded(allowance, n + count)
      else verdict == Allowed(Some(allowance - n - count))
  }

  /** The verdict on a workspace: refused from 1.3 times its limit on, and at a limit of zero. */
  ghost predicate ClaimedSays(used: Option<nat>, count: nat, limit: nat, verdict: Verdict) {
    match used
    case None => verdict == Allowed(None)
    case Some(n) =>
      if n + count >= limit && 10 * (n + count) >= 13 * limit then verdict == PlanExceeded(limit, n + count)
      else verdict == Allowed(Some(if n + count <= limit then limit - n - count else 0))
  }

  lemma ClaimedVerdictSays(used: Option<nat>, count: nat, limit: nat)
    ensures ClaimedSays(used, count, limit, ClaimedVerdict(limit, used, count))
  {
    if used.Some? { RefusedAtTheBand(limit, used.value, count); }
  }

  lemma GoesByUsed(calls: seq<Call>, c: Call, refresh: int, allowance: nat, key: string)
    requires c.Check? && Needs(c) == Some(key)
    ensures Used(Run(calls, refresh, allowance), key, c.at, refresh, c.answer) == GoesBy(calls, c, refresh)
  {
    RunKnows(calls, key, refresh, allowance);
  }

  /** Every check, after any calls, answers by what it goes by, for every kind of project and plan. */
  lemma CheckGoesBy(calls: seq<Call>, c: Call, refresh: int, allowance: nat)
    requires c.Check?
    ensures var verdict := Checked(Run(calls, refresh, allowance), c, refresh, allowance).1;
      match c.owner
      case NoProject => verdict == RateLimited(3_600_000)
      case Unclaimed => UnclaimedSays(GoesBy(calls, c, refresh), c.count, allowance, verdict)
      case Claimed(_) =>
        if Needs(c).None? then verdict == Allowed(None)
        else ClaimedSays(GoesBy(calls, c, refresh), c.count, c.plan.eventsPerMonth.value, verdict)
  {
    if Needs(c).Some? {
      GoesByUsed(calls, c, refresh, allowance, Needs(c).value);
      if c.owner.Claimed? { ClaimedVerdictSays(GoesBy(calls, c, refresh), c.count, c.plan.eventsPerMonth.value); }
    }
  }

  /** While the last answer that landed is fresh, what the engine would say changes neither the verdict nor the cache. */
  lemma AFreshAnswerIsNotAskedAgain(calls: seq<Call>, c: Call, answer: Option<nat>, refresh: int, allowance: nat)
    requires c.Check? && Needs(c).Some?
    requires var i := LastLanded(calls, Needs(c).value, refresh); i >= 0 && c.at - calls[i].at < refresh
    ensures var readings := Run(calls, refresh, allowance);
      Checked(readings, c.(answer := answer), refresh, allowance) == (readings, Checked(readings, c, refresh, allowance).1)
  {
    RunKnows(calls, Needs(c).value, refresh, allowance);
  }

  /** A check about one key leaves what is known about every other as it was. */
  lemma OtherKeysStay(calls: seq<Call>, c: Call, key: string, refresh: int, allowance: nat)
    requires c.Check? && Needs(c) != Some(key)
    ensures var readings := Run(calls, refresh, allowance); var after := Checked(readings, c, refresh, allowance).0;
      (key in after <==> key in readings) && (key in after ==> after[key] == readings[key])
  {
  }
}
