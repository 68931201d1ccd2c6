/**
 * The quota over whole runs: checks, and commits each followed by its record, for any number of
 * unclaimed projects on one replica.
 */
module QuotaRuns {
  import opened Common
  import opened IngestQuota

  datatype Stored = Stored(project: string, occurredAt: int, receivedAt: int)

  /**
   * `owed` are events of admitted requests whose commit is still to come. `clock` is the time a
   * project was last heard of; other projects may be ahead or behind.
   */
  datatype World = World(readings: Readings, stored: seq<Stored>, owed: map<string, nat>, peak: map<string, nat>,
      unmetered: map<string, nat>, clock: map<string, int>)

  function At(m: map<string, nat>, key: string): nat { if key in m then m[key] else 0 }

  /**
   * The clock check of admission (packages/ingestion/domain/src/admission.ts): at most thirty days
   * old and at most five minutes ahead, in milliseconds.
   */
  predicate Admitted(e: Stored) { -2_592_000_000 <= e.occurredAt - e.receivedAt <= 300_000 }

  function CountWithin(stored: seq<Stored>, project: string, from: int, to: int): nat {
    if stored == [] then 0
    else
      var last := stored[|stored| - 1];
      CountWithin(stored[..|stored| - 1], project, from, to) + if last.project == project && from <= last.occurredAt < to then 1 else 0
  }

  function Count(stored: seq<Stored>, project: string): nat {
    if stored == [] then 0
    else Count(stored[..|stored| - 1], project) + if stored[|stored| - 1].project == project then 1 else 0
  }

  /** What the engine counts for an unclaimed project, over the bounds the quota asks for. */
  function Asked(stored: seq<Stored>, project: string, createdAt: int, at: int): nat {
    CountWithin(stored, project, createdAt - MAX_AGE, at + MAX_FUTURE_SKEW + 1)
  }

  predicate InTime(stored: seq<Stored>, project: string, createdAt: int, at: int) {
    forall i :: 0 <= i < |stored| && stored[i].project == project ==> Admitted(stored[i]) && createdAt <= stored[i].receivedAt <= at
  }

  /** The bounds of the query miss no event that was ever admitted. */
  lemma {:induction false} BoundsCoverWhatIsAdmitted(stored: seq<Stored>, project: string, createdAt: int, at: int)
    requires InTime(stored, project, createdAt, at)
    ensures Asked(stored, project, createdAt, at) == Count(stored, project)
    ensures Asked(stored, project, createdAt, at) == CountWithin(stored, project, createdAt - 2_592_000_000, at + 300_001)
  {
    if stored != [] {
      assert stored[|stored| - 1].project == project ==> Admitted(stored[|stored| - 1]);
      BoundsCoverWhatIsAdmitted(stored[..|stored| - 1], project, createdAt, at);
    }
  }

  /** A configuration, and when each project was created. */
  datatype Config = Config(refresh: int, allowance: nat, createdAt: map<string, int>)

  datatype Action =
    /** A request of an unclaimed project asks; `answered` when the engine, if asked, answers. */
    | Check(project: string, count: nat, at: int, answered: bool)
    /** `size` owed events reach the store, `events` of them new; then the record. */
    | Commit(project: string, workspace: string, size: nat, events: seq<Stored>, at: int)
    | FailedCommit(project: string, size: nat)

  function Clock(cfg: Config, w: World, project: string): int
    requires project in cfg.createdAt
  {
    Max(cfg.createdAt[project], if project in w.clock then w.clock[project] else cfg.createdAt[project])
  }

  predicate Enabled(cfg: Config, w: World, a: Action) {
    match a
    case Check(project, _, at, _) => project in cfg.createdAt && at >= Clock(cfg, w, project)
    case Commit(project, workspace, size, events, at) =>
      && project in cfg.createdAt && at >= Clock(cfg, w, project) && |events| <= size <= At(w.owed, project)
      && !(UnclaimedKey("") <= workspace)
      && (forall i :: 0 <= i < |events| ==>
            events[i].project == project && Admitted(events[i]) && cfg.createdAt[project] <= events[i].receivedAt <= at)
    case FailedCommit(project, size) => size <= At(w.owed, project)
  }

  function Answer(cfg: Config, w: World, a: Action): Option<nat>
    requires a.Check? && a.project in cfg.createdAt
  {
    if a.answered then Some(Asked(w.stored, a.project, cfg.createdAt[a.project], a.at)) else None
  }

  function Prior(cfg: Config, w: World, a: Action): Option<nat>
    requires a.Check? && a.project in cfg.createdAt
  {
    Used(w.readings, UnclaimedKey(a.project), a.at, cfg.refresh, Answer(cfg, w, a))
  }

  function Next(cfg: Config, w: World, a: Action): World
    requires Enabled(cfg, w, a)
  {
    match a
    case Check(project, count, at, _) =>
      var prior := Prior(cfg, w, a);
      var checked := w.(readings := Refreshed(w.readings, UnclaimedKey(project), at, cfg.refresh, Answer(cfg, w, a)),
                         clock := w.clock[project := at]);
      if UnclaimedVerdict(prior, count, cfg.allowance).PlanExceeded? then checked
      else
        checked.(owed := w.owed[project := At(w.owed, project) + count],
                 peak := if prior.Some? then w.peak[project := Max(At(w.peak, project), At(w.owed, project))] else w.peak,
                 unmetered := if prior.None? then w.unmetered[project := At(w.unmetered, project) + count] else w.unmetered)
    case Commit(project, workspace, size, events, at) =>
      w.(stored := w.stored + events, owed := w.owed[project := At(w.owed, project) - size], clock := w.clock[project := at],
         readings := Recorded(Recorded(w.readings, workspace, |events|), UnclaimedKey(project), |events|))
    case FailedCommit(project, size) => w.(owed := w.owed[project := At(w.owed, project) - size])
  }

  const EMPTY := World(map[], [], map[], map[], map[], map[])

  predicate Legal(cfg: Config, actions: seq<Action>)
    decreases |actions|, 0
  {
    actions == [] ||
    (Legal(cfg, actions[..|actions| - 1]) && Enabled(cfg, Run(cfg, actions[..|actions| - 1]), actions[|actions| - 1]))
  }

  function Run(cfg: Config, actions: seq<Action>): World
    requires Legal(cfg, actions)
    decreases |actions|, 1
  {
    if actions == [] then EMPTY else Next(cfg, Run(cfg, actions[..|actions| - 1]), actions[|actions| - 1])
  }

  // ---- the cache is the store --------------------------------------------------------------------------------

  ghost predicate Agrees(cfg: Config, w: World) {
    && (forall p: string :: UnclaimedKey(p) in w.readings ==> w.readings[UnclaimedKey(p)].used == Count(w.stored, p))
    && (forall p: string :: p in cfg.createdAt ==> InTime(w.stored, p, cfg.createdAt[p], Clock(cfg, w, p)))
  }

  lemma {:induction false} CountAppend(stored: seq<Stored>, more: seq<Stored>, project: string)
    ensures Count(stored + more, project) == Count(stored, project) + Count(more, project)
  {
    if more == [] {
      assert stored + more == stored;
    } else {
      CountAppend(stored, more[..|more| - 1], project);
      assert (stored + more)[..|stored + more| - 1] == stored + more[..|more| - 1];
    }
  }

  lemma {:induction false} CountOfOne(events: seq<Stored>, project: string, other: string)
    requires forall i :: 0 <= i < |events| ==> events[i].project == project
    ensures Count(events, other) == if other == project then |events| else 0
  {
    if events != [] { CountOfOne(events[..|events| - 1], project, other); }
  }

  lemma KeysDiffer(p: string, q: string)
    ensures UnclaimedKey(p) == UnclaimedKey(q) <==> p == q
  {
    assert UnclaimedKey(p)[10..] == p && UnclaimedKey(q)[10..] == q;
  }

  /** What the engine answers, and what a check goes by, is what is stored. */
  lemma PriorIsTheCount(cfg: Config, w: World, a: Action)
    requires Agrees(cfg, w) && a.Check? && Enabled(cfg, w, a)
    ensures Answer(cfg, w, a).Some? ==> Answer(cfg, w, a).value == Count(w.stored, a.project)
    ensures Prior(cfg, w, a).Some? ==> Prior(cfg, w, a).value == Count(w.stored, a.project)
    ensures a.answered ==> Prior(cfg, w, a).Some?
  {
    var p := a.project;
    assert InTime(w.stored, p, cfg.createdAt[p], Clock(cfg, w, p));
    BoundsCoverWhatIsAdmitted(w.stored, p, cfg.createdAt[p], a.at);
  }

  lemma RefreshedAgrees(readings: Readings, stored: seq<Stored>, project: string, at: int, refresh: int, answer: Option<nat>)
    requires forall p: string :: UnclaimedKey(p) in readings ==> readings[UnclaimedKey(p)].used == Count(stored, p)
    requires answer.Some? ==> answer.value == Count(stored, project)
    ensures var after := Refreshed(readings, UnclaimedKey(project), at, refresh, answer);
      forall p: string :: UnclaimedKey(p) in after ==> after[UnclaimedKey(p)].used == Count(stored, p)
  {
    var after := Refreshed(readings, UnclaimedKey(project), at, refresh, answer);
    forall p: string | UnclaimedKey(p) in after ensures after[UnclaimedKey(p)].used == Count(stored, p) {
      KeysDiffer(p, project);
    }
  }

  lemma CheckAgrees(cfg: Config, w: World, a: Action)
    requires Agrees(cfg, w) && a.Check? && Enabled(cfg, w, a)
    ensures Agrees(cfg, Next(cfg, w, a))
  {
    var after := Next(cfg, w, a);
    PriorIsTheCount(cfg, w, a);
    RefreshedAgrees(w.readings, w.stored, a.project, a.at, cfg.refresh, Answer(cfg, w, a));
    assert after.stored == w.stored;
    forall p: string | p in cfg.createdAt ensures InTime(w.stored, p, cfg.createdAt[p], Clock(cfg, after, p)) {
      assert InTime(w.stored, p, cfg.createdAt[p], Clock(cfg, w, p));
    }
  }

  lemma CommitAgrees(cfg: Config, w: World, a: Action)
    requires Agrees(cfg, w) && a.Commit? && Enabled(cfg, w, a)
    ensures Agrees(cfg, Next(cfg, w, a))
  {
    var after := Next(cfg, w, a);
    forall p: string | UnclaimedKey(p) in after.readings ensures after.readings[UnclaimedKey(p)].used == Count(after.stored, p) {
      KeysDiffer(p, a.project);
      assert UnclaimedKey("") <= UnclaimedKey(p);
      CountAppend(w.stored, a.events, p);
      CountOfOne(a.events, a.project, p);
    }
    forall p: string | p in cfg.createdAt ensures InTime(after.stored, p, cfg.createdAt[p], Clock(cfg, after, p)) {
      assert InTime(w.stored, p, cfg.createdAt[p], Clock(cfg, w, p));
    }
  }

  lemma {:induction false} RunAgrees(cfg: Config, actions: seq<Action>)
    requires Legal(cfg, actions)
    ensures Agrees(cfg, Run(cfg, actions))
  {
    if actions != [] {
      var before, a := Run(cfg, actions[..|actions| - 1]), actions[|actions| - 1];
      RunAgrees(cfg, actions[..|actions| - 1]);
      match a
      case Check(_, _, _, _) => CheckAgrees(cfg, before, a);
      case Commit(_, _, _, _, _) => CommitAgrees(cfg, before, a);
      case FailedCommit(_, _) =>
    }
  }

  /** Whenever there is a cached count of an unclaimed project, it is the number of its events in the store. */
  lemma TheCacheIsTheStore(cfg: Config, actions: seq<Action>, project: string)
    requires Legal(cfg, actions)
    requires UnclaimedKey(project) in Run(cfg, actions).readings
    ensures Run(cfg, actions).readings[UnclaimedKey(project)].used == Count(Run(cfg, actions).stored, project)
  {
    RunAgrees(cfg, actions);
  }

  // ---- the allowance -----------------------------------------------------------------------------------------

  ghost predicate Bounded(cfg: Config, w: World) {
    forall p: string :: Count(w.stored, p) + At(w.owed, p) <= cfg.allowance + At(w.peak, p) + At(w.unmetered, p)
  }

  lemma CheckBounded(cfg: Config, w: World, a: Action, p: string)
    requires Agrees(cfg, w) && Bounded(cfg, w) && a.Check? && Enabled(cfg, w, a)
    ensures var after := Next(cfg, w, a);
      Count(after.stored, p) + At(after.owed, p) <= cfg.allowance + At(after.peak, p) + At(after.unmetered, p)
  {
    PriorIsTheCount(cfg, w, a);
    assert Next(cfg, w, a).stored == w.stored;
    assert Count(w.stored, p) + At(w.owed, p) <= cfg.allowance + At(w.peak, p) + At(w.unmetered, p);
  }

  lemma CommitBounded(cfg: Config, w: World, a: Action, p: string)
    requires Bounded(cfg, w) && a.Commit? && Enabled(cfg, w, a)
    ensures var after := Next(cfg, w, a);
      Count(after.stored, p) + At(after.owed, p) <= cfg.allowance + At(after.peak, p) + At(after.unmetered, p)
  {
    assert Count(w.stored, p) + At(w.owed, p) <= cfg.allowance + At(w.peak, p) + At(w.unmetered, p);
    CountAppend(w.stored, a.events, p);
    CountOfOne(a.events, a.project, p);
  }

  lemma StepBounded(cfg: Config, w: World, a: Action)
    requires Agrees(cfg, w) && Bounded(cfg, w) && Enabled(cfg, w, a)
    ensures Bounded(cfg, Next(cfg, w, a))
  {
    var after := Next(cfg, w, a);
    forall p: string ensures Count(after.stored, p) + At(after.owed, p) <= cfg.allowance + At(after.peak, p) + At(after.unmetered, p) {
      match a
      case Check(_, _, _, _) => CheckBounded(cfg, w, a, p);
      case Commit(_, _, _, _, _) => CommitBounded(cfg, w, a, p);
      case FailedCommit(_, _) =>
        assert Count(w.stored, p) + At(w.owed, p) <= cfg.allowance + At(w.peak, p) + At(w.unmetered, p);
    }
  }

  lemma {:induction false} RunBounded(cfg: Config, actions: seq<Action>)
    requires Legal(cfg, actions)
    ensures Bounded(cfg, Run(cfg, actions))
  {
    if actions != [] {
      RunBounded(cfg, actions[..|actions| - 1]);
      RunAgrees(cfg, actions[..|actions| - 1]);
      StepBounded(cfg, Run(cfg, actions[..|actions| - 1]), actions[|actions| - 1]);
    }
  }

  /**
   * An unclaimed project stores, and is owed, at most its allowance, plus the most that was owed
   * while one more of its checks passed, plus what came in while the engine could not be read.
   */
  lemma TheExcessIsWhatWasOutstanding(cfg: Config, actions: seq<Action>, project: string)
    requires Legal(cfg, actions)
    ensures var w := Run(cfg, actions);
      Count(w.stored, project) + At(w.owed, project) <= cfg.allowance + At(w.peak, project) + At(w.unmetered, project)
  {
    RunBounded(cfg, actions);
  }

  /** Every check of the project was answered and found nothing of it outstanding. */
  predicate OneAtATime(cfg: Config, actions: seq<Action>, project: string)
    requires Legal(cfg, actions)
  {
    actions == [] ||
    (OneAtATime(cfg, actions[..|actions| - 1], project) &&
     var a := actions[|actions| - 1];
     a.Check? && a.project == project ==> a.answered && At(Run(cfg, actions[..|actions| - 1]).owed, project) == 0)
  }

  lemma {:induction false} NothingOutstanding(cfg: Config, actions: seq<Action>, project: string)
    requires Legal(cfg, actions) && OneAtATime(cfg, actions, project)
    ensures At(Run(cfg, actions).peak, project) == 0 && At(Run(cfg, actions).unmetered, project) == 0
  {
    if actions != [] { NothingOutstanding(cfg, actions[..|actions| - 1], project); }
  }

  /** One request at a time, the allowance is never passed. */
  lemma TheAllowanceHolds(cfg: Config, actions: seq<Action>, project: string)
    requires Legal(cfg, actions) && OneAtATime(cfg, actions, project)
    ensures Count(Run(cfg, actions).stored, project) <= cfg.allowance
  {
    NothingOutstanding(cfg, actions, project);
    RunBounded(cfg, actions);
  }

  // ---- when the allowance is passed --------------------------------------------------------------------------

  lemma Extend(cfg: Config, actions: seq<Action>, a: Action)
    requires Legal(cfg, actions) && Enabled(cfg, Run(cfg, actions), a)
    ensures Legal(cfg, actions + [a]) && Run(cfg, actions + [a]) == Next(cfg, Run(cfg, actions), a)
  {
    assert (actions + [a])[..|actions|] == actions;
  }

  /** Only projects that exist are owed anything. */
  lemma {:induction false} OwedExists(cfg: Config, actions: seq<Action>, project: string)
    requires Legal(cfg, actions) && project !in cfg.createdAt
    ensures At(Run(cfg, actions).owed, project) == 0 && Count(Run(cfg, actions).stored, project) == 0
  {
    if actions != [] {
      var a := actions[|actions| - 1];
      OwedExists(cfg, actions[..|actions| - 1], project);
      if a.Commit? {
        CountAppend(Run(cfg, actions[..|actions| - 1]).stored, a.events, project);
        CountOfOne(a.events, a.project, project);
      }
    }
  }

  function Copies(e: Stored, n: nat): (s: seq<Stored>)
    ensures |s| == n && forall i :: 0 <= i < n ==> s[i] == e
  {
    if n == 0 then [] else Copies(e, n - 1) + [e]
  }

  /** Everything a project is owed reaches the store, and all of it is new. */
  function CommitAll(cfg: Config, w: World, project: string): Action
    requires project in cfg.createdAt
  {
    var at := Clock(cfg, w, project);
    Commit(project, "", At(w.owed, project), Copies(Stored(project, at, at), At(w.owed, project)), at)
  }

  lemma AllCommitted(cfg: Config, actions: seq<Action>, project: string)
    requires Legal(cfg, actions) && project in cfg.createdAt
    ensures var w := Run(cfg, actions);
      && Legal(cfg, actions + [CommitAll(cfg, w, project)])
      && var w' := Run(cfg, actions + [CommitAll(cfg, w, project)]);
      Count(w'.stored, project) == Count(w.stored, project) + At(w.owed, project) && At(w'.owed, project) == 0
  {
    var w := Run(cfg, actions);
    var commit := CommitAll(cfg, w, project);
    Extend(cfg, actions, commit);
    CountAppend(w.stored, commit.events, project);
    CountOfOne(commit.events, project, project);
  }

  /** What follows a run without another check of the project. */
  predicate Unasked(actions: seq<Action>, project: string) {
    forall i :: 0 <= i < |actions| && actions[i].Check? ==> actions[i].project != project
  }

  lemma StepFalls(cfg: Config, w: World, a: Action, project: string)
    requires Enabled(cfg, w, a) && (a.Check? ==> a.project != project)
    ensures var w' := Next(cfg, w, a);
      Count(w'.stored, project) + At(w'.owed, project) <= Count(w.stored, project) + At(w.owed, project)
  {
    if a.Commit? {
      CountAppend(w.stored, a.events, project);
      CountOfOne(a.events, a.project, project);
    }
  }

  lemma {:induction false} TheSumOnlyFalls(cfg: Config, actions: seq<Action>, more: seq<Action>, project: string)
    requires Legal(cfg, actions) && Legal(cfg, actions + more) && Unasked(more, project)
    ensures var w, w' := Run(cfg, actions), Run(cfg, actions + more);
      Count(w'.stored, project) + At(w'.owed, project) <= Count(w.stored, project) + At(w.owed, project)
  {
    if more == [] {
      assert actions + more == actions;
    } else {
      var before, a := more[..|more| - 1], more[|more| - 1];
      assert (actions + more)[..|actions + more| - 1] == actions + before;
      assert Unasked(before, project) by {
        forall i | 0 <= i < |before| && before[i].Check? ensures before[i].project != project { assert before[i] == more[i]; }
      }
      TheSumOnlyFalls(cfg, actions, before, project);
      StepFalls(cfg, Run(cfg, actions + before), a, project);
    }
  }

  /** The store stays within the allowance however what is outstanding turns out. */
  ghost predicate Safe(cfg: Config, actions: seq<Action>, project: string)
    requires Legal(cfg, actions)
  {
    forall more :: Legal(cfg, actions + more) && Unasked(more, project) ==>
      Count(Run(cfg, actions + more).stored, project) <= cfg.allowance
  }

  /**
   * After any run, the store stays within the allowance in every continuation without another
   * check exactly when what is stored and what is outstanding together fit it.
   */
  lemma SafeIff(cfg: Config, actions: seq<Action>, project: string)
    requires Legal(cfg, actions)
    ensures var w := Run(cfg, actions);
      Safe(cfg, actions, project) <==> Count(w.stored, project) + At(w.owed, project) <= cfg.allowance
  {
    var w := Run(cfg, actions);
    if Count(w.stored, project) + At(w.owed, project) <= cfg.allowance {
      forall more | Legal(cfg, actions + more) && Unasked(more, project)
        ensures Count(Run(cfg, actions + more).stored, project) <= cfg.allowance
      {
        TheSumOnlyFalls(cfg, actions, more, project);
      }
    } else if project in cfg.createdAt {
      AllCommitted(cfg, actions, project);
      assert Unasked([CommitAll(cfg, w, project)], project);
    } else {
      OwedExists(cfg, actions, project);
    }
  }

  /**
   * A check is answered from what is stored; admitting its request is safe exactly when what is
   * outstanding fits as well.
   */
  lemma AdmittingIsSafeIff(cfg: Config, actions: seq<Action>, a: Action)
    requires Legal(cfg, actions) && a.Check? && Enabled(cfg, Run(cfg, actions), a)
    requires UnclaimedVerdict(Prior(cfg, Run(cfg, actions), a), a.count, cfg.allowance).Allowed?
    ensures Legal(cfg, actions + [a])
    ensures var w := Run(cfg, actions);
      Safe(cfg, actions + [a], a.project) <==>
        Count(w.stored, a.project) + At(w.owed, a.project) + a.count <= cfg.allowance
  {
    Extend(cfg, actions, a);
    SafeIff(cfg, actions + [a], a.project);
  }

  /** Every check is answered, and for no more events than admission lets into one request. */
  predicate Modest(actions: seq<Action>, cap: nat) {
    forall i :: 0 <= i < |actions| && actions[i].Check? ==> actions[i].answered && actions[i].count <= cap
  }

  function AskForOne(cfg: Config, w: World, project: string): Action
    requires project in cfg.createdAt
  {
    Check(project, 1, Clock(cfg, w, project), true)
  }

  /** A request for one event is admitted while the store has room for it, whatever is outstanding. */
  lemma OneMoreIsAdmitted(cfg: Config, actions: seq<Action>, project: string)
    requires Legal(cfg, actions) && project in cfg.createdAt && Count(Run(cfg, actions).stored, project) < cfg.allowance
    ensures var w := Run(cfg, actions);
      && Legal(cfg, actions + [AskForOne(cfg, w, project)])
      && var w' := Run(cfg, actions + [AskForOne(cfg, w, project)]);
      w'.stored == w.stored && At(w'.owed, project) == At(w.owed, project) + 1
  {
    var w := Run(cfg, actions);
    var ask := AskForOne(cfg, w, project);
    RunAgrees(cfg, actions);
    PriorIsTheCount(cfg, w, ask);
    Extend(cfg, actions, ask);
  }

  lemma AskStep(cfg: Config, actions: seq<Action>, project: string) returns (longer: seq<Action>)
    requires Legal(cfg, actions) && Modest(actions, 1) && project in cfg.createdAt
    requires Count(Run(cfg, actions).stored, project) < cfg.allowance
    ensures Legal(cfg, longer) && Modest(longer, 1)
    ensures Count(Run(cfg, longer).stored, project) == Count(Run(cfg, actions).stored, project)
    ensures At(Run(cfg, longer).owed, project) == At(Run(cfg, actions).owed, project) + 1
  {
    OneMoreIsAdmitted(cfg, actions, project);
    longer := actions + [AskForOne(cfg, Run(cfg, actions), project)];
  }

  lemma CommitStep(cfg: Config, actions: seq<Action>, project: string) returns (longer: seq<Action>)
    requires Legal(cfg, actions) && Modest(actions, 1) && project in cfg.createdAt
    ensures Legal(cfg, longer) && Modest(longer, 1) && At(Run(cfg, longer).owed, project) == 0
    ensures Count(Run(cfg, longer).stored, project) ==
      Count(Run(cfg, actions).stored, project) + At(Run(cfg, actions).owed, project)
  {
    AllCommitted(cfg, actions, project);
    longer := actions + [CommitAll(cfg, Run(cfg, actions), project)];
  }

  /** A run that stores `n` events, one request after another. */
  lemma {:induction false} Filled(cfg: Config, project: string, n: nat) returns (actions: seq<Action>)
    requires project in cfg.createdAt && n <= cfg.allowance
    ensures Legal(cfg, actions) && Modest(actions, 1)
    ensures Count(Run(cfg, actions).stored, project) == n && At(Run(cfg, actions).owed, project) == 0
  {
    if n == 0 {
      actions := [];
    } else {
      actions := Filled(cfg, project, n - 1);
      actions := AskStep(cfg, actions, project);
      actions := CommitStep(cfg, actions, project);
    }
  }

  /** A run of one-event requests that stores one event more than the allowance. */
  lemma OneTooMany(cfg: Config, project: string) returns (actions: seq<Action>)
    requires project in cfg.createdAt && cfg.allowance > 0
    ensures Legal(cfg, actions) && Modest(actions, 1)
    ensures Count(Run(cfg, actions).stored, project) == cfg.allowance + 1
  {
    actions := Filled(cfg, project, cfg.allowance - 1);
    actions := AskStep(cfg, actions, project);
    actions := AskStep(cfg, actions, project);
    actions := CommitStep(cfg, actions, project);
  }

  /** With no allowance, or empty requests, nothing is ever owed or stored. */
  lemma {:induction false} NothingIsAdmitted(cfg: Config, actions: seq<Action>, cap: nat, project: string)
    requires Legal(cfg, actions) && Modest(actions, cap) && (cfg.allowance == 0 || cap == 0)
    ensures At(Run(cfg, actions).owed, project) == 0 && Count(Run(cfg, actions).stored, project) == 0
  {
    if actions != [] {
      var before, a := actions[..|actions| - 1], actions[|actions| - 1];
      assert Modest(before, cap) by {
        forall i | 0 <= i < |before| && before[i].Check? ensures before[i].answered && before[i].count <= cap {
          assert before[i] == actions[i];
        }
      }
      NothingIsAdmitted(cfg, before, cap, project);
      if a.Commit? {
        CountAppend(Run(cfg, before).stored, a.events, project);
        CountOfOne(a.events, a.project, project);
      }
    }
  }

  /**
   * With an engine that always answers, no run of requests of at most `cap` events stores more
   * than the allowance exactly when nothing can be admitted at all. In particular the cap of 250
   * that admission sets does not help.
   */
  lemma TheAllowanceAlwaysHoldsIff(cfg: Config, cap: nat, project: string)
    ensures (forall actions :: Legal(cfg, actions) && Modest(actions, cap) ==>
               Count(Run(cfg, actions).stored, project) <= cfg.allowance) <==>
      cfg.allowance == 0 || cap == 0 || project !in cfg.createdAt
  {
    if cfg.allowance == 0 || cap == 0 || project !in cfg.createdAt {
      forall actions | Legal(cfg, actions) && Modest(actions, cap)
        ensures Count(Run(cfg, actions).stored, project) <= cfg.allowance
      {
        if project in cfg.createdAt {
          NothingIsAdmitted(cfg, actions, cap, project);
        } else {
          OwedExists(cfg, actions, project);
        }
      }
    } else {
      var actions := OneTooMany(cfg, project);
      assert Modest(actions, cap);
    }
  }
}
