/** What the scheduler guarantees over every run. */
module SchedulerRuns {
  import opened Common
  import opened Scheduler

  /** What happened, in order. `Began` by a tick carries the tick's instant. */
  datatype Entry =
    | Began(name: string, at: Option<int>)
    | Ended(name: string, time: int)

  /** The scheduler, how many runs of each job are executing, the jobs that ever threw at once, the log. */
  datatype World = World(state: State, active: multiset<string>, threw: set<string>, log: seq<Entry>)

  const START := World(State({}, map[]), multiset{}, {}, [])

  datatype Action =
    | Tick(at: int, now: int, throwing: set<string>)
    | RunNow(name: string, throws: bool, now: int)
    | Finish(name: string, now: int)

  function Launch(w: World, name: string, throws: bool, now: int, at: Option<int>): World {
    var s := Launched(w.state, name, throws, now);
    if throws then World(s, w.active, w.threw + {name}, w.log + [Began(name, at), Ended(name, now)])
    else World(s, w.active + multiset{name}, w.threw, w.log + [Began(name, at)])
  }

  function TickJob(w: World, job: Job, at: int, now: int, throwing: set<string>): World {
    if Starts(w.state, job, at) then Launch(w, job.name, job.name in throwing, now, Some(at)) else w
  }

  function TickAll(w: World, jobs: seq<Job>, at: int, now: int, throwing: set<string>): World {
    if jobs == [] then w
    else TickJob(TickAll(w, jobs[..|jobs| - 1], at, now, throwing), jobs[|jobs| - 1], at, now, throwing)
  }

  /** A run that is executing may finish, well or badly, at any time; both end in the same `finally`. */
  function Next(w: World, jobs: seq<Job>, a: Action): World {
    match a
    case Tick(at, now, throwing) => TickAll(w, jobs, at, now, throwing)
    case RunNow(name, throws, now) =>
      if Known(jobs, name) && name !in w.state.inFlight then Launch(w, name, throws, now, None) else w
    case Finish(name, now) =>
      if w.active[name] > 0 then
        World(Finished(w.state, name, now), w.active - multiset{name}, w.threw, w.log + [Ended(name, now)])
      else w
  }

  function From(w: World, jobs: seq<Job>, actions: seq<Action>): World {
    if actions == [] then w else Next(From(w, jobs, actions[..|actions| - 1]), jobs, actions[|actions| - 1])
  }

  function Run(jobs: seq<Job>, actions: seq<Action>): World { From(START, jobs, actions) }

  /** The world's scheduler state is the one the code computes. */
  lemma {:induction false} TickAllIsTicked(w: World, jobs: seq<Job>, at: int, now: int, throwing: set<string>)
    ensures TickAll(w, jobs, at, now, throwing).state == Ticked(w.state, jobs, at, now, throwing)
  {
    if jobs != [] { TickAllIsTicked(w, jobs[..|jobs| - 1], at, now, throwing); }
  }

  // ---- no overlap ------------------------------------------------------------------------------------------

  /** The instant of the last finish of a job in a log. */
  function LastEnd(log: seq<Entry>, name: string): Option<int> {
    if log == [] then None
    else
      var last := log[|log| - 1];
      if last.Ended? && last.name == name then Some(last.time) else LastEnd(log[..|log| - 1], name)
  }

  /**
   * A job is registered exactly while it executes, except that one which ever threw at once
   * stays registered with nothing executing; and no job executes twice at a time.
   */
  ghost predicate Exclusive(w: World) {
    && (forall name :: w.active[name] <= 1)
    && (forall name :: name in w.state.inFlight <==> w.active[name] == 1 || name in w.threw)
    && (forall name :: name in w.threw ==> w.active[name] == 0)
  }

  ghost predicate Logged(w: World) {
    forall name :: LastEnd(w.log, name) ==
      if name in w.state.lastFinished then Some(w.state.lastFinished[name]) else None
  }

  lemma LastEndPush(log: seq<Entry>, e: Entry, name: string)
    ensures LastEnd(log + [e], name) == if e.Ended? && e.name == name then Some(e.time) else LastEnd(log, name)
  {
    assert (log + [e])[..|log|] == log;
  }

  lemma LaunchKeeps(w: World, name: string, throws: bool, now: int, at: Option<int>)
    requires Exclusive(w) && Logged(w) && name !in w.state.inFlight
    ensures Exclusive(Launch(w, name, throws, now, at)) && Logged(Launch(w, name, throws, now, at))
  {
    var began := w.log + [Began(name, at)];
    forall n ensures LastEnd(began, n) == LastEnd(w.log, n) { LastEndPush(w.log, Began(name, at), n); }
    if throws {
      assert w.log + [Began(name, at), Ended(name, now)] == began + [Ended(name, now)];
      forall n ensures LastEnd(began + [Ended(name, now)], n) == if n == name then Some(now) else LastEnd(w.log, n) {
        LastEndPush(began, Ended(name, now), n);
      }
    }
  }

  lemma {:induction false} TickKeeps(w: World, jobs: seq<Job>, at: int, now: int, throwing: set<string>)
    requires Exclusive(w) && Logged(w)
    ensures Exclusive(TickAll(w, jobs, at, now, throwing)) && Logged(TickAll(w, jobs, at, now, throwing))
  {
    if jobs != [] {
      var init, job := jobs[..|jobs| - 1], jobs[|jobs| - 1];
      TickKeeps(w, init, at, now, throwing);
      var before := TickAll(w, init, at, now, throwing);
      if Starts(before.state, job, at) { LaunchKeeps(before, job.name, job.name in throwing, now, Some(at)); }
    }
  }

  lemma StepKeeps(w: World, jobs: seq<Job>, a: Action)
    requires Exclusive(w) && Logged(w)
    ensures Exclusive(Next(w, jobs, a)) && Logged(Next(w, jobs, a))
  {
    match a
    case Tick(at, now, throwing) => TickKeeps(w, jobs, at, now, throwing);
    case RunNow(name, throws, now) =>
      if Known(jobs, name) && name !in w.state.inFlight { LaunchKeeps(w, name, throws, now, None); }
    case Finish(name, now) =>
      if w.active[name] > 0 {
        forall n ensures LastEnd(w.log + [Ended(name, now)], n) == if n == name then Some(now) else LastEnd(w.log, n) {
          LastEndPush(w.log, Ended(name, now), n);
        }
      }
  }

  lemma {:induction false} RunKeeps(jobs: seq<Job>, actions: seq<Action>)
    ensures Exclusive(Run(jobs, actions)) && Logged(Run(jobs, actions))
  {
    if actions != [] {
      RunKeeps(jobs, actions[..|actions| - 1]);
      StepKeeps(Run(jobs, actions[..|actions| - 1]), jobs, actions[|actions| - 1]);
    }
  }

  /** A job never overlaps itself, whatever throws, fails, or is run by hand. */
  lemma NeverOverlaps(jobs: seq<Job>, actions: seq<Action>, name: string)
    ensures Run(jobs, actions).active[name] <= 1
    ensures Run(jobs, actions).active[name] == 1 ==> name in Run(jobs, actions).state.inFlight
  {
    RunKeeps(jobs, actions);
  }

  // ---- a run started by a tick keeps its distance -----------------------------------------------------------

  /** A job of this name allows a start at this instant after a log. */
  ghost predicate Allowed(jobs: seq<Job>, log: seq<Entry>, name: string, at: int) {
    exists i :: 0 <= i < |jobs| && jobs[i].name == name && (LastEnd(log, name).Some? ==> at - LastEnd(log, name).value >= jobs[i].every)
  }

  /** Every tick start in the log comes `every` or more after the finish before it. */
  ghost predicate Distanced(jobs: seq<Job>, log: seq<Entry>) {
    forall k :: 0 <= k < |log| && log[k].Began? && log[k].at.Some? ==> Allowed(jobs, log[..k], log[k].name, log[k].at.value)
  }

  lemma DistancedPush(jobs: seq<Job>, log: seq<Entry>, e: Entry)
    requires Distanced(jobs, log)
    requires e.Began? && e.at.Some? ==> Allowed(jobs, log, e.name, e.at.value)
    ensures Distanced(jobs, log + [e])
  {
    var all := log + [e];
    forall k | 0 <= k < |all| && all[k].Began? && all[k].at.Some?
      ensures Allowed(jobs, all[..k], all[k].name, all[k].at.value)
    {
      if k < |log| {
        assert all[..k] == log[..k] && all[k] == log[k];
      } else {
        assert all[..k] == log;
      }
    }
  }

  lemma TickJobDistanced(w: World, jobs: seq<Job>, m: nat, at: int, now: int, throwing: set<string>)
    requires Logged(w) && Distanced(jobs, w.log) && m < |jobs|
    ensures Distanced(jobs, TickJob(w, jobs[m], at, now, throwing).log)
  {
    var job := jobs[m];
    if Starts(w.state, job, at) {
      var began := Began(job.name, Some(at));
      DistancedPush(jobs, w.log, began);
      if job.name in throwing {
        DistancedPush(jobs, w.log + [began], Ended(job.name, now));
        assert w.log + [began, Ended(job.name, now)] == w.log + [began] + [Ended(job.name, now)];
      }
    }
  }

  lemma {:induction false} TickDistanced(w: World, jobs: seq<Job>, m: nat, at: int, now: int, throwing: set<string>)
    requires Exclusive(w) && Logged(w) && Distanced(jobs, w.log) && m <= |jobs|
    ensures Distanced(jobs, TickAll(w, jobs[..m], at, now, throwing).log)
  {
    if m > 0 {
      assert jobs[..m][..m - 1] == jobs[..m - 1];
      TickDistanced(w, jobs, m - 1, at, now, throwing);
      TickKeeps(w, jobs[..m - 1], at, now, throwing);
      TickJobDistanced(TickAll(w, jobs[..m - 1], at, now, throwing), jobs, m - 1, at, now, throwing);
    }
  }

  /** A run started by a tick begins at least `every` after the previous run of that job finished. */
  lemma {:induction false} TickStartsKeepTheirDistance(jobs: seq<Job>, actions: seq<Action>)
    ensures Distanced(jobs, Run(jobs, actions).log)
  {
    if actions != [] {
      var before, a := actions[..|actions| - 1], actions[|actions| - 1];
      TickStartsKeepTheirDistance(jobs, before);
      RunKeeps(jobs, before);
      var w := Run(jobs, before);
      match a
      case Tick(at, now, throwing) =>
        TickDistanced(w, jobs, |jobs|, at, now, throwing);
        assert jobs[..|jobs|] == jobs;
      case RunNow(name, throws, now) =>
        DistancedPush(jobs, w.log, Began(name, None));
        DistancedPush(jobs, w.log + [Began(name, None)], Ended(name, now));
        assert w.log + [Began(name, None), Ended(name, now)] == w.log + [Began(name, None)] + [Ended(name, now)];
      case Finish(name, now) => DistancedPush(jobs, w.log, Ended(name, now));
    }
  }

  // ---- an idle job starts in time -----------------------------------------------------------------------------

  /** A tick only adds to what is in flight, and moves a job's finish only by starting that job. */
  lemma {:induction false} TickFrame(w: World, jobs: seq<Job>, at: int, now: int, throwing: set<string>, name: string)
    ensures var w' := TickAll(w, jobs, at, now, throwing);
      && w.state.inFlight <= w'.state.inFlight
      && (name !in w'.state.inFlight ==>
            ((name in w'.state.lastFinished <==> name in w.state.lastFinished) &&
             (name in w.state.lastFinished ==> w'.state.lastFinished[name] == w.state.lastFinished[name])))
  {
    if jobs != [] { TickFrame(w, jobs[..|jobs| - 1], at, now, throwing, name); }
  }

  /** A tick starts every job that is due and idle. */
  lemma {:induction false} TickStartsTheDue(w: World, jobs: seq<Job>, m: nat, at: int, now: int, throwing: set<string>)
    requires m < |jobs| && Due(w.state, jobs[m], at)
    ensures jobs[m].name in TickAll(w, jobs, at, now, throwing).state.inFlight
  {
    var init := jobs[..|jobs| - 1];
    TickFrame(w, init, at, now, throwing, jobs[m].name);
    if m < |jobs| - 1 { TickStartsTheDue(w, init, m, at, now, throwing); }
  }

  /** Each tick comes at most one cadence after the one before it. */
  predicate Spaced(previous: int, actions: seq<Action>, cadence: int)
    decreases actions
  {
    if actions == [] then true
    else if actions[0].Tick? then previous <= actions[0].at <= previous + cadence && Spaced(actions[0].at, actions[1..], cadence)
    else Spaced(previous, actions[1..], cadence)
  }

  lemma {:induction false} FromFront(w: World, jobs: seq<Job>, a: Action, rest: seq<Action>)
    ensures From(w, jobs, [a] + rest) == From(Next(w, jobs, a), jobs, rest)
  {
    var all := [a] + rest;
    if rest == [] {
      assert all[..0] == [];
    } else {
      assert all[..|all| - 1] == [a] + rest[..|rest| - 1];
      FromFront(w, jobs, a, rest[..|rest| - 1]);
    }
  }

  /** A step that leaves an idle job idle: its last finish stands, and a tick did not find it due. */
  lemma StaysIdle(w: World, jobs: seq<Job>, m: nat, a: Action)
    requires m < |jobs| && Exclusive(w) && Logged(w)
    requires jobs[m].name !in w.state.inFlight && jobs[m].name in w.state.lastFinished
    requires jobs[m].name !in Next(w, jobs, a).state.inFlight
    ensures var w' := Next(w, jobs, a);
      && Exclusive(w') && Logged(w') && jobs[m].name in w'.state.lastFinished
      && w'.state.lastFinished[jobs[m].name] == w.state.lastFinished[jobs[m].name]
    ensures a.Tick? ==> !Due(w.state, jobs[m], a.at)
  {
    if a.Tick? {
      TickFrame(w, jobs, a.at, a.now, a.throwing, jobs[m].name);
      if Due(w.state, jobs[m], a.at) { TickStartsTheDue(w, jobs, m, a.at, a.now, a.throwing); }
    }
    StepKeeps(w, jobs, a);
  }

  /**
   * With ticks no further apart than the cadence, an idle job is started, by hand or by a tick no
   * later than `every` plus the cadence after it finished, in any run that ticks when it is due.
   */
  lemma {:induction false} IdleJobStartsInTime(w: World, jobs: seq<Job>, m: nat, actions: seq<Action>, previous: int,
      cadence: int)
    returns (k: nat)
    requires m < |jobs| && Exclusive(w) && Logged(w)
    requires jobs[m].name !in w.state.inFlight && jobs[m].name in w.state.lastFinished
    requires previous < w.state.lastFinished[jobs[m].name] + jobs[m].every && Spaced(previous, actions, cadence)
    requires exists i :: 0 <= i < |actions| && actions[i].Tick? && Due(w.state, jobs[m], actions[i].at)
    ensures 0 < k <= |actions|
    ensures jobs[m].name !in From(w, jobs, actions[..k - 1]).state.inFlight
    ensures jobs[m].name in From(w, jobs, actions[..k]).state.inFlight
    ensures actions[k - 1].RunNow? ||
      (actions[k - 1].Tick? && actions[k - 1].at <= w.state.lastFinished[jobs[m].name] + jobs[m].every + cadence)
    decreases actions
  {
    var name, a, rest := jobs[m].name, actions[0], actions[1..];
    var w' := Next(w, jobs, a);
    assert actions == [a] + rest;
    if name in w'.state.inFlight {
      k := 1;
      assert actions[..1] == [a] + [] && actions[..0] == [];
      FromFront(w, jobs, a, []);
    } else {
      StaysIdle(w, jobs, m, a);
      var i :| 0 <= i < |actions| && actions[i].Tick? && Due(w.state, jobs[m], actions[i].at);
      assert i > 0 && rest[i - 1] == actions[i];
      var j := IdleJobStartsInTime(w', jobs, m, rest, if a.Tick? then a.at else previous, cadence);
      k := j + 1;
      assert actions[..k] == [a] + rest[..j] && actions[..k - 1] == [a] + rest[..j - 1];
      FromFront(w, jobs, a, rest[..j]);
      FromFront(w, jobs, a, rest[..j - 1]);
    }
  }

  // ---- a job that throws ------------------------------------------------------------------------------------------

  /** How often a job began. */
  function Beginnings(log: seq<Entry>, name: string): nat {
    if log == [] then 0
    else
      var last := log[|log| - 1];
      Beginnings(log[..|log| - 1], name) + if last.Began? && last.name == name then 1 else 0
  }

  lemma BeginningsPush(log: seq<Entry>, e: Entry, name: string)
    ensures Beginnings(log + [e], name) == Beginnings(log, name) + if e.Began? && e.name == name then 1 else 0
  {
    assert (log + [e])[..|log|] == log;
  }

  lemma LaunchBegins(w: World, name: string, throws: bool, now: int, at: Option<int>, other: string)
    ensures Beginnings(Launch(w, name, throws, now, at).log, other) == Beginnings(w.log, other) + if other ==
      name then 1 else 0
  {
    BeginningsPush(w.log, Began(name, at), other);
    BeginningsPush(w.log + [Began(name, at)], Ended(name, now), other);
    assert w.log + [Began(name, at), Ended(name, now)] == w.log + [Began(name, at)] + [Ended(name, now)];
  }

  lemma {:induction false} TickLeavesInFlight(w: World, jobs: seq<Job>, at: int, now: int, throwing: set<string>,
      name: string)
    requires name in w.state.inFlight
    ensures var w' := TickAll(w, jobs, at, now, throwing);
      name in w'.state.inFlight && Beginnings(w'.log, name) == Beginnings(w.log, name)
      && (name in w.threw ==> name in w'.threw) && w'.active[name] == w.active[name]
  {
    if jobs != [] {
      var init, job := jobs[..|jobs| - 1], jobs[|jobs| - 1];
      TickLeavesInFlight(w, init, at, now, throwing, name);
      LaunchBegins(TickAll(w, init, at, now, throwing), job.name, job.name in throwing, now, Some(at), name);
    }
  }

  /** Registered for good: it threw at once, so nothing executes that could unregister it. */
  ghost predicate Stuck(w: World, name: string) {
    name in w.threw && name in w.state.inFlight && w.active[name] == 0
  }

  lemma StuckStays(w: World, jobs: seq<Job>, a: Action, name: string)
    requires Stuck(w, name)
    ensures Stuck(Next(w, jobs, a), name) && Beginnings(Next(w, jobs, a).log, name) == Beginnings(w.log, name)
  {
    match a
    case Tick(at, now, throwing) => TickLeavesInFlight(w, jobs, at, now, throwing, name);
    case RunNow(other, throws, now) => LaunchBegins(w, other, throws, now, None, name);
    case Finish(other, now) => BeginningsPush(w.log, Ended(other, now), name);
  }

  lemma {:induction false} StuckNeverBegins(w: World, jobs: seq<Job>, actions: seq<Action>, name: string)
    requires Stuck(w, name)
    ensures Stuck(From(w, jobs, actions), name)
    ensures Beginnings(From(w, jobs, actions).log, name) == Beginnings(w.log, name)
  {
    if actions != [] {
      StuckNeverBegins(w, jobs, actions[..|actions| - 1], name);
      StuckStays(From(w, jobs, actions[..|actions| - 1]), jobs, actions[|actions| - 1], name);
    }
  }

  /** Letting a job finish if it executes, then running it by hand. */
  function Revive(w: World, name: string): seq<Action> {
    if w.active[name] > 0 then [Finish(name, 0), RunNow(name, false, 0)] else [RunNow(name, false, 0)]
  }

  lemma ReviveBegins(w: World, jobs: seq<Job>, name: string)
    requires Exclusive(w) && Known(jobs, name) && name !in w.threw
    ensures Beginnings(From(w, jobs, Revive(w, name)).log, name) == Beginnings(w.log, name) + 1
  {
    var run := RunNow(name, false, 0);
    if w.active[name] > 0 {
      var v := Next(w, jobs, Finish(name, 0));
      assert Revive(w, name) == [Finish(name, 0)] + [run];
      FromFront(w, jobs, Finish(name, 0), [run]);
      FromFront(v, jobs, run, []);
      assert [run] + [] == [run];
      BeginningsPush(w.log, Ended(name, 0), name);
      LaunchBegins(v, name, false, 0, None, name);
    } else {
      FromFront(w, jobs, run, []);
      assert [run] + [] == [run];
      LaunchBegins(w, name, false, 0, None, name);
    }
  }

  /**
   * "A job that throws does not stop the schedule" holds for a job exactly when its `run` never
   * threw instead of returning a promise: after that, and only after that, no tick and no immediate
   * run ever begins it again. A rejected promise, from however early in an async `run`, is an
   * ordinary finish.
   */
  lemma StoppedIff(jobs: seq<Job>, actions: seq<Action>, name: string)
    requires Known(jobs, name)
    ensures var w := Run(jobs, actions);
      (forall more :: Beginnings(From(w, jobs, more).log, name) == Beginnings(w.log, name)) <==> name in w.threw
  {
    var w := Run(jobs, actions);
    RunKeeps(jobs, actions);
    if name in w.threw {
      forall more ensures Beginnings(From(w, jobs, more).log, name) == Beginnings(w.log, name) {
        StuckNeverBegins(w, jobs, more, name);
      }
    } else {
      ReviveBegins(w, jobs, name);
    }
  }

  // ---- what a tick says it did ------------------------------------------------------------------------------------

  /** By the log, the job has never finished, or did so at least `every` ago. */
  ghost predicate IsDue(w: World, job: Job, at: int) {
    var end := LastEnd(w.log, job.name);
    end == None || end.value + job.every <= at
  }

  /** The names of those jobs that are due before the tick and executing, or not, in the order they are listed. */
  ghost function DueNames(w: World, jobs: seq<Job>, at: int, executing: bool): seq<string> {
    if jobs == [] then []
    else
      var init, job := jobs[..|jobs| - 1], jobs[|jobs| - 1];
      DueNames(w, init, at, executing) +
      if IsDue(w, job, at) && (job.name in w.state.inFlight) == executing then [job.name] else []
  }

  /** What starting these jobs leaves in the log. */
  ghost function StartLog(names: seq<string>, at: int, now: int, throwing: set<string>): seq<Entry> {
    if names == [] then []
    else
      var name := names[|names| - 1];
      StartLog(names[..|names| - 1], at, now, throwing) + [Began(name, Some(at))] +
      if name in throwing then [Ended(name, now)] else []
  }

  ghost predicate DistinctNames(jobs: seq<Job>) {
    forall i, j :: 0 <= i < j < |jobs| ==> jobs[i].name != jobs[j].name
  }

  ghost predicate Listed(jobs: seq<Job>, name: string) { exists i :: 0 <= i < |jobs| && jobs[i].name == name }

  /** A tick over some jobs leaves every other job as it was. */
  lemma {:induction false} OthersUntouched(s: State, jobs: seq<Job>, at: int, now: int, throwing: set<string>, name: string)
    requires !Listed(jobs, name)
    ensures var s' := Ticked(s, jobs, at, now, throwing);
      && (name in s'.inFlight <==> name in s.inFlight) && (name in s'.lastFinished <==> name in s.lastFinished)
      && (name in s.lastFinished ==> s'.lastFinished[name] == s.lastFinished[name])
  {
    if jobs != [] {
      var init := jobs[..|jobs| - 1];
      forall i | 0 <= i < |init| ensures init[i].name != name { assert jobs[i] == init[i]; }
      assert jobs[|jobs| - 1].name != name;
      OthersUntouched(s, init, at, now, throwing, name);
    }
  }

  /** Whether a job is due, and executing, is not changed by the jobs before it. */
  lemma DueAsBefore(w: World, jobs: seq<Job>, at: int, now: int, throwing: set<string>)
    requires Logged(w) && DistinctNames(jobs) && jobs != []
    ensures var job, before := jobs[|jobs| - 1], Ticked(w.state, jobs[..|jobs| - 1], at, now, throwing);
      (Due(before, job, at) <==> IsDue(w, job, at)) && (job.name in before.inFlight <==> job.name in w.state.inFlight)
  {
    var init, job := jobs[..|jobs| - 1], jobs[|jobs| - 1];
    forall i | 0 <= i < |init| ensures init[i].name != job.name { assert jobs[i] == init[i]; }
    OthersUntouched(w.state, init, at, now, throwing, job.name);
    assert LastEnd(w.log, job.name) == if job.name in w.state.lastFinished then Some(w.state.lastFinished[job.name]) else None;
  }

  lemma {:induction false} TickSays(w: World, jobs: seq<Job>, at: int, now: int, throwing: set<string>)
    requires Logged(w) && DistinctNames(jobs)
    ensures StartedBy(w.state, jobs, at, now, throwing) == DueNames(w, jobs, at, false)
    ensures SkippedBy(w.state, jobs, at, now, throwing) == DueNames(w, jobs, at, true)
  {
    if jobs != [] {
      TickSays(w, jobs[..|jobs| - 1], at, now, throwing);
      DueAsBefore(w, jobs, at, now, throwing);
    }
  }

  lemma {:induction false} TickLogs(w: World, jobs: seq<Job>, at: int, now: int, throwing: set<string>)
    requires Logged(w) && DistinctNames(jobs)
    ensures TickAll(w, jobs, at, now, throwing).log == w.log + StartLog(DueNames(w, jobs, at, false), at, now, throwing)
  {
    if jobs == [] {
      assert w.log + [] == w.log;
    } else {
      var init, job := jobs[..|jobs| - 1], jobs[|jobs| - 1];
      TickLogs(w, init, at, now, throwing);
      DueAsBefore(w, jobs, at, now, throwing);
      TickAllIsTicked(w, init, at, now, throwing);
      StartLogPush(w.log, DueNames(w, init, at, false), job.name, at, now, throwing);
      LogOfTickJob(TickAll(w, init, at, now, throwing), job, at, now, throwing);
      assert DueNames(w, init, at, false) + [] == DueNames(w, init, at, false);
    }
  }

  lemma LogOfTickJob(w: World, job: Job, at: int, now: int, throwing: set<string>)
    ensures TickJob(w, job, at, now, throwing).log ==
      if !Starts(w.state, job, at) then w.log
      else if job.name in throwing then w.log + [Began(job.name, Some(at)), Ended(job.name, now)]
      else w.log + [Began(job.name, Some(at))]
  {
  }

  lemma StartLogPush(log: seq<Entry>, names: seq<string>, name: string, at: int, now: int, throwing: set<string>)
    ensures log + StartLog(names + [name], at, now, throwing) ==
      if name in throwing then log + StartLog(names, at, now, throwing) + [Began(name, Some(at)), Ended(name, now)]
      else log + StartLog(names, at, now, throwing) + [Began(name, Some(at))]
  {
    assert (names + [name])[..|names|] == names;
  }

  /**
   * A tick, in any run of jobs of different names, begins exactly those that are due and not
   * executing, in the order they are listed, and says so; those that are due and still executing it
   * says it skipped.
   */
  lemma TickBeginsWhatIsDue(jobs: seq<Job>, actions: seq<Action>, at: int, now: int, throwing: set<string>)
    requires DistinctNames(jobs)
    ensures var w := Run(jobs, actions); var w' := Next(w, jobs, Tick(at, now, throwing));
      && StartedBy(w.state, jobs, at, now, throwing) == DueNames(w, jobs, at, false)
      && SkippedBy(w.state, jobs, at, now, throwing) == DueNames(w, jobs, at, true)
      && w'.log == w.log + StartLog(DueNames(w, jobs, at, false), at, now, throwing)
  {
    RunKeeps(jobs, actions);
    TickSays(Run(jobs, actions), jobs, at, now, throwing);
    TickLogs(Run(jobs, actions), jobs, at, now, throwing);
  }

  /** An immediate run begins a listed job that is idle, whenever it last ran, and otherwise changes nothing. */
  lemma RunNowBeginsWhatIsIdle(w: World, jobs: seq<Job>, name: string, now: int)
    ensures var w' := Next(w, jobs, RunNow(name, false, now));
      if Listed(jobs, name) && name !in w.state.inFlight then
        w'.log == w.log + [Began(name, None)] && w'.active == w.active + multiset{name} && name in w'.state.inFlight
      else w' == w
  {
  }
}
