/**
 * The worker's scheduler (apps/worker/src/scheduler.ts): what is in flight, when each job last
 * finished, and every interleaving of ticks, finishes, failures and immediate runs. Instants and
 * durations are milliseconds.
 */
module Scheduler {

  datatype Job = Job(name: string, every: int)

  /** The two maps of the closure. A promise in `inFlight` is known by its job's name. */
  datatype State = State(inFlight: set<string>, lastFinished: map<string, int>)

  predicate Due(s: State, job: Job, at: int) {
    job.name !in s.lastFinished || at - s.lastFinished[job.name] >= job.every
  }

  /** The `finally` of a run. */
  function Finished(s: State, name: string, now: int): State {
    State(s.inFlight - {name}, s.lastFinished[name := now])
  }

  /**
   * Launching: the job is invoked, then registered. A job whose `run` throws, rather than returning
   * a promise that rejects, reaches its `finally` in between.
   */
  function Launched(s: State, name: string, throws: bool, now: int): State {
    var after := if throws then Finished(s, name, now) else s;
    after.(inFlight := after.inFlight + {name})
  }

  /** Whether a tick starts the job. */
  predicate Starts(s: State, job: Job, at: int) { Due(s, job, at) && job.name !in s.inFlight }

  /** The state after a tick has gone through the jobs. `throwing` are those that throw at once. */
  function Ticked(s: State, jobs: seq<Job>, at: int, now: int, throwing: set<string>): State {
    if jobs == [] then s
    else
      var before := Ticked(s, jobs[..|jobs| - 1], at, now, throwing);
      var job := jobs[|jobs| - 1];
      if Starts(before, job, at) then Launched(before, job.name, job.name in throwing, now) else before
  }

  function StartedBy(s: State, jobs: seq<Job>, at: int, now: int, throwing: set<string>): seq<string> {
    if jobs == [] then []
    else
      var init, job := jobs[..|jobs| - 1], jobs[|jobs| - 1];
      StartedBy(s, init, at, now, throwing)
      + if Starts(Ticked(s, init, at, now, throwing), job, at) then [job.name] else []
  }

  function SkippedBy(s: State, jobs: seq<Job>, at: int, now: int, throwing: set<string>): seq<string> {
    if jobs == [] then []
    else
      var init, job := jobs[..|jobs| - 1], jobs[|jobs| - 1];
      var before := Ticked(s, init, at, now, throwing);
      SkippedBy(s, init, at, now, throwing) + if Due(before, job, at) && job.name in before.inFlight then [job.name] else []
  }

  predicate Known(jobs: seq<Job>, name: string) { exists i :: 0 <= i < |jobs| && jobs[i].name == name }

  class JobScheduler {
    const jobs: seq<Job>
    var inFlight: set<string>
    var lastFinished: map<string, int>
    var timer: bool

    ghost function Now(): State
      reads this
    {
      State(inFlight, lastFinished)
    }

    constructor (jobs: seq<Job>)
      ensures this.jobs == jobs && Now() == State({}, map[]) && !timer
    {
      this.jobs, inFlight, lastFinished, timer := jobs, {}, map[], false;
    }

    method Finish(name: string, now: int)
      modifies this
      ensures Now() == Finished(old(Now()), name, now) && timer == old(timer)
    {
      lastFinished := lastFinished[name := now];
      inFlight := inFlight - {name};
    }

    method Launch(name: string, throws: bool, now: int)
      modifies this
      ensures Now() == Launched(old(Now()), name, throws, now) && timer == old(timer)
    {
      if throws {
        Finish(name, now);
      }
      inFlight := inFlight + {name};
    }

    method Tick(at: int, now: int, throwing: set<string>) returns (started: seq<string>, skipped: seq<string>)
      modifies this
      ensures Now() == Ticked(old(Now()), jobs, at, now, throwing) && timer == old(timer)
      ensures started == StartedBy(old(Now()), jobs, at, now, throwing)
      ensures skipped == SkippedBy(old(Now()), jobs, at, now, throwing)
    {
      started, skipped := [], [];
      for i := 0 to |jobs|
        invariant Now() == Ticked(old(Now()), jobs[..i], at, now, throwing) && timer == old(timer)
        invariant started == StartedBy(old(Now()), jobs[..i], at, now, throwing)
        invariant skipped == SkippedBy(old(Now()), jobs[..i], at, now, throwing)
      {
        var job := jobs[i];
        assert jobs[..i + 1][..i] == jobs[..i];
        if job.name in lastFinished && at - lastFinished[job.name] < job.every {
          continue;
        }
        if job.name in inFlight {
          skipped := skipped + [job.name];
          continue;
        }
        started := started + [job.name];
        Launch(job.name, job.name in throwing, now);
      }
      assert jobs[..|jobs|] == jobs;
    }

    /** Whether the job was launched: an unknown one is not, and one in flight is only waited for. */
    method RunNow(name: string, throws: bool, now: int) returns (launched: bool)
      modifies this
      ensures launched == (Known(jobs, name) && name !in old(inFlight))
      ensures Now() == (if launched then Launched(old(Now()), name, throws, now) else old(Now())) && timer == old(timer)
    {
      if !Known(jobs, name) || name in inFlight {
        return false;
      }
      Launch(name, throws, now);
      return true;
    }

    method Start()
      modifies `timer
      ensures timer
    {
      if timer {
        return;
      }
      timer := true;
    }

    method Stop()
      modifies `timer
      ensures !timer
    {
      timer := false;
    }
  }
}
