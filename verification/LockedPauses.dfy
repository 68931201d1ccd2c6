/**
 * The pause a server asks the Go or Rust client for: when nothing goes out before it is over,
 * whatever the other threads do. Returning a batch and setting its pause are two critical
 * sections, and a pause overwrites the one before it, also by an earlier end.
 */
module LockedPauses {
  import opened Common
  import opened Contract
  import opened LockedClient
  import opened LockedRuns

  /** The latest time an action has read from the clock. */
  function Clock(actions: seq<Action>, from: int): int {
    if actions == [] then from
    else
      var a := actions[|actions| - 1];
      if a.Flush? then a.now else if a.Pause? then a.now else Clock(actions[..|actions| - 1], from)
  }

  /** From `from` on, by a clock that does not go back and a jitter in [0, 1), with every flush before `until`. */
  predicate Timely(actions: seq<Action>, from: int, until: int) {
    actions == [] ||
    var before, a := actions[..|actions| - 1], actions[|actions| - 1];
    && Timely(before, from, until)
    && (a.Flush? ==> Clock(before, from) <= a.now < until)
    && (a.Pause? ==> Clock(before, from) <= a.now && 0.0 <= a.jitter < 1.0)
  }

  /** No request goes out in any continuation before `until`. */
  ghost predicate Silent(w: World, cfg: Config, from: int, until: int) {
    forall actions :: Timely(actions, from, until) ==> |From(w, cfg, actions).threads| == |w.threads|
  }

  /** No thread can end the pause early: all are done, or about to set one that lasts as long. */
  predicate NoneShortens(threads: seq<Thread>, from: int, until: int) {
    forall t :: 0 <= t < |threads| ==>
      threads[t].Done? || (threads[t].Pausing? && threads[t].after.Some? && from + threads[t].after.value >= until)
  }

  /** A client that will never send anything again, paused or not. */
  ghost predicate Spent(w: World, cfg: Config) {
    || w.shared.disabled || cfg.maxBatch == 0 || cfg.maxBuffer == 0
    || (w.shared.closed && w.shared.buffer == [] && WireIsEmpty(w))
  }

  ghost predicate Bounded(w: World, cfg: Config) { |w.shared.buffer| <= cfg.maxBuffer }

  // ---- a pause that holds -------------------------------------------------------------------------

  lemma {:induction false} BoundedStays(w: World, cfg: Config, actions: seq<Action>)
    requires Bounded(w, cfg)
    ensures Bounded(From(w, cfg, actions), cfg)
  {
    if actions != [] { BoundedStays(w, cfg, actions[..|actions| - 1]); }
  }

  lemma SpentStep(w: World, cfg: Config, a: Action)
    requires Spent(w, cfg) && Bounded(w, cfg)
    ensures Spent(Next(w, cfg, a), cfg) && |Next(w, cfg, a).threads| == |w.threads|
  {
    if a.Answer? && a.thread < |w.threads| && w.threads[a.thread].OnWire? {
      assert [] + w.shared.buffer == w.shared.buffer;
    }
  }

  lemma {:induction false} SpentIsSilent(w: World, cfg: Config, actions: seq<Action>)
    requires Spent(w, cfg) && Bounded(w, cfg)
    ensures Spent(From(w, cfg, actions), cfg) && |From(w, cfg, actions).threads| == |w.threads|
  {
    if actions != [] {
      var before := actions[..|actions| - 1];
      SpentIsSilent(w, cfg, before);
      BoundedStays(w, cfg, before);
      SpentStep(From(w, cfg, before), cfg, actions[|actions| - 1]);
    }
  }

  lemma {:induction false} ClockRises(actions: seq<Action>, from: int, until: int)
    requires Timely(actions, from, until)
    ensures Clock(actions, from) >= from
  {
    if actions != [] { ClockRises(actions[..|actions| - 1], from, until); }
  }

  lemma HeldStep(w: World, cfg: Config, a: Action, from: int, until: int)
    requires w.shared.pausedUntil >= until && NoneShortens(w.threads, from, until)
    requires a.Flush? ==> a.now < until
    requires a.Pause? ==> a.now >= from
    ensures var w' := Next(w, cfg, a);
      && w'.shared.pausedUntil >= until && NoneShortens(w'.threads, from, until)
      && |w'.threads| == |w.threads|
  {
  }

  lemma {:induction false} HeldIsSilent(w: World, cfg: Config, actions: seq<Action>, from: int, until: int)
    requires w.shared.pausedUntil >= until && NoneShortens(w.threads, from, until) && Timely(actions, from, until)
    ensures var w' := From(w, cfg, actions);
      && w'.shared.pausedUntil >= until && NoneShortens(w'.threads, from, until)
      && |w'.threads| == |w.threads|
  {
    if actions != [] {
      var before := actions[..|actions| - 1];
      HeldIsSilent(w, cfg, before, from, until);
      ClockRises(before, from, until);
      HeldStep(From(w, cfg, before), cfg, actions[|actions| - 1], from, until);
    }
  }

  // ---- a pause that does not ----------------------------------------------------------------------

  lemma {:induction false} FromJoin(w: World, cfg: Config, a: seq<Action>, b: seq<Action>)
    ensures From(w, cfg, a + b) == From(From(w, cfg, a), cfg, b)
  {
    if b == [] {
      assert a + b == a;
    } else {
      assert (a + b)[..|a + b| - 1] == a + b[..|b| - 1];
      FromJoin(w, cfg, a, b[..|b| - 1]);
    }
  }

  lemma {:induction false} TimelyJoin(a: seq<Action>, b: seq<Action>, from: int, until: int)
    requires Timely(a, from, until) && Timely(b, Clock(a, from), until)
    ensures Timely(a + b, from, until) && Clock(a + b, from) == Clock(b, Clock(a, from))
  {
    if b == [] {
      assert a + b == a;
    } else {
      assert (a + b)[..|a + b| - 1] == a + b[..|b| - 1];
      TimelyJoin(a, b[..|b| - 1], from, until);
    }
  }

  lemma FromOne(w: World, cfg: Config, a: Action)
    ensures From(w, cfg, [a]) == Next(w, cfg, a)
  {
    assert [a][..0] == [];
    assert From(w, cfg, []) == w;
  }

  lemma TimelyOne(a: Action, from: int, until: int)
    requires a.Flush? ==> from <= a.now < until
    requires a.Pause? ==> from <= a.now && 0.0 <= a.jitter < 1.0
    ensures Timely([a], from, until)
    ensures Clock([a], from) == if a.Flush? then a.now else if a.Pause? then a.now else from
  {
    assert [a][..0] == [];
    assert Timely([], from, until) && Clock([], from) == from;
  }

  /** Something comes to wait in the buffer without the clock being read. */
  lemma SomethingWaits(w: World, cfg: Config, from: int, until: int) returns (actions: seq<Action>)
    requires !Spent(w, cfg)
    ensures Timely(actions, from, until) && Clock(actions, from) == from
    ensures var w' := From(w, cfg, actions);
      && w'.shared.buffer != [] && !w'.shared.disabled && w'.shared.pausedUntil == w.shared.pausedUntil
      && |w'.threads| == |w.threads|
  {
    if w.shared.buffer != [] {
      actions := [];
    } else {
      var a := Track;
      if w.shared.closed {
        var t :| 0 <= t < |w.threads| && w.threads[t].OnWire? && w.threads[t].batch != [];
        a := Answer(t, NoReply);
        assert w.threads[t].batch + [] == w.threads[t].batch;
      }
      actions := [a];
      FromOne(w, cfg, a);
      TimelyOne(a, from, until);
    }
  }

  /** A client that is not paused until `until` sends before it. */
  lemma UnpausedSends(w: World, cfg: Config, from: int, until: int) returns (actions: seq<Action>)
    requires !Spent(w, cfg) && from < until && w.shared.pausedUntil < until
    ensures Timely(actions, from, until) && |From(w, cfg, actions).threads| > |w.threads|
  {
    var before := SomethingWaits(w, cfg, from, until);
    var flush := Flush(Max(from, w.shared.pausedUntil));
    actions := before + [flush];
    FromJoin(w, cfg, before, [flush]);
    FromOne(From(w, cfg, before), cfg, flush);
    TimelyOne(flush, from, until);
    TimelyJoin(before, [flush], from, until);
  }

  lemma EarlierPause(w: World, cfg: Config, t: nat, from: int, until: int)
    requires t < |w.threads| && w.threads[t].Pausing? && !Spent(w, cfg) && from < until
    requires w.threads[t].after.Some? ==> from + w.threads[t].after.value < until
    ensures var w' := Next(w, cfg, Pause(t, from, 0.0));
      w'.shared.pausedUntil < until && !Spent(w', cfg) && |w'.threads| == |w.threads|
  {
    var w' := Next(w, cfg, Pause(t, from, 0.0));
    assert (0.0 * (Ceiling(w.shared.attempt + 1) as real)).Floor == 0;
    if w.shared.closed && w.shared.buffer == [] {
      var u :| 0 <= u < |w.threads| && w.threads[u].OnWire? && w.threads[u].batch != [];
      assert w'.threads[u] == w.threads[u];
    }
  }

  lemma FailedBatchIsBack(w: World, cfg: Config, t: nat)
    requires t < |w.threads| && w.threads[t].OnWire? && !Spent(w, cfg)
    ensures var w' := Next(w, cfg, Answer(t, NoReply));
      && w'.threads == w.threads[t := Pausing(None)] && !Spent(w', cfg)
  {
    var w' := Next(w, cfg, Answer(t, NoReply));
    var all := w.threads[t].batch + w.shared.buffer;
    assert w'.shared.buffer == [] ==> all == [];
    if w.shared.closed && all == [] {
      var u :| 0 <= u < |w.threads| && w.threads[u].OnWire? && w.threads[u].batch != [];
      assert w'.threads[u] == w.threads[u];
    }
  }

  /** A thread that is still to set a pause, and one that ends too early, lets a request out. */
  lemma ShorterPauseSends(w: World, cfg: Config, t: nat, from: int, until: int) returns (actions: seq<Action>)
    requires t < |w.threads| && w.threads[t].Pausing? && !Spent(w, cfg) && from < until
    requires w.threads[t].after.Some? ==> from + w.threads[t].after.value < until
    ensures Timely(actions, from, until) && |From(w, cfg, actions).threads| > |w.threads|
  {
    var pause := Pause(t, from, 0.0);
    EarlierPause(w, cfg, t, from, until);
    FromOne(w, cfg, pause);
    TimelyOne(pause, from, until);
    var after := UnpausedSends(Next(w, cfg, pause), cfg, from, until);
    FromJoin(w, cfg, [pause], after);
    TimelyJoin([pause], after, from, until);
    actions := [pause] + after;
  }

  /** So does one whose batch is still on the wire, and will fail without a named pause. */
  lemma FailingBatchSends(w: World, cfg: Config, t: nat, from: int, until: int) returns (actions: seq<Action>)
    requires t < |w.threads| && w.threads[t].OnWire? && !Spent(w, cfg) && from < until
    ensures Timely(actions, from, until) && |From(w, cfg, actions).threads| > |w.threads|
  {
    var answer := Answer(t, NoReply);
    FailedBatchIsBack(w, cfg, t);
    FromOne(w, cfg, answer);
    TimelyOne(answer, from, until);
    var after := ShorterPauseSends(Next(w, cfg, answer), cfg, t, from, until);
    FromJoin(w, cfg, [answer], after);
    TimelyJoin([answer], after, from, until);
    actions := [answer] + after;
  }

  /**
   * Nothing goes out before `until`, whatever happens meanwhile, exactly when the client is paused
   * until then and no other thread is left that can shorten the pause, or it has nothing to send
   * for good.
   */
  lemma NothingIsSentBeforeIff(w: World, cfg: Config, from: int, until: int)
    requires Bounded(w, cfg) && from < until
    ensures Silent(w, cfg, from, until) <==>
      Spent(w, cfg) || (w.shared.pausedUntil >= until && NoneShortens(w.threads, from, until))
  {
    if Spent(w, cfg) {
      forall actions | Timely(actions, from, until) ensures |From(w, cfg, actions).threads| == |w.threads| {
        SpentIsSilent(w, cfg, actions);
      }
    } else if w.shared.pausedUntil < until {
      var actions := UnpausedSends(w, cfg, from, until);
    } else if NoneShortens(w.threads, from, until) {
      forall actions | Timely(actions, from, until) ensures |From(w, cfg, actions).threads| == |w.threads| {
        HeldIsSilent(w, cfg, actions, from, until);
      }
    } else {
      var t :| 0 <= t < |w.threads| && !w.threads[t].Done? &&
        (w.threads[t].Pausing? && w.threads[t].after.Some? ==> from + w.threads[t].after.value < until);
      if w.threads[t].OnWire? {
        var actions := FailingBatchSends(w, cfg, t, from, until);
      } else {
        var actions := ShorterPauseSends(w, cfg, t, from, until);
      }
    }
  }

  /** Every flush is before `until`; other times may be anything, also ones read before the lock was taken. */
  predicate Early(actions: seq<Action>, until: int) {
    forall i :: 0 <= i < |actions| && actions[i].Flush? ==> actions[i].now < until
  }

  lemma {:induction false} TimelyIsEarly(actions: seq<Action>, from: int, until: int)
    requires Timely(actions, from, until)
    ensures Early(actions, until)
  {
    if actions != [] {
      var before := actions[..|actions| - 1];
      TimelyIsEarly(before, from, until);
      forall i | 0 <= i < |actions| && actions[i].Flush? ensures actions[i].now < until {
        if i < |before| { assert before[i] == actions[i]; }
      }
    }
  }

  lemma {:induction false} AllDoneHolds(w: World, cfg: Config, actions: seq<Action>, until: int)
    requires w.shared.pausedUntil >= until && AllDone(w.threads) && Early(actions, until)
    ensures From(w, cfg, actions).shared.pausedUntil >= until && From(w, cfg, actions).threads == w.threads
  {
    if actions != [] {
      var before := actions[..|actions| - 1];
      assert Early(before, until) by {
        forall i | 0 <= i < |before| && before[i].Flush? ensures before[i].now < until { assert before[i] == actions[i]; }
      }
      AllDoneHolds(w, cfg, before, until);
    }
  }

  /** No request goes out in any continuation that flushes before `until` only. */
  ghost predicate SilentByAnyClock(w: World, cfg: Config, until: int) {
    forall actions :: Early(actions, until) ==> |From(w, cfg, actions).threads| == |w.threads|
  }

  /** If the clock may also be read before the lock is taken, no thread at all may be left. */
  lemma NothingIsSentByAnyClockIff(w: World, cfg: Config, until: int)
    requires Bounded(w, cfg)
    ensures SilentByAnyClock(w, cfg, until) <==> Spent(w, cfg) || (w.shared.pausedUntil >= until && AllDone(w.threads))
  {
    if Spent(w, cfg) {
      forall actions | Early(actions, until) ensures |From(w, cfg, actions).threads| == |w.threads| {
        SpentIsSilent(w, cfg, actions);
      }
    } else if w.shared.pausedUntil >= until && AllDone(w.threads) {
      forall actions | Early(actions, until) ensures |From(w, cfg, actions).threads| == |w.threads| {
        AllDoneHolds(w, cfg, actions, until);
      }
    } else {
      var from := until - 1;
      if !AllDone(w.threads) {
        var t :| 0 <= t < |w.threads| && !w.threads[t].Done?;
        if w.threads[t].Pausing? && w.threads[t].after.Some? { from := Min(until - 1, until - 1 - w.threads[t].after.value); }
        assert !NoneShortens(w.threads, from, until);
      }
      NothingIsSentBeforeIff(w, cfg, from, until);
      var actions :| Timely(actions, from, until) && |From(w, cfg, actions).threads| != |w.threads|;
      TimelyIsEarly(actions, from, until);
    }
  }

  // ---- the pause a server names -------------------------------------------------------------------

  /** Every other thread is done, or about to set a pause at least as long. */
  predicate OthersKeep(threads: seq<Thread>, t: nat, ms: int) {
    forall u :: 0 <= u < |threads| && u != t ==>
      threads[u].Done? || (threads[u].Pausing? && threads[u].after.Some? && threads[u].after.value >= ms)
  }

  /**
   * Once a thread has set the pause it was told, nothing goes out before its end exactly when no
   * other thread is on the wire, backing off, or about to set a shorter one.
   */
  lemma APauseOnceSetHoldsIff(w: World, cfg: Config, t: nat, now: int, jitter: real)
    requires Bounded(w, cfg) && t < |w.threads| && w.threads[t].Pausing? && w.threads[t].after.Some?
    requires w.threads[t].after.value > 0
    ensures var ms, w' := w.threads[t].after.value, Next(w, cfg, Pause(t, now, jitter));
      Silent(w', cfg, now, now + ms) <==> Spent(w', cfg) || OthersKeep(w.threads, t, ms)
  {
    var ms, w' := w.threads[t].after.value, Next(w, cfg, Pause(t, now, jitter));
    NothingIsSentBeforeIff(w', cfg, now, now + ms);
    assert w'.threads == w.threads[t := Done];
    if NoneShortens(w'.threads, now, now + ms) {
      forall u | 0 <= u < |w.threads| && u != t
        ensures w.threads[u].Done? || (w.threads[u].Pausing? && w.threads[u].after.Some? && w.threads[u].after.value >= ms)
      {
        assert w'.threads[u] == w.threads[u];
      }
    }
  }

  /**
   * Between the answer that names a pause and the setting of it the client is as paused as it was
   * before: nothing goes out exactly when an earlier pause lasts long enough.
   */
  lemma BeforeThePauseIsSetIff(w: World, cfg: Config, t: nat, reply: Reply, now: int)
    requires Bounded(w, cfg) && t < |w.threads| && w.threads[t].OnWire?
    requires reply.Response? && !LockedRuns.Ok(reply) && Retryable(reply) && reply.retryAfterMs.Some? && reply.retryAfterMs.value > 0
    ensures var ms, w' := reply.retryAfterMs.value, Next(w, cfg, Answer(t, reply));
      Silent(w', cfg, now, now + ms) <==>
        Spent(w', cfg) || (w.shared.pausedUntil >= now + ms && OthersKeep(w.threads, t, ms))
  {
    var ms, w' := reply.retryAfterMs.value, Next(w, cfg, Answer(t, reply));
    BoundedStays(w, cfg, [Answer(t, reply)]);
    FromOne(w, cfg, Answer(t, reply));
    NothingIsSentBeforeIff(w', cfg, now, now + ms);
    assert w'.threads == w.threads[t := Pausing(Some(ms))];
    if NoneShortens(w'.threads, now, now + ms) {
      forall u | 0 <= u < |w.threads| && u != t
        ensures w.threads[u].Done? || (w.threads[u].Pausing? && w.threads[u].after.Some? && w.threads[u].after.value >= ms)
      {
        assert w'.threads[u] == w.threads[u];
      }
    }
  }

  lemma OthersAreDone(w: World, t: nat, ms: int)
    requires Ordered(w) && t < |w.threads| && !w.threads[t].Done?
    ensures OthersKeep(w.threads, t, ms)
  {
  }

  /** With one flusher a pause once set always holds. */
  lemma OneFlusherKeepsThePause(cfg: Config, actions: seq<Action>, t: nat, now: int, jitter: real)
    requires OneFlusher(cfg, actions)
    requires var threads := Run(cfg, actions).threads;
      t < |threads| && threads[t].Pausing? && threads[t].after.Some? && threads[t].after.value > 0
    ensures var w := Run(cfg, actions);
      Silent(Next(w, cfg, Pause(t, now, jitter)), cfg, now, now + w.threads[t].after.value)
  {
    var w := Run(cfg, actions);
    OneFlusherKeepsOrder(cfg, actions);
    OthersAreDone(w, t, w.threads[t].after.value);
    assert Bounded(w, cfg) by { RunBounded(cfg, actions); }
    APauseOnceSetHoldsIff(w, cfg, t, now, jitter);
  }

  // ---- two runs that break it ---------------------------------------------------------------------

  const LIMITED: Action := Answer(0, Response(429, None, Some(60_000), 0))

  /** After the batch is back and before the pause is set, another thread sends it again. */
  lemma ResentBeforeThePause(cfg: Config)
    requires cfg.maxBatch >= 1 && cfg.maxBuffer >= 1
    ensures Run(cfg, [] + [Track] + [Flush(0)] + [LIMITED] + [Flush(0)]).threads == [Pausing(Some(60_000)), OnWire([0])]
  {
    RunStep(cfg, [], Track);
    RunStep(cfg, [] + [Track], Flush(0));
    TrackAndFlush(START, cfg);
    var w := Run(cfg, [] + [Track] + [Flush(0)]);
    assert w == START.(threads := [OnWire([0])], tracked := 1);
    RunStep(cfg, [] + [Track] + [Flush(0)], LIMITED);
    RunStep(cfg, [] + [Track] + [Flush(0)] + [LIMITED], Flush(0));
    var w' := OnAnswer(w, cfg, 0, LIMITED.reply);
    assert [0] + [] == [0] && [0][..1] == [0];
    assert w'.threads == [Pausing(Some(60_000))] && w'.shared.buffer == [0];
  }

  const PAUSE_SET: seq<Action> := TWO_ON_THE_WIRE + [LIMITED] + [Pause(0, 0, 0.0)]

  lemma PauseSet(cfg: Config)
    requires cfg.maxBatch >= 1 && cfg.maxBuffer >= 1
    ensures var w := Run(cfg, PAUSE_SET);
      w.shared == Fresh<nat>().(buffer := [0], pausedUntil := 60_000) && w.threads == [Done, OnWire([1])]
  {
    TwoOnTheWire(cfg);
    RunStep(cfg, TWO_ON_THE_WIRE, LIMITED);
    RunStep(cfg, TWO_ON_THE_WIRE + [LIMITED], Pause(0, 0, 0.0));
    assert [0] + [] == [0];
  }

  /** A pause of a minute, set at 0, is overwritten by a backoff at 100, and a third request goes out at 200. */
  lemma ThePauseIsOverwritten(cfg: Config)
    requires cfg.maxBatch >= 1 && cfg.maxBuffer >= 1
    ensures Run(cfg, PAUSE_SET).shared.pausedUntil == 60_000
    ensures var w := Run(cfg, PAUSE_SET + [Answer(1, NoReply)] + [Pause(1, 100, 0.0)] + [Flush(200)]);
      w.shared.pausedUntil == 100 && |w.threads| == 3 && w.threads[2].OnWire?
  {
    PauseSet(cfg);
    RunStep(cfg, PAUSE_SET, Answer(1, NoReply));
    RunStep(cfg, PAUSE_SET + [Answer(1, NoReply)], Pause(1, 100, 0.0));
    RunStep(cfg, PAUSE_SET + [Answer(1, NoReply)] + [Pause(1, 100, 0.0)], Flush(200));
    var w := Run(cfg, PAUSE_SET);
    var back := OnAnswer(w, cfg, 1, NoReply);
    assert back.threads == [Done, Pausing(None)] && back.shared.buffer != [] && back.shared.attempt == 0;
    assert (0.0 * (Ceiling(1) as real)).Floor == 0;
    var paused := OnPause(back, 1, 100, 0.0);
    assert paused.shared.pausedUntil == 100 && paused.threads == [Done, Done];
    assert Taken(paused.shared, cfg.maxBatch, 200) > 0;
  }
}
