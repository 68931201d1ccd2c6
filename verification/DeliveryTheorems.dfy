/** What holds in every reachable world: the promises of the delivery protocol. */
module DeliveryTheorems {
  import opened Common
  import opened Sequences
  import opened EventQueues
  import opened Contract
  import opened SdkClient
  import opened Delivery
  import opened DeliveryProof
  import opened Answers

  /** In how many places of the client's account an event is, repeats counted. */
  function Places(w: World, e: Event): nat {
    multiset(InFlight(w.client))[e] + multiset(w.client.queue)[e] + w.gone.settled[e] + w.gone.refused[e]
    + w.gone.fatal[e] + w.gone.beaconed[e] + w.gone.dropped[e] + w.gone.discarded[e]
  }

  /** Conservation: a tracked event is in exactly one place, and nothing else is anywhere. */
  lemma EveryEventInOnePlace(cfg: Config, actions: seq<Action>, e: Event)
    ensures var w := Run(cfg, actions); Places(w, e) == if e in w.tracked then 1 else 0
  {
    var w := Run(cfg, actions);
    RunAccounted(cfg, actions);
    UniqueMultiset(w.tracked);
    assert multiset(w.tracked)[e] == Held(w.client)[e] + w.gone.All()[e];
    assert e in w.tracked <==> e in multiset(w.tracked);
  }

  /** Memory: the queue plus one batch, for every capacity and batch size, negative ones included. */
  lemma MemoryIsBounded(cfg: Config, actions: seq<Action>)
    ensures |Live(Run(cfg, actions).client)| <= Max(cfg.capacity, 0) + Max(cfg.maxBatch, 0)
  {
    RunAccounted(cfg, actions);
  }

  /** What is held is in track order, and so are the first transmissions. */
  lemma TrackOrderIsKept(cfg: Config, actions: seq<Action>)
    ensures var w := Run(cfg, actions);
      Sub(Live(w.client), w.tracked) && Sub(Firsts(Flat(w.requests)), w.tracked)
  {
    var w := Run(cfg, actions);
    RunOrdered(cfg, actions);
    var firsts, unsent := Firsts(Flat(w.requests)), Unsent(w.client.queue, Flat(w.requests));
    assert firsts + unsent == firsts + unsent + [] && firsts + [] == firsts;
    SubDelete(firsts, unsent, [], w.tracked);
  }

  /** The receipt is for a request that carried `e`. */
  predicate Carried(w: World, receipt: Receipt, e: Event) {
    receipt.request < |w.requests| && e in w.requests[receipt.request]
  }

  /**
   * Exactly once: whatever the network loses, delays, reorders or repeats, the server holds an
   * event at most once, with the fields it was tracked with, and holds every event of a batch
   * the client counts as settled, unless a receipt rejected it; and an event it does not hold was
   * rejected each time the server processed it.
   */
  lemma ExactlyOnce(cfg: Config, actions: seq<Action>, e: Event)
    ensures var w := Run(cfg, actions);
      && multiset(w.stored)[e] <= 1
      && (e in w.stored ==> e in w.tracked && e in Flat(w.requests))
      && (forall f :: f in w.stored && DedupKey(f) == DedupKey(e) && e in w.stored ==> f == e)
      && (e in w.gone.settled ==> StoredOrRejected(w, e))
      && (e !in w.stored ==> forall k :: 0 <= k < |w.receipts| && Carried(w, w.receipts[k], e) ==> e in w.receipts[k].rejected)
  {
    var w := Run(cfg, actions);
    RunServed(cfg, actions);
    UniqueMultiset(w.stored);
    RunStoredWasSent(cfg, actions);
    forall f | f in w.stored && DedupKey(f) == DedupKey(e) && e in w.stored ensures f == e {
      SameKey(w.stored, f, e);
    }
  }

  ghost predicate StoredWasSent(w: World) {
    forall e :: e in w.stored ==> e in Flat(w.requests)
  }

  lemma StepStoredWasSent(w: World, cfg: Config, a: Action)
    requires StoredWasSent(w)
    ensures StoredWasSent(Next(w, cfg, a))
  {
    RequestsOnlyGrow(w, cfg, a);
    if a.Process? && a.request < |w.requests| {
      forall e | e in w.requests[a.request] ensures e in Flat(w.requests) {
        FlatContains(w.requests, a.request, e);
      }
      StoredFrom(w.stored, w.requests[a.request], a.rejected, Flat(w.requests));
    }
  }

  lemma {:induction false} RunStoredWasSent(cfg: Config, actions: seq<Action>)
    ensures StoredWasSent(Run(cfg, actions))
  {
    if actions != [] {
      RunStoredWasSent(cfg, actions[..|actions| - 1]);
      StepStoredWasSent(Run(cfg, actions[..|actions| - 1]), cfg, actions[|actions| - 1]);
    }
  }

  lemma RequestsOnlyGrow(w: World, cfg: Config, a: Action)
    ensures var w' := Next(w, cfg, a);
      w'.requests == w.requests || exists batch :: w'.requests == w.requests + [batch]
    ensures forall e :: e in Flat(w.requests) ==> e in Flat(Next(w, cfg, a).requests)
    ensures !a.Process? ==> Next(w, cfg, a).stored == w.stored
  {
    var w' := Next(w, cfg, a);
    if w'.requests != w.requests {
      FlatAppend(w.requests, w'.requests[|w.requests|]);
      assert w'.requests == w.requests + [w'.requests[|w.requests|]];
    }
  }

  lemma {:induction false} StoredFrom(stored: seq<Event>, events: seq<Event>, rejected: set<Event>, log: seq<Event>)
    requires forall e :: e in stored ==> e in log
    requires forall e :: e in events ==> e in log
    ensures forall e :: e in Store(stored, events, rejected) ==> e in log
    decreases events
  {
    if events != [] {
      var e := events[0];
      StoredFrom(if e in rejected || Known(stored, DedupKey(e)) then stored else stored + [e], events[1..], rejected, log);
    }
  }

  /** Nothing vanishes: an event the server never stored is held, was rejected, or has a named fate. */
  lemma NothingVanishes(cfg: Config, actions: seq<Action>, e: Event)
    requires e in Run(cfg, actions).tracked
    ensures var w := Run(cfg, actions);
      || StoredOrRejected(w, e) || e in Live(w.client) || e in w.gone.refused || e in w.gone.fatal
      || e in w.gone.beaconed || e in w.gone.dropped || e in w.gone.discarded
  {
    var w := Run(cfg, actions);
    EveryEventInOnePlace(cfg, actions, e);
    ExactlyOnce(cfg, actions, e);
    if multiset(InFlight(w.client))[e] + multiset(w.client.queue)[e] > 0 {
      SplitMultiset(InFlight(w.client), w.client.queue);
      assert e in multiset(Live(w.client));
    }
  }

  predicate Dead(c: Client) { c.disabled && c.queue == [] && !c.flight.Sending? }

  /** One more step of a disabled client. */
  lemma DeadStays(w: World, cfg: Config, a: Action)
    requires Dead(w.client)
    ensures var w' := Next(w, cfg, a); Dead(w'.client) && w'.tracked == w.tracked && w'.requests == w.requests
  {
    assert Head(w.client, cfg) == [] && Rest(w.client, cfg) == [];
    match a
    case Flush(now) => assert !WouldSend(w.client, cfg, now);
    case Shutdown(now) => ShutdownIsCloseThenFlush(w, cfg, now);
    case _ =>
  }

  lemma RunDeadStays(cfg: Config, before: seq<Action>, a: Action)
    requires Dead(Run(cfg, before).client)
    ensures var w, w' := Run(cfg, before), Run(cfg, before + [a]);
      Dead(w'.client) && w'.tracked == w.tracked && w'.requests == w.requests
  {
    assert Run(cfg, before + [a]) == Next(Run(cfg, before), cfg, a) by { RunOneMore(cfg, before, a); }
    DeadStays(Run(cfg, before), cfg, a);
  }

  lemma {:induction false} DeadForever(cfg: Config, actions: seq<Action>, more: seq<Action>)
    requires Dead(Run(cfg, actions).client)
    ensures var w, w' := Run(cfg, actions), Run(cfg, actions + more);
      Dead(w'.client) && w'.tracked == w.tracked && w'.requests == w.requests
  {
    if more == [] {
      assert actions + more == actions;
    } else {
      var init, last := more[..|more| - 1], more[|more| - 1];
      DeadForever(cfg, actions, init);
      assert actions + more == (actions + init) + [last];
      RunDeadStays(cfg, actions + init, last);
    }
  }

  /** A fatal answer is final: whatever happens next, nothing is held, tracked or sent again. */
  lemma DisabledForever(cfg: Config, actions: seq<Action>, more: seq<Action>)
    requires Run(cfg, actions).client.disabled
    ensures var w, w' := Run(cfg, actions), Run(cfg, actions + more);
      w'.client.disabled && Live(w'.client) == [] && w'.tracked == w.tracked && w'.requests == w.requests
  {
    RunTransmitted(cfg, actions);
    DeadForever(cfg, actions, more);
  }

  lemma RunOneMore(cfg: Config, before: seq<Action>, a: Action)
    ensures Run(cfg, before + [a]) == Next(Run(cfg, before), cfg, a)
  {
    assert (before + [a])[..|before|] == before;
  }

  // ---- backing off --------------------------------------------------------------------------------------

  /** Failures without a Retry-After since the last success. */
  ghost function Failures(cfg: Config, actions: seq<Action>): nat {
    if actions == [] then 0
    else
      var before, a := actions[..|actions| - 1], actions[|actions| - 1];
      if a.Answer? && MayAnswer(Run(cfg, before), a.reply) then
        if Succeeds(a.reply) then 0
        else if MayHelpAgain(a.reply) && NamedTime(a.reply, a.now).None? then Failures(cfg, before) + 1
        else Failures(cfg, before)
      else Failures(cfg, before)
  }

  lemma OthersAttemptNothing(w: World, cfg: Config, a: Action)
    requires !a.Answer?
    ensures Next(w, cfg, a).client.attempt == w.client.attempt
  {
  }

  /** The attempts the client counts are its failures in a row, which only a success ends. */
  lemma {:induction false} AttemptsAreFailures(cfg: Config, actions: seq<Action>)
    ensures Run(cfg, actions).client.attempt == Failures(cfg, actions)
  {
    if actions != [] {
      var before, a := actions[..|actions| - 1], actions[|actions| - 1];
      AttemptsAreFailures(cfg, before);
      if a.Answer? {
        AnswerAttempts(Run(cfg, before), cfg, a);
      } else {
        OthersAttemptNothing(Run(cfg, before), cfg, a);
      }
    }
  }

  lemma AnswerAttempts(w: World, cfg: Config, a: Action)
    requires a.Answer?
    ensures Next(w, cfg, a).client.attempt ==
      if !MayAnswer(w, a.reply) then w.client.attempt
      else if Succeeds(a.reply) then 0
      else if MayHelpAgain(a.reply) && NamedTime(a.reply, a.now).None? then w.client.attempt + 1
      else w.client.attempt
  {
    if MayAnswer(w, a.reply) {
      if Succeeds(a.reply) {
        ItIsSettled(w, cfg, a.reply, a.now, a.jitter);
      } else if MayHelpAgain(a.reply) {
        ItIsSentAgain(w, cfg, a.reply, a.now, a.jitter);
      } else {
        ItIsFinal(w, cfg, a.reply, a.now, a.jitter);
      }
    }
  }

  /** The action is no beacon, and if it could send at all it comes before that time. */
  predicate Early(a: Action, until: real) {
    match a
    case Track(_, _, _, _, _, now) => now < until
    case Flush(now) => now < until
    case Shutdown(now) => now < until
    case Hide(_) => false
    case _ => true
  }

  predicate Paused(c: Client, until: real) { !c.flight.Sending? && c.pausedUntil >= until }

  lemma PauseStays(w: World, cfg: Config, a: Action, until: real)
    requires Paused(w.client, until) && Early(a, until)
    ensures Paused(Next(w, cfg, a).client, until) && Next(w, cfg, a).requests == w.requests
  {
    match a
    case Track(name, visitId, properties, key, at, now) =>
      var e := Event(name, visitId, w.client.person, at, key, properties);
      if !(w.client.closed || w.client.disabled || Known(w.tracked, (key, at))) {
        TrackIsPushThenFlush(w, cfg, e, now);
        FlushWaits(OnPush(w, cfg, e), cfg, now, until);
      }
    case Flush(now) => FlushWaits(w, cfg, now, until);
    case Shutdown(now) =>
      ShutdownIsCloseThenFlush(w, cfg, now);
      FlushWaits(Closed(w), cfg, now, until);
    case _ =>
  }

  lemma FlushWaits(w: World, cfg: Config, now: real, until: real)
    requires Paused(w.client, until) && now < until
    ensures Paused(OnFlush(w, cfg, now).client, until) && OnFlush(w, cfg, now).requests == w.requests
  {
  }

  /** More actions, from some world on. */
  function After(cfg: Config, w: World, more: seq<Action>): World {
    if more == [] then w else Next(After(cfg, w, more[..|more| - 1]), cfg, more[|more| - 1])
  }

  lemma {:induction false} PauseLasts(cfg: Config, w: World, more: seq<Action>, until: real)
    requires Paused(w.client, until) && forall i :: 0 <= i < |more| ==> Early(more[i], until)
    ensures Paused(After(cfg, w, more).client, until) && After(cfg, w, more).requests == w.requests
  {
    if more != [] {
      PauseLasts(cfg, w, more[..|more| - 1], until);
      PauseStays(After(cfg, w, more[..|more| - 1]), cfg, more[|more| - 1], until);
    }
  }

  /**
   * "The server said when. Believe it": after an answer that may be tried again, no request goes out
   * before the time the server named, or before the end of a jittered pause that doubles from half
   * a second to a minute with every failure in a row, whatever is tracked, flushed or shut down
   * meanwhile. Only a beacon may. This holds from any world on, and so from every reachable one.
   */
  lemma NothingIsSentBeforeThePauseEnds(cfg: Config, w: World, reply: Reply, now: real, jitter: real, more: seq<Action>)
    requires w.client.flight.Sending? && MayHelpAgain(reply)
    requires forall i :: 0 <= i < |more| ==> Early(more[i], BackAt(w.client.attempt + 1, reply, now, jitter))
    ensures After(cfg, Next(w, cfg, Answer(reply, now, jitter)), more).requests == w.requests
  {
    var w' := Next(w, cfg, Answer(reply, now, jitter));
    ItIsSentAgain(w, cfg, reply, now, jitter);
    AnswersSendNothing(w, cfg, reply, now, jitter);
    PauseLasts(cfg, w', more, BackAt(w.client.attempt + 1, reply, now, jitter));
  }

  lemma AnswersSendNothing(w: World, cfg: Config, reply: Reply, now: real, jitter: real)
    ensures Next(w, cfg, Answer(reply, now, jitter)).requests == w.requests
  {
  }

  // ---- what is reported, and what shutdown sends ---------------------------------------------------

  /** Events the `dropped` diagnostics mention. */
  function Reported(diagnostics: seq<Diagnostic>): int {
    if diagnostics == [] then 0
    else
      var last := diagnostics[|diagnostics| - 1];
      Reported(diagnostics[..|diagnostics| - 1]) + if last.DroppedEvents? then last.lost else 0
  }

  lemma ReportedAppend(diagnostics: seq<Diagnostic>, d: Diagnostic)
    ensures Reported(diagnostics + [d]) == Reported(diagnostics) + if d.DroppedEvents? then d.lost else 0
  {
    assert (diagnostics + [d])[..|diagnostics|] == diagnostics;
  }

  /** What returning a batch to a full queue drops in this step. */
  ghost function Overflow(w: World, cfg: Config, a: Action): nat {
    if a.Answer? && w.client.flight.Sending? && MayHelpAgain(a.reply) then
      Max(|w.client.flight.batch| + |w.client.queue| - cfg.capacity, 0)
    else 0
  }

  ghost function Overflows(cfg: Config, actions: seq<Action>): nat {
    if actions == [] then 0
    else
      var before := actions[..|actions| - 1];
      Overflows(cfg, before) + Overflow(Run(cfg, before), cfg, actions[|actions| - 1])
  }

  lemma PushReports(c: Client, cfg: Config, e: Event)
    ensures var c' := Pushed(c, cfg, e); c'.dropped - Reported(c'.diagnostics) == c.dropped - Reported(c.diagnostics)
  {
    ReportedAppend(c.diagnostics, DroppedEvents(Excess(|c.queue| + 1, cfg.capacity)));
  }

  lemma HandleReports(c: Client, cfg: Config, outcome: Outcome, now: real, jitter: real)
    requires c.flight.Sending?
    ensures var c' := Handled(c, cfg, outcome, now, jitter);
      c'.dropped - Reported(c'.diagnostics) ==
      c.dropped - Reported(c.diagnostics) + if outcome.Retry? then Excess(|c.flight.batch| + |c.queue|, cfg.capacity) else 0
  {
    if outcome.Accepted? {
      ReportedAppend(c.diagnostics, RejectedEvents(outcome.rejected));
    } else if outcome.Refused? {
      ReportedAppend(c.diagnostics, Disabled(outcome.status, |c.queue|));
      ReportedAppend(c.diagnostics, RefusedBatch(outcome.status));
    }
  }

  predicate SameDrops(c: Client, c': Client) { c'.dropped == c.dropped && c'.diagnostics == c.diagnostics }

  lemma TrackReports(c: Client, cfg: Config, e: Event, now: real)
    ensures var c' := Tracked(c, cfg, e, now); c'.dropped - Reported(c'.diagnostics) == c.dropped - Reported(c.diagnostics)
  {
    if !c.closed && !c.disabled {
      PushReports(c, cfg, e);
      assert SameDrops(Pushed(c, cfg, e), Tracked(c, cfg, e, now));
    }
  }

  lemma OthersDropNothing(w: World, cfg: Config, a: Action)
    requires Bounded(w.client, cfg) && !a.Track? && !a.Answer?
    ensures SameDrops(w.client, Next(w, cfg, a).client)
  {
    if a.Hide? { HideCases(w, cfg, a.beacon); }
  }

  lemma StepReports(w: World, cfg: Config, a: Action)
    requires Bounded(w.client, cfg)
    ensures var c, c' := w.client, Next(w, cfg, a).client;
      c'.dropped - Reported(c'.diagnostics) == c.dropped - Reported(c.diagnostics) + Overflow(w, cfg, a)
  {
    if a.Track? {
      TrackReports(w.client, cfg, Event(a.name, a.visitId, w.client.person, a.at, a.key, a.properties), a.now);
    } else if a.Answer? {
      ClassifiedAs(a.reply, a.now);
      if MayAnswer(w, a.reply) { HandleReports(w.client, cfg, Classify(a.reply, a.now), a.now, a.jitter); }
    } else {
      OthersDropNothing(w, cfg, a);
    }
  }

  /**
   * Drops are reported only where `track` makes them. Over any run the drop counter exceeds
   * what was reported by exactly what returning failed batches to a full queue dropped, so the
   * two agree if and only if no returned batch ever overflowed the queue.
   */
  lemma {:induction false} SilentDropsAreTheOverflows(cfg: Config, actions: seq<Action>)
    ensures var c := Run(cfg, actions).client; c.dropped == Reported(c.diagnostics) + Overflows(cfg, actions)
    ensures var c := Run(cfg, actions).client; c.dropped == Reported(c.diagnostics) <==> Overflows(cfg, actions) == 0
  {
    if actions != [] {
      var before := actions[..|actions| - 1];
      SilentDropsAreTheOverflows(cfg, before);
      RunAccounted(cfg, before);
      StepReports(Run(cfg, before), cfg, actions[|actions| - 1]);
    }
  }

  lemma OverflowsOneMore(cfg: Config, before: seq<Action>, a: Action)
    ensures Overflows(cfg, before + [a]) == Overflows(cfg, before) + Overflow(Run(cfg, before), cfg, a)
  {
    assert (before + [a])[..|before|] == before;
  }

  /** With room for one event and batches of one, the first track is sent at once. */
  lemma FirstIsSent(e: Event)
    ensures var w := OnTrack(START, Config(1, 1), e, 0.0);
      w.client == INITIAL.(flight := Sending([e])) && w.tracked == [e]
  {
    var pushed := Pushed(INITIAL, Config(1, 1), e);
    assert pushed == INITIAL.(queue := [e]);
    assert Head(pushed, Config(1, 1)) == [e] && Rest(pushed, Config(1, 1)) == [];
  }

  /** The next one waits in the queue. */
  lemma SecondWaits(w: World, e: Event, f: Event)
    requires w.client == INITIAL.(flight := Sending([e]))
    ensures OnTrack(w, Config(1, 1), f, 0.0).client == w.client.(queue := [f])
  {
    assert Pushed(w.client, Config(1, 1), f) == w.client.(queue := [f]);
  }

  lemma TrackedFrom(w: World, cfg: Config, name: string, key: string)
    requires !w.client.closed && !w.client.disabled && w.client.person.None? && !Known(w.tracked, (key, 0))
    ensures Next(w, cfg, Track(name, "v", None, key, 0, 0.0)) ==
      OnTrack(w, cfg, Event(name, "v", None, 0, key, None), 0.0)
  {
  }

  lemma OneOnTheWire(a: Action, e: Event)
    requires a == Track("a", "v", None, "k1", 0, 0.0) && e == Event("a", "v", None, 0, "k1", None)
    ensures var w := Run(Config(1, 1), [] + [a]); w.client == INITIAL.(flight := Sending([e])) && w.tracked == [e]
  {
    RunOneMore(Config(1, 1), [], a);
    TrackedFrom(START, Config(1, 1), "a", "k1");
    FirstIsSent(e);
  }

  lemma OneBehindIt(before: seq<Action>, b: Action, e: Event, f: Event)
    requires b == Track("b", "v", None, "k2", 0, 0.0) && f == Event("b", "v", None, 0, "k2", None) &&
      e.idempotencyKey == "k1"
    requires var w := Run(Config(1, 1), before); w.client == INITIAL.(flight := Sending([e])) && w.tracked == [e]
    ensures Run(Config(1, 1), before + [b]).client == INITIAL.(flight := Sending([e]), queue := [f])
  {
    RunOneMore(Config(1, 1), before, b);
    assert !Known([e], ("k2", 0)) by { assert DedupKey(e).0[1] == '1'; }
    TrackedFrom(Run(Config(1, 1), before), Config(1, 1), "b", "k2");
    SecondWaits(Run(Config(1, 1), before), e, f);
  }

  /** A run that drops silently: one event on the wire, one queued, room for one, a lost request. */
  lemma ADropNobodyHearsOf()
    ensures var a, b := Track("a", "v", None, "k1", 0, 0.0), Track("b", "v", None, "k2", 0, 0.0);
      Overflows(Config(1, 1), [] + [a] + [b] + [Answer(NetworkError, 0.0, 0.0)]) == 1
  {
    var cfg := Config(1, 1);
    var a, b, lost := Track("a", "v", None, "k1", 0, 0.0), Track("b", "v", None, "k2", 0, 0.0), Answer(NetworkError, 0.0, 0.0);
    var e, f := Event("a", "v", None, 0, "k1", None), Event("b", "v", None, 0, "k2", None);
    OneOnTheWire(a, e);
    OneBehindIt([] + [a], b, e, f);
    OverflowsOneMore(cfg, [], a);
    OverflowsOneMore(cfg, [] + [a], b);
    OverflowsOneMore(cfg, [] + [a] + [b], lost);
  }

  /**
   * "Shutdown flushes what is queued" holds exactly when the queue fits one batch and the flush
   * may start one: no other flush under way, not paused, not disabled.
   */
  lemma ShutdownEmptiesTheQueueIff(c: Client, cfg: Config, now: real)
    ensures ShutDown(c, cfg, now).queue == [] <==>
      c.queue == [] ||
      (c.flight.Idle? && !c.disabled && now >= c.pausedUntil && |c.queue| <= cfg.maxBatch)
    ensures ShutDown(c, cfg, now).queue == [] && c.queue != [] ==> ShutDown(c, cfg, now).flight == Sending(c.queue)
  {
    if c.queue != [] && WouldSend(c, cfg, now) {
      assert |Rest(c, cfg)| == |c.queue| - Spliced(cfg.maxBatch, |c.queue|);
      if |c.queue| <= cfg.maxBatch { assert Head(c, cfg) == c.queue; }
    }
  }
}
