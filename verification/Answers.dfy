/**
 * What each answer of the server does to the batch on the wire, from the status, the envelope and
 * the Retry-After header as they arrive: sent again, settled, refused, or the end of the client.
 */
module Answers {
  import opened Common
  import opened Contract
  import opened EventQueues
  import opened SdkClient
  import opened Delivery
  import opened DeliveryProof

  ghost predicate Succeeds(reply: Reply) { reply.Response? && 200 <= reply.status <= 299 }

  /** Nothing was heard, or the server says to try again, or it says nothing and the status is a passing one. */
  ghost predicate MayHelpAgain(reply: Reply) {
    || reply.NetworkError?
    || (!Succeeds(reply) && reply.retryable == Some(true))
    || (!Succeeds(reply) && reply.retryable == None && reply.status in {408, 425, 429, 500, 502, 503, 504})
  }

  ghost predicate IsFinal(reply: Reply) { !Succeeds(reply) && !MayHelpAgain(reply) }

  ghost predicate BadCredential(reply: Reply) { IsFinal(reply) && (reply.status == 401 || reply.status == 403) }

  /** The time a Retry-After header names: so many seconds from now, or a date, which may be over. */
  ghost function NamedTime(reply: Reply, now: real): Option<real> {
    if reply.NetworkError? || reply.retryAfter.None? then None
    else
      var header := reply.retryAfter.value;
      if header.number.Some? && header.number.value >= 0.0 then Some(now + 1000.0 * header.number.value)
      else if header.date.Some? then Some(if header.date.value < now then now else header.date.value)
      else None
  }

  /** When the client is back after its n-th failure in a row: when told, or after a jittered wait of at most a minute. */
  ghost function BackAt(failures: nat, reply: Reply, now: real, jitter: real): real
    requires failures >= 1
  {
    if NamedTime(reply, now).Some? then NamedTime(reply, now).value
    else now + jitter * LongestWait(failures) as real
  }

  /** The newest of these events, as many as there is room for; the rest, which are older, are `lost`. */
  ghost predicate NewestKept(all: seq<Event>, lost: seq<Event>, kept: seq<Event>, capacity: int) {
    all == lost + kept && |kept| == Min(|all|, Max(capacity, 0))
  }

  lemma KeptIsNewest(all: seq<Event>, capacity: int)
    ensures NewestKept(all, Lost(all, capacity), Kept(all, capacity), capacity)
  {
  }

  /** How an answer is classified, in its own terms. */
  lemma ClassifiedAs(reply: Reply, now: real)
    ensures Classify(reply, now).Accepted? <==> Succeeds(reply)
    ensures Classify(reply, now).Retry? <==> MayHelpAgain(reply)
    ensures Classify(reply, now).Refused? ==> IsFinal(reply) && Classify(reply, now).status == reply.status
    ensures Classify(reply, now).Accepted? ==> Classify(reply, now).rejected == reply.rejected
    ensures Classify(reply, now).Retry? ==>
      match Classify(reply, now).retryAfterMs
      case None => NamedTime(reply, now) == None
      case Some(wait) => NamedTime(reply, now) == Some(now + wait)
  {
  }

  /**
   * An answer after which sending again may help: the batch goes back in front of the queue, of
   * which the newest events are kept, and nothing is refused; the client pauses, until the time the
   * server named or by backing off.
   */
  lemma ItIsSentAgain(w: World, cfg: Config, reply: Reply, now: real, jitter: real)
    requires w.client.flight.Sending? && MayHelpAgain(reply)
    ensures var c, c', g, g' := w.client, Next(w, cfg, Answer(reply, now, jitter)).client, w.gone, Next(w, cfg, Answer(reply, now, jitter)).gone;
      && (exists lost :: NewestKept(c.flight.batch + c.queue, lost, c'.queue, cfg.capacity) && g' == g.(dropped := g.dropped + multiset(lost)))
      && !c'.flight.Sending? && c'.disabled == c.disabled
      && c'.attempt == (if NamedTime(reply, now).None? then c.attempt + 1 else c.attempt)
      && c'.pausedUntil == BackAt(c.attempt + 1, reply, now, jitter)
  {
    ClassifiedAs(reply, now);
    CeilingIsTheLongestWait(w.client.attempt + 1);
    KeptIsNewest(w.client.flight.batch + w.client.queue, cfg.capacity);
  }

  /**
   * A success settles the batch, tells how many of its events were rejected, forgets the failures,
   * and leaves the queue and the pause alone.
   */
  lemma ItIsSettled(w: World, cfg: Config, reply: Reply, now: real, jitter: real)
    requires MayAnswer(w, reply) && Succeeds(reply)
    ensures var c, w' := w.client, Next(w, cfg, Answer(reply, now, jitter));
      && w'.gone == w.gone.(settled := w.gone.settled + multiset(c.flight.batch))
      && w'.client.queue == c.queue && w'.client.attempt == 0 && w'.client.pausedUntil == c.pausedUntil
      && !w'.client.flight.Sending? && w'.client.disabled == c.disabled
      && w'.client.diagnostics == c.diagnostics + (if reply.rejected == 0 then [] else [RejectedEvents(reply.rejected)])
  {
    ClassifiedAs(reply, now);
  }

  /**
   * An answer that is final: the batch is refused and the next one may be fine; or, if the
   * credential is bad, the queue goes as well and the client is disabled. Either is told.
   */
  lemma ItIsFinal(w: World, cfg: Config, reply: Reply, now: real, jitter: real)
    requires w.client.flight.Sending? && IsFinal(reply)
    ensures var c, w' := w.client, Next(w, cfg, Answer(reply, now, jitter));
      && !w'.client.flight.Sending? && w'.client.pausedUntil == c.pausedUntil && w'.client.attempt == c.attempt
      && (BadCredential(reply) ==>
            && w'.client.disabled && w'.client.queue == []
            && w'.client.diagnostics == c.diagnostics + [Disabled(reply.status, |c.queue|)]
            && w'.gone == w.gone.(fatal := w.gone.fatal + multiset(c.flight.batch), discarded := w.gone.discarded + multiset(c.queue)))
      && (!BadCredential(reply) ==>
            && w'.client.disabled == c.disabled && w'.client.queue == c.queue
            && w'.client.diagnostics == c.diagnostics + [RefusedBatch(reply.status)]
            && w'.gone == w.gone.(refused := w.gone.refused + multiset(c.flight.batch)))
  {
    ClassifiedAs(reply, now);
  }

  // ---- over runs --------------------------------------------------------------------------------------

  /** Some answer of the run refused a credential. */
  ghost predicate EverRefused(cfg: Config, actions: seq<Action>) {
    exists i :: 0 <= i < |actions| && actions[i].Answer? && BadCredential(actions[i].reply)
      && Run(cfg, actions[..i]).client.flight.Sending?
  }

  lemma OthersDisableNothing(w: World, cfg: Config, a: Action)
    requires !a.Answer?
    ensures Next(w, cfg, a).client.disabled == w.client.disabled
  {
  }

  lemma AnswerDisables(w: World, cfg: Config, a: Action)
    requires a.Answer?
    ensures Next(w, cfg, a).client.disabled == (w.client.disabled || (w.client.flight.Sending? && BadCredential(a.reply)))
  {
    if MayAnswer(w, a.reply) {
      if Succeeds(a.reply) {
        ItIsSettled(w, cfg, a.reply, a.now, a.jitter);
      } else if MayHelpAgain(a.reply) {
        ItIsSentAgain(w, cfg, a.reply, a.now, a.jitter);
      } else {
        ItIsFinal(w, cfg, a.reply, a.now, a.jitter);
      }
    }
  }

  /** A client is disabled exactly when a 401 or 403, not called passing by the server, has answered one of its batches. */
  lemma {:induction false} DisabledIff(cfg: Config, actions: seq<Action>)
    ensures Run(cfg, actions).client.disabled <==> EverRefused(cfg, actions)
  {
    if actions != [] {
      var before, a := actions[..|actions| - 1], actions[|actions| - 1];
      DisabledIff(cfg, before);
      forall i | 0 <= i < |before| ensures before[..i] == actions[..i] {}
      if a.Answer? {
        AnswerDisables(Run(cfg, before), cfg, a);
      } else {
        OthersDisableNothing(Run(cfg, before), cfg, a);
      }
      if EverRefused(cfg, before) {
        var i :| 0 <= i < |before| && before[i].Answer? && BadCredential(before[i].reply) && Run(cfg, before[..i]).client.flight.Sending?;
        assert actions[i] == before[i] && actions[..i] == before[..i];
      }
      if EverRefused(cfg, actions) {
        var i :| 0 <= i < |actions| && actions[i].Answer? && BadCredential(actions[i].reply) && Run(cfg, actions[..i]).client.flight.Sending?;
        if i < |before| { assert actions[i] == before[i] && actions[..i] == before[..i]; }
      }
    }
  }

  /** What was refused stays refused. */
  ghost predicate Refused(w: World, e: Event) { w.gone.refused[e] + w.gone.fatal[e] > 0 }

  lemma RefusedStays(w: World, cfg: Config, a: Action, e: Event)
    requires Refused(w, e)
    ensures Refused(Next(w, cfg, a), e)
  {
  }

  /** In one place only: refused, and so neither held nor on its way. */
  lemma RefusedIsNotHeld(w: World, cfg: Config, e: Event)
    requires Accounted(w, cfg) && Refused(w, e)
    ensures e !in InFlight(w.client) && w.gone.beaconed[e] == 0
  {
    UniqueMultiset(w.tracked);
    var held := multiset(InFlight(w.client));
    assert multiset(w.tracked)[e] == Held(w.client)[e] + w.gone.All()[e];
    assert e in InFlight(w.client) <==> e in held;
  }

  /** A step that transmits puts the batch on the wire, or hands it to a beacon. */
  lemma TransmissionShows(w: World, cfg: Config, a: Action)
    requires Bounded(w.client, cfg)
    ensures var w' := Next(w, cfg, a);
      w'.requests == w.requests
      || (|w'.requests| == |w.requests| + 1 && w.requests <= w'.requests &&
          forall e :: e in w'.requests[|w.requests|] ==> e in InFlight(w'.client) || w'.gone.beaconed[e] > 0)
  {
    if a.Hide? && !w.client.closed { HideCases(w, cfg, a.beacon); }
  }

  lemma NotAmongTheNew(w: World, w': World, cfg: Config, e: Event)
    requires Accounted(w', cfg) && Refused(w', e)
    requires w'.requests == w.requests
      || (|w'.requests| == |w.requests| + 1 && w.requests <= w'.requests &&
          forall x :: x in w'.requests[|w.requests|] ==> x in InFlight(w'.client) || w'.gone.beaconed[x] > 0)
    ensures w.requests <= w'.requests && forall r :: |w.requests| <= r < |w'.requests| ==> e !in w'.requests[r]
  {
    RefusedIsNotHeld(w', cfg, e);
  }

  lemma StepLeavesOut(w: World, w': World, cfg: Config, a: Action, e: Event)
    requires Accounted(w, cfg) && Refused(w, e) && w' == Next(w, cfg, a)
    ensures Refused(w', e) && w.requests <= w'.requests && forall r :: |w.requests| <= r < |w'.requests| ==> e !in w'.requests[r]
  {
    assert Refused(w', e) by { RefusedStays(w, cfg, a, e); }
    assert Accounted(w', cfg) by { StepAccounted(w, cfg, a); }
    TransmissionShows(w, cfg, a);
    NotAmongTheNew(w, w', cfg, e);
  }

  /** Once refused, an event is in no later request, whatever follows; only the network may repeat the old ones. */
  lemma {:induction false} RefusedIsNeverSentAgain(cfg: Config, actions: seq<Action>, more: seq<Action>, e: Event)
    requires Refused(Run(cfg, actions), e)
    ensures var w, w' := Run(cfg, actions), Run(cfg, actions + more);
      Refused(w', e) && w.requests <= w'.requests && forall r :: |w.requests| <= r < |w'.requests| ==> e !in w'.requests[r]
  {
    if more == [] {
      assert actions + more == actions;
    } else {
      var init := more[..|more| - 1];
      assert (actions + more)[..|actions + more| - 1] == actions + init;
      RefusedIsNeverSentAgain(cfg, actions, init, e);
      RunAccounted(cfg, actions + init);
      StepLeavesOut(Run(cfg, actions + init), Run(cfg, actions + more), cfg, more[|more| - 1], e);
    }
  }
}
