/**
 * What each answer does to a batch of the Go or Rust client, from the status, the envelope and the
 * header as they arrive; how long the client then pauses; and what tracking and flushing do.
 */
module LockedAnswers {
  import opened Common
  import opened Contract
  import opened LockedClient
  import opened LockedRuns

  ghost predicate Succeeds(reply: Reply) { reply.Response? && 200 <= reply.status <= 299 }

  /** Nothing was heard, or the server says to try again, or it says nothing and the status is a passing one. */
  ghost predicate MayHelpAgain(reply: Reply) {
    || reply.NoReply?
    || (!Succeeds(reply) && reply.retryable == Some(true))
    || (!Succeeds(reply) && reply.retryable == None && reply.status in {408, 425, 429, 500, 502, 503, 504})
  }

  ghost predicate IsFinal(reply: Reply) { !Succeeds(reply) && !MayHelpAgain(reply) }

  ghost predicate BadCredential(reply: Reply) { IsFinal(reply) && (reply.status == 401 || reply.status == 403) }

  /** The pause the server asks for, if it does. */
  ghost function AskedPause(reply: Reply): Option<int> { if reply.NoReply? then None else reply.retryAfterMs }

  /** The newest of these events, as many as there is room for; the rest, which are older, are `lost`. */
  ghost predicate NewestKept(all: seq<nat>, lost: seq<nat>, kept: seq<nat>, bound: nat) {
    all == lost + kept && |kept| == Min(|all|, bound)
  }

  /** What is noted of a loss. */
  ghost function NoteOf(lost: seq<nat>): seq<Note> { if lost == [] then [] else [Dropped(|lost|)] }

  lemma TrimmedIsNewest(s: Shared<nat>, bound: nat)
    ensures var lost, s' := Overflowing(s.buffer, bound), Trimmed(s, bound);
      && NewestKept(s.buffer, lost, s'.buffer, bound)
      && s' == s.(buffer := s'.buffer, notes := s.notes + NoteOf(lost))
  {
    assert s.notes + [] == s.notes;
  }

  lemma ClassifiedAs(reply: Reply)
    ensures LockedRuns.Ok(reply) <==> Succeeds(reply)
    ensures !Succeeds(reply) ==> (Retryable(reply) <==> MayHelpAgain(reply))
    ensures IsFinal(reply) ==> (reply.status in FATAL_STATUSES <==> BadCredential(reply))
  {
  }

  /** A batch of which some may be lost is back in front of the buffer. */
  ghost predicate IsBack(w: World, w': World, cfg: Config, batch: seq<nat>, lost: seq<nat>) {
    && NewestKept(batch + w.shared.buffer, lost, w'.shared.buffer, cfg.maxBuffer)
    && w'.shared == w.shared.(buffer := w'.shared.buffer, notes := w.shared.notes + NoteOf(lost))
    && w'.gone == w.gone.(dropped := w.gone.dropped + multiset(lost))
  }

  /** An answer after which sending again may help: the batch is back, and the thread is about to pause. */
  lemma ItIsSentAgain(w: World, cfg: Config, t: nat, reply: Reply)
    requires t < |w.threads| && w.threads[t].OnWire? && MayHelpAgain(reply)
    ensures var w' := Next(w, cfg, Answer(t, reply));
      && (exists lost :: IsBack(w, w', cfg, w.threads[t].batch, lost))
      && w'.threads == w.threads[t := Pausing(AskedPause(reply))]
  {
    var batch, w' := w.threads[t].batch, Next(w, cfg, Answer(t, reply));
    ClassifiedAs(reply);
    TrimmedIsNewest(w.shared.(buffer := batch + w.shared.buffer), cfg.maxBuffer);
    assert IsBack(w, w', cfg, batch, Overflowing(batch + w.shared.buffer, cfg.maxBuffer));
  }

  /** A success settles the batch, notes what was rejected, and forgets the failures. */
  lemma ItIsSettled(w: World, cfg: Config, t: nat, reply: Reply)
    requires t < |w.threads| && w.threads[t].OnWire? && Succeeds(reply)
    ensures var w' := Next(w, cfg, Answer(t, reply));
      && w'.gone == w.gone.(settled := w.gone.settled + multiset(w.threads[t].batch)) && w'.threads == w.threads[t := Done]
      && w'.shared == w.shared.(attempt := 0,
           notes := w.shared.notes + (if reply.rejected == 0 then [] else [Rejected(reply.rejected)]))
  {
    ClassifiedAs(reply);
    assert w.shared.notes + [] == w.shared.notes;
  }

  /** A final answer refuses the batch; a bad credential empties the buffer and disables the client. Either is noted. */
  lemma ItIsFinal(w: World, cfg: Config, t: nat, reply: Reply)
    requires t < |w.threads| && w.threads[t].OnWire? && IsFinal(reply)
    ensures var w', batch := Next(w, cfg, Answer(t, reply)), multiset(w.threads[t].batch);
      && w'.threads == w.threads[t := Done]
      && if BadCredential(reply) then
           && w'.shared == w.shared.(buffer := [], disabled := true, notes := w.shared.notes + [DisabledNote(reply.status, |w.shared.buffer|)])
           && w'.gone == w.gone.(fatal := w.gone.fatal + batch, discarded := w.gone.discarded + multiset(w.shared.buffer))
         else
           && w'.shared == w.shared.(notes := w.shared.notes + [RefusedNote(reply.status)])
           && w'.gone == w.gone.(refused := w.gone.refused + batch)
  {
    ClassifiedAs(reply);
  }

  /** The pause that follows: for as long as was asked, or a jittered part of the longest wait, in whole milliseconds. */
  lemma ThePauseIs(w: World, cfg: Config, t: nat, now: int, jitter: real)
    requires t < |w.threads| && w.threads[t].Pausing?
    ensures var w', asked := Next(w, cfg, Pause(t, now, jitter)), w.threads[t].after;
      && w'.threads == w.threads[t := Done] && w'.gone == w.gone
      && w'.shared == w.shared.(pausedUntil := w'.shared.pausedUntil, attempt := w'.shared.attempt)
      && w'.shared.attempt == (if asked.Some? then w.shared.attempt else w.shared.attempt + 1)
      && if asked.Some? then w'.shared.pausedUntil == now + asked.value
         else
           var wait := jitter * LongestWait(w.shared.attempt + 1) as real;
           w'.shared.pausedUntil as real <= now as real + wait < w'.shared.pausedUntil as real + 1.0
  {
    CeilingIsTheLongestWait(w.shared.attempt + 1);
  }

  /** A flush takes the oldest events, as many as a batch holds, unless the client is disabled or paused. */
  lemma FlushTakes(w: World, cfg: Config, now: int)
    ensures var w' := Next(w, cfg, Flush(now));
      if w.shared.disabled || now < w.shared.pausedUntil || w.shared.buffer == [] || cfg.maxBatch == 0 then w' == w
      else
        && w'.threads != [] && w'.threads[|w'.threads| - 1].OnWire? && w'.threads[..|w'.threads| - 1] == w.threads
        && w.shared.buffer == w'.threads[|w'.threads| - 1].batch + w'.shared.buffer
        && |w'.threads[|w'.threads| - 1].batch| == Min(|w.shared.buffer|, cfg.maxBatch)
        && w'.shared == w.shared.(buffer := w'.shared.buffer) && w'.gone == w.gone
  {
  }

  /** The new event is at the back, and what that pushes out is lost and noted. */
  ghost predicate HasTracked(w: World, w': World, cfg: Config, lost: seq<nat>) {
    && NewestKept(w.shared.buffer + [w.tracked], lost, w'.shared.buffer, cfg.maxBuffer)
    && w'.shared == w.shared.(buffer := w'.shared.buffer, notes := w.shared.notes + NoteOf(lost))
    && w' == w.(shared := w'.shared, tracked := w.tracked + 1, gone := w.gone.(dropped := w.gone.dropped + multiset(lost)))
  }

  /** A new event goes to the back and the newest are kept; a closed or disabled client ignores it. */
  lemma TrackKeepsTheNewest(w: World, cfg: Config)
    ensures var w' := Next(w, cfg, Track);
      if w.shared.closed || w.shared.disabled then w' == w else exists lost :: HasTracked(w, w', cfg, lost)
    ensures w.shared.closed || w.shared.disabled ==> Tracked(w.shared, cfg.maxBuffer, w.tracked) == w.shared
  {
    var all, w' := w.shared.buffer + [w.tracked], Next(w, cfg, Track);
    TrimmedIsNewest(w.shared.(buffer := all), cfg.maxBuffer);
    assert w.shared.closed || w.shared.disabled || HasTracked(w, w', cfg, Overflowing(all, cfg.maxBuffer));
  }

  // ---- over runs --------------------------------------------------------------------------------------

  /** Backoffs since the last success, each counted when it is set. */
  ghost function Failures(cfg: Config, actions: seq<Action>): nat {
    if actions == [] then 0
    else
      var before, a := actions[..|actions| - 1], actions[|actions| - 1];
      var threads := LockedRuns.Run(cfg, before).threads;
      if a.Answer? && a.thread < |threads| && threads[a.thread].OnWire? && Succeeds(a.reply) then 0
      else if a.Pause? && a.thread < |threads| && threads[a.thread] == Pausing(None) then Failures(cfg, before) + 1
      else Failures(cfg, before)
  }

  lemma AttemptStep(w: World, cfg: Config, a: Action)
    ensures Next(w, cfg, a).shared.attempt ==
      if a.Answer? && a.thread < |w.threads| && w.threads[a.thread].OnWire? && Succeeds(a.reply) then 0
      else if a.Pause? && a.thread < |w.threads| && w.threads[a.thread] == Pausing(None) then w.shared.attempt + 1
      else w.shared.attempt
  {
    if a.Answer? && a.thread < |w.threads| && w.threads[a.thread].OnWire? {
      if Succeeds(a.reply) {
        ItIsSettled(w, cfg, a.thread, a.reply);
      } else if MayHelpAgain(a.reply) {
        ItIsSentAgain(w, cfg, a.thread, a.reply);
      } else {
        ItIsFinal(w, cfg, a.thread, a.reply);
      }
    }
  }

  /** Under every interleaving the attempts counted are the backoffs since the last success. */
  lemma {:induction false} AttemptsAreFailures(cfg: Config, actions: seq<Action>)
    ensures LockedRuns.Run(cfg, actions).shared.attempt == Failures(cfg, actions)
  {
    if actions != [] {
      AttemptsAreFailures(cfg, actions[..|actions| - 1]);
      AttemptStep(LockedRuns.Run(cfg, actions[..|actions| - 1]), cfg, actions[|actions| - 1]);
    }
  }

  /** Some answer of the run refused a credential. */
  ghost predicate RefusedAt(cfg: Config, actions: seq<Action>, i: nat)
    requires i < |actions|
  {
    var a, threads := actions[i], LockedRuns.Run(cfg, actions[..i]).threads;
    a.Answer? && a.thread < |threads| && threads[a.thread].OnWire? && BadCredential(a.reply)
  }

  lemma DisabledStep(w: World, cfg: Config, a: Action)
    ensures Next(w, cfg, a).shared.disabled ==
      (w.shared.disabled || (a.Answer? && a.thread < |w.threads| && w.threads[a.thread].OnWire? && BadCredential(a.reply)))
  {
    if a.Answer? && a.thread < |w.threads| && w.threads[a.thread].OnWire? {
      if Succeeds(a.reply) {
        ItIsSettled(w, cfg, a.thread, a.reply);
      } else if MayHelpAgain(a.reply) {
        ItIsSentAgain(w, cfg, a.thread, a.reply);
      } else {
        ItIsFinal(w, cfg, a.thread, a.reply);
      }
    }
  }

  /** A client is disabled exactly when a 401 or 403, not called passing by the server, has answered one of its batches. */
  lemma {:induction false} DisabledIff(cfg: Config, actions: seq<Action>)
    ensures LockedRuns.Run(cfg, actions).shared.disabled <==> exists i: nat :: i < |actions| && RefusedAt(cfg, actions, i)
  {
    if actions != [] {
      var before := actions[..|actions| - 1];
      DisabledIff(cfg, before);
      DisabledStep(LockedRuns.Run(cfg, before), cfg, actions[|actions| - 1]);
      forall i: nat | i < |before| ensures RefusedAt(cfg, before, i) <==> RefusedAt(cfg, actions, i) {
        assert before[..i] == actions[..i] && before[i] == actions[i];
      }
      assert actions[..|before|] == before;
      if LockedRuns.Run(cfg, actions).shared.disabled && !LockedRuns.Run(cfg, before).shared.disabled {
        assert RefusedAt(cfg, actions, |before|);
      }
    }
  }

  /** Once closed, nothing more is tracked, on any thread. */
  lemma {:induction false} ClosedTracksNothing(w: World, cfg: Config, actions: seq<Action>)
    requires w.shared.closed
    ensures From(w, cfg, actions).shared.closed && From(w, cfg, actions).tracked == w.tracked
  {
    if actions != [] {
      ClosedTracksNothing(w, cfg, actions[..|actions| - 1]);
      ClosedStays(From(w, cfg, actions[..|actions| - 1]), cfg, actions[|actions| - 1]);
    }
  }

  lemma ClosedStays(w: World, cfg: Config, a: Action)
    requires w.shared.closed
    ensures Next(w, cfg, a).shared.closed && Next(w, cfg, a).tracked == w.tracked
  {
  }
}
