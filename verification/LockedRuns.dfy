/**
 * Every interleaving of the Go or Rust client's critical sections, with any number of batches on
 * the wire. Events are named by their track number. Returning a failed batch and setting the
 * pause are two critical sections, so other threads may run in between.
 */
module LockedRuns {
  import opened Common
  import opened Contract
  import opened LockedClient

  /** What a flushing thread has left to do. */
  datatype Thread = OnWire(batch: seq<nat>) | Pausing(after: Option<int>) | Done

  datatype Reply =
    | NoReply
    | Response(status: int, retryable: Option<bool>, retryAfterMs: Option<int>, rejected: nat)

  predicate Retryable(reply: Reply) {
    reply.NoReply? ||
    if reply.retryable.Some? then reply.retryable.value else reply.status in RETRYABLE_STATUSES
  }

  datatype Fates = Fates(
    settled: multiset<nat>, refused: multiset<nat>, fatal: multiset<nat>,
    dropped: multiset<nat>, discarded: multiset<nat>)
  {
    /** How often event `k` met one of these fates. */
    function Of(k: nat): nat { settled[k] + refused[k] + fatal[k] + dropped[k] + discarded[k] }
  }

  datatype World = World(
    shared: Shared<nat>, threads: seq<Thread>, tracked: nat, gone: Fates, taken: seq<Note>)

  datatype Config = Config(maxBatch: nat, maxBuffer: nat)

  const START := World(Fresh(), [], 0, Fates(multiset{}, multiset{}, multiset{}, multiset{}, multiset{}), [])

  datatype Action =
    | Track
    | Flush(now: int)
    | Answer(thread: nat, reply: Reply)
    | Pause(thread: nat, now: int, jitter: real)
    | Close
    | TakeDiagnostics

  predicate Ok(reply: Reply) { reply.Response? && 200 <= reply.status < 300 }

  function OnTrack(w: World, cfg: Config): World {
    if w.shared.closed || w.shared.disabled then w
    else
      var lost := Overflowing(w.shared.buffer + [w.tracked], cfg.maxBuffer);
      w.(shared := Tracked(w.shared, cfg.maxBuffer, w.tracked), tracked := w.tracked + 1,
         gone := w.gone.(dropped := w.gone.dropped + multiset(lost)))
  }

  function OnFlush(w: World, cfg: Config, now: int): World {
    var take := Taken(w.shared, cfg.maxBatch, now);
    if take == 0 then w
    else
      w.(shared := w.shared.(buffer := w.shared.buffer[take..]),
         threads := w.threads + [OnWire(w.shared.buffer[..take])])
  }

  function OnAnswer(w: World, cfg: Config, t: nat, reply: Reply): World
    requires t < |w.threads| && w.threads[t].OnWire?
  {
    var batch := w.threads[t].batch;
    if Ok(reply) then
      w.(shared := Accepted(w.shared, reply.rejected), threads := w.threads[t := Done],
         gone := w.gone.(settled := w.gone.settled + multiset(batch)))
    else if Retryable(reply) then
      var lost := Overflowing(batch + w.shared.buffer, cfg.maxBuffer);
      w.(shared := Requeued(w.shared, cfg.maxBuffer, batch),
         threads := w.threads[t := Pausing(if reply.Response? then reply.retryAfterMs else None)],
         gone := w.gone.(dropped := w.gone.dropped + multiset(lost)))
    else
      w.(shared := RefusedBy(w.shared, reply.status), threads := w.threads[t := Done],
         gone := if reply.status in FATAL_STATUSES
                 then w.gone.(fatal := w.gone.fatal + multiset(batch), discarded := w.gone.discarded + multiset(w.shared.buffer))
                 else w.gone.(refused := w.gone.refused + multiset(batch)))
  }

  function OnPause(w: World, t: nat, now: int, jitter: real): World
    requires t < |w.threads| && w.threads[t].Pausing?
  {
    var after := w.threads[t].after;
    w.(shared := if after.Some? then w.shared.(pausedUntil := now + after.value) else BackedOff(w.shared, now, jitter),
       threads := w.threads[t := Done])
  }

  function Next(w: World, cfg: Config, a: Action): World {
    match a
    case Track => OnTrack(w, cfg)
    case Flush(now) => OnFlush(w, cfg, now)
    case Answer(t, reply) => if t < |w.threads| && w.threads[t].OnWire? then OnAnswer(w, cfg, t, reply) else w
    case Pause(t, now, jitter) => if t < |w.threads| && w.threads[t].Pausing? then OnPause(w, t, now, jitter) else w
    case Close => w.(shared := w.shared.(closed := true))
    case TakeDiagnostics => w.(shared := w.shared.(notes := []), taken := w.taken + w.shared.notes)
  }

  function From(w: World, cfg: Config, actions: seq<Action>): World {
    if actions == [] then w else Next(From(w, cfg, actions[..|actions| - 1]), cfg, actions[|actions| - 1])
  }

  function Run(cfg: Config, actions: seq<Action>): World { From(START, cfg, actions) }

  // ---- accounting ---------------------------------------------------------------------------------

  function OnWireOf(t: Thread, k: nat): nat { if t.OnWire? then multiset(t.batch)[k] else 0 }

  /** How often event `k` is on the wire. */
  function Wire(threads: seq<Thread>, k: nat): nat {
    if threads == [] then 0 else Wire(threads[..|threads| - 1], k) + OnWireOf(threads[|threads| - 1], k)
  }

  /** In how many places event `k` is. */
  function Places(w: World, k: nat): nat {
    multiset(w.shared.buffer)[k] + Wire(w.threads, k) + w.gone.Of(k)
  }

  function DroppedIn(notes: seq<Note>): nat {
    if notes == [] then 0
    else
      var last := notes[|notes| - 1];
      DroppedIn(notes[..|notes| - 1]) + if last.Dropped? then last.count else 0
  }

  ghost predicate Conserved(w: World, k: nat) {
    Places(w, k) == if k < w.tracked then 1 else 0
  }

  ghost predicate Reported(w: World) {
    DroppedIn(w.taken) + DroppedIn(w.shared.notes) == |w.gone.dropped|
  }

  lemma {:induction false} WireUpdate(threads: seq<Thread>, t: nat, x: Thread, k: nat)
    requires t < |threads|
    ensures Wire(threads[t := x], k) + OnWireOf(threads[t], k) == Wire(threads, k) + OnWireOf(x, k)
  {
    var last := |threads| - 1;
    if t == last {
      assert threads[t := x][..last] == threads[..last];
    } else {
      assert threads[t := x][..last] == threads[..last][t := x];
      WireUpdate(threads[..last], t, x, k);
    }
  }

  lemma {:induction false} DroppedInAppend(a: seq<Note>, b: seq<Note>)
    ensures DroppedIn(a + b) == DroppedIn(a) + DroppedIn(b)
  {
    if b == [] {
      assert a + b == a;
    } else {
      assert (a + b)[..|a + b| - 1] == a + b[..|b| - 1];
      DroppedInAppend(a, b[..|b| - 1]);
    }
  }

  lemma CountSplit(a: seq<nat>, b: seq<nat>, k: nat)
    ensures multiset(a + b)[k] == multiset(a)[k] + multiset(b)[k]
  {
  }

  /** Trimming moves the oldest events from the buffer to the dropped, and notes how many. */
  lemma TrimMoves(s: Shared<nat>, bound: nat, k: nat)
    ensures multiset(s.buffer)[k] == multiset(Trimmed(s, bound).buffer)[k] + multiset(Overflowing(s.buffer, bound))[k]
  {
    var lost := Overflowing(s.buffer, bound);
    assert s.buffer == lost + Trimmed(s, bound).buffer;
    CountSplit(lost, Trimmed(s, bound).buffer, k);
  }

  lemma TrimNotes(s: Shared<nat>, bound: nat, dropped: multiset<nat>)
    ensures DroppedIn(Trimmed(s, bound).notes) - DroppedIn(s.notes)
      == |dropped + multiset(Overflowing(s.buffer, bound))| - |dropped|
  {
    var lost := Overflowing(s.buffer, bound);
    DroppedInAppend(s.notes, [Dropped(|lost|)]);
    assert DroppedIn([Dropped(|lost|)]) == |lost|;
  }

  lemma TrackKeeps(w: World, cfg: Config, k: nat)
    requires Conserved(w, k) && Reported(w)
    ensures Conserved(OnTrack(w, cfg), k) && Reported(OnTrack(w, cfg))
  {
    var s := w.shared.(buffer := w.shared.buffer + [w.tracked]);
    CountSplit(w.shared.buffer, [w.tracked], k);
    TrimMoves(s, cfg.maxBuffer, k);
    TrimNotes(s, cfg.maxBuffer, w.gone.dropped);
  }

  lemma FlushKeeps(w: World, cfg: Config, now: int, k: nat)
    requires Conserved(w, k)
    ensures Conserved(OnFlush(w, cfg, now), k)
  {
    var take := Taken(w.shared, cfg.maxBatch, now);
    var batch, rest := w.shared.buffer[..take], w.shared.buffer[take..];
    assert w.shared.buffer == batch + rest;
    CountSplit(batch, rest, k);
    assert (w.threads + [OnWire(batch)])[..|w.threads|] == w.threads;
  }

  /** The bookkeeping of an answer: a batch leaves the wire, some of it for the buffer, the rest for its fate. */
  lemma Moves(w: World, w': World, t: nat, k: nat)
    requires Conserved(w, k) && t < |w.threads| && w.threads[t].OnWire? && w'.tracked == w.tracked
    requires exists x: Thread :: !x.OnWire? && w'.threads == w.threads[t := x]
    requires multiset(w.shared.buffer)[k] + OnWireOf(w.threads[t], k) + w.gone.Of(k) ==
      multiset(w'.shared.buffer)[k] + w'.gone.Of(k)
    ensures Conserved(w', k)
  {
    var x: Thread :| !x.OnWire? && w'.threads == w.threads[t := x];
    WireUpdate(w.threads, t, x, k);
  }

  lemma RetryMoves(w: World, cfg: Config, batch: seq<nat>, w': World, k: nat)
    requires w'.shared == Requeued(w.shared, cfg.maxBuffer, batch)
    requires w'.gone == w.gone.(dropped := w.gone.dropped + multiset(Overflowing(batch + w.shared.buffer, cfg.maxBuffer)))
    ensures multiset(w.shared.buffer)[k] + multiset(batch)[k] + w.gone.Of(k) ==
      multiset(w'.shared.buffer)[k] + w'.gone.Of(k)
  {
    CountSplit(batch, w.shared.buffer, k);
    TrimMoves(w.shared.(buffer := batch + w.shared.buffer), cfg.maxBuffer, k);
  }

  lemma AnswerConserves(w: World, cfg: Config, t: nat, reply: Reply, k: nat)
    requires Conserved(w, k) && t < |w.threads| && w.threads[t].OnWire?
    ensures Conserved(OnAnswer(w, cfg, t, reply), k)
  {
    var w' := OnAnswer(w, cfg, t, reply);
    if !Ok(reply) && Retryable(reply) {
      RetryMoves(w, cfg, w.threads[t].batch, w', k);
    }
    assert !w'.threads[t].OnWire? && w'.threads == w.threads[t := w'.threads[t]];
    Moves(w, w', t, k);
  }

  /** A note that is not about drops. */
  lemma NoteAside(notes: seq<Note>, longer: seq<Note>)
    requires longer == notes || (|longer| == |notes| + 1 && longer[..|notes|] == notes && !longer[|notes|].Dropped?)
    ensures DroppedIn(longer) == DroppedIn(notes)
  {
  }

  lemma AnswerReports(w: World, cfg: Config, t: nat, reply: Reply)
    requires Reported(w) && t < |w.threads| && w.threads[t].OnWire?
    ensures Reported(OnAnswer(w, cfg, t, reply))
  {
    var notes := w.shared.notes;
    if Ok(reply) {
      NoteAside(notes, Accepted(w.shared, reply.rejected).notes);
    } else if Retryable(reply) {
      TrimNotes(w.shared.(buffer := w.threads[t].batch + w.shared.buffer), cfg.maxBuffer, w.gone.dropped);
    } else {
      NoteAside(notes, RefusedBy(w.shared, reply.status).notes);
    }
  }

  lemma StepKeeps(w: World, cfg: Config, a: Action, k: nat)
    requires Conserved(w, k) && Reported(w)
    ensures Conserved(Next(w, cfg, a), k) && Reported(Next(w, cfg, a))
  {
    match a
    case Track => TrackKeeps(w, cfg, k);
    case Flush(now) => FlushKeeps(w, cfg, now, k);
    case Answer(t, reply) =>
      if t < |w.threads| && w.threads[t].OnWire? {
        AnswerConserves(w, cfg, t, reply, k);
        AnswerReports(w, cfg, t, reply);
      }
    case Pause(t, now, jitter) =>
      if t < |w.threads| && w.threads[t].Pausing? { WireUpdate(w.threads, t, Done, k); }
    case TakeDiagnostics => DroppedInAppend(w.taken, w.shared.notes);
    case Close =>
  }

  lemma {:induction false} RunKeeps(cfg: Config, actions: seq<Action>, k: nat)
    ensures Conserved(Run(cfg, actions), k) && Reported(Run(cfg, actions))
  {
    if actions != [] {
      RunKeeps(cfg, actions[..|actions| - 1], k);
      StepKeeps(Run(cfg, actions[..|actions| - 1]), cfg, actions[|actions| - 1], k);
    }
  }

  lemma {:induction false} RunBounded(cfg: Config, actions: seq<Action>)
    ensures |Run(cfg, actions).shared.buffer| <= cfg.maxBuffer
  {
    if actions != [] { RunBounded(cfg, actions[..|actions| - 1]); }
  }

  /**
   * Under every interleaving, with any number of batches on the wire: each tracked event is in
   * exactly one place, nothing else is anywhere, the buffer respects its bound between critical
   * sections, and the drops reported, taken or not, are all the drops.
   */
  lemma EveryInterleaving(cfg: Config, actions: seq<Action>, k: nat)
    ensures var w := Run(cfg, actions);
      && Places(w, k) == (if k < w.tracked then 1 else 0)
      && |w.shared.buffer| <= cfg.maxBuffer
      && DroppedIn(w.taken + w.shared.notes) == |w.gone.dropped|
  {
    var w := Run(cfg, actions);
    RunKeeps(cfg, actions, k);
    RunBounded(cfg, actions);
    DroppedInAppend(w.taken, w.shared.notes);
  }

  // ---- order ------------------------------------------------------------------------------------------

  ghost predicate Increasing(s: seq<nat>) {
    forall i, j :: 0 <= i < j < |s| ==> s[i] < s[j]
  }

  predicate AllDone(threads: seq<Thread>) {
    forall i :: 0 <= i < |threads| ==> threads[i].Done?
  }

  /** A run in which a flush starts only after the previous one finished completely. */
  ghost predicate OneFlusher(cfg: Config, actions: seq<Action>) {
    actions == [] ||
    var before, a := actions[..|actions| - 1], actions[|actions| - 1];
    OneFlusher(cfg, before) && (a.Flush? ==> AllDone(Run(cfg, before).threads))
  }

  /** The batch of the last thread, if it is on the wire. */
  function InFlight(threads: seq<Thread>): seq<nat> {
    if threads != [] && threads[|threads| - 1].OnWire? then threads[|threads| - 1].batch else []
  }

  ghost predicate Ordered(w: World) {
    && Increasing(InFlight(w.threads) + w.shared.buffer)
    && (forall x :: x in InFlight(w.threads) + w.shared.buffer ==> x < w.tracked)
    && (forall i :: 0 <= i < |w.threads| - 1 ==> w.threads[i].Done?)
  }

  lemma IncreasingPart(a: seq<nat>, b: seq<nat>, c: seq<nat>)
    requires Increasing(a + b + c)
    ensures Increasing(a + c) && Increasing(b + c)
  {
    forall i, j | 0 <= i < j < |a + c| ensures (a + c)[i] < (a + c)[j] {
      assert (a + c)[i] == (a + b + c)[if i < |a| then i else i + |b|];
      assert (a + c)[j] == (a + b + c)[if j < |a| then j else j + |b|];
    }
    forall i, j | 0 <= i < j < |b + c| ensures (b + c)[i] < (b + c)[j] {
      assert (b + c)[i] == (a + b + c)[|a| + i] && (b + c)[j] == (a + b + c)[|a| + j];
    }
  }

  lemma TrackOrdered(w: World, cfg: Config)
    requires Ordered(w)
    ensures Ordered(OnTrack(w, cfg))
  {
    var w' := OnTrack(w, cfg);
    if w' != w {
      var flight, all := InFlight(w.threads), w.shared.buffer + [w.tracked];
      var lost := Overflowing(all, cfg.maxBuffer);
      assert flight + all == flight + lost + w'.shared.buffer;
      var live := flight + w.shared.buffer;
      assert flight + all == live + [w.tracked];
      forall i, j | 0 <= i < j < |flight + all| ensures (flight + all)[i] < (flight + all)[j] {
        assert live[i] in live && (flight + all)[i] == live[i];
      }
      IncreasingPart(flight, lost, w'.shared.buffer);
      forall x | x in InFlight(w'.threads) + w'.shared.buffer ensures x < w'.tracked {
        assert x in flight + all;
        assert x in live || x == w.tracked;
      }
    }
  }

  /** The batch of the last thread has come down; some of it, or of the buffer, may be gone. */
  lemma LandedOrdered(w: World, w': World, t: nat, lost: seq<nat>)
    requires Ordered(w) && t < |w.threads| && w.threads[t].OnWire?
    requires |w'.threads| == |w.threads| && !w'.threads[t].OnWire? && w'.tracked == w.tracked
    requires forall i :: 0 <= i < |w.threads| && i != t ==> w'.threads[i] == w.threads[i]
    requires w'.shared.buffer == [] || w.threads[t].batch + w.shared.buffer == lost + w'.shared.buffer
    ensures Ordered(w')
  {
    var all, kept := w.threads[t].batch + w.shared.buffer, w'.shared.buffer;
    assert t == |w.threads| - 1;
    assert InFlight(w'.threads) + kept == kept;
    if kept != [] {
      assert [] + lost + kept == all && [] + kept == kept;
      IncreasingPart([], lost, kept);
      forall x | x in kept ensures x < w'.tracked { assert x in all; }
    }
  }

  lemma AnswerOrdered(w: World, cfg: Config, t: nat, reply: Reply)
    requires Ordered(w) && t < |w.threads| && w.threads[t].OnWire?
    ensures Ordered(OnAnswer(w, cfg, t, reply))
  {
    var batch, q := w.threads[t].batch, w.shared.buffer;
    var lost := if !Ok(reply) && Retryable(reply) then Overflowing(batch + q, cfg.maxBuffer) else batch;
    LandedOrdered(w, OnAnswer(w, cfg, t, reply), t, lost);
  }

  lemma FlushOrdered(w: World, cfg: Config, now: int)
    requires Ordered(w) && AllDone(w.threads)
    ensures Ordered(OnFlush(w, cfg, now))
  {
    var w', buffer := OnFlush(w, cfg, now), w.shared.buffer;
    var take := Taken(w.shared, cfg.maxBatch, now);
    assert buffer[..take] + buffer[take..] == buffer && [] + buffer == buffer;
    assert InFlight(w.threads) == [];
    assert InFlight(w'.threads) + w'.shared.buffer == buffer;
  }

  lemma StepOrdered(w: World, cfg: Config, a: Action)
    requires Ordered(w) && (a.Flush? ==> AllDone(w.threads))
    ensures Ordered(Next(w, cfg, a))
  {
    match a
    case Track => TrackOrdered(w, cfg);
    case Answer(t, reply) =>
      if t < |w.threads| && w.threads[t].OnWire? { AnswerOrdered(w, cfg, t, reply); }
    case Flush(now) => FlushOrdered(w, cfg, now);
    case _ =>
  }

  /** With one flusher, what is on the wire followed by the buffer is in track order. */
  lemma {:induction false} OneFlusherKeepsOrder(cfg: Config, actions: seq<Action>)
    requires OneFlusher(cfg, actions)
    ensures Ordered(Run(cfg, actions))
  {
    if actions != [] {
      OneFlusherKeepsOrder(cfg, actions[..|actions| - 1]);
      StepOrdered(Run(cfg, actions[..|actions| - 1]), cfg, actions[|actions| - 1]);
    }
  }

  lemma RunStep(cfg: Config, before: seq<Action>, a: Action)
    ensures Run(cfg, before + [a]) == Next(Run(cfg, before), cfg, a)
  {
    assert (before + [a])[..|before|] == before;
  }

  const TWO_ON_THE_WIRE: seq<Action> := [] + [Track] + [Flush(0)] + [Track] + [Flush(0)]

  lemma TrackAndFlush(w: World, cfg: Config)
    requires cfg.maxBatch >= 1 && cfg.maxBuffer >= 1 && w.shared == Fresh()
    ensures var w' := Next(Next(w, cfg, Track), cfg, Flush(0));
      w' == w.(threads := w.threads + [OnWire([w.tracked])], tracked := w.tracked + 1)
  {
    var k := w.tracked;
    assert [] + [k] == [k] && [k][..1] == [k] && [k][1..] == [];
    var w' := OnTrack(w, cfg);
    assert w'.shared == w.shared.(buffer := [k]);
    assert w'.gone.dropped == w.gone.dropped + multiset([]);
    assert Taken(w'.shared, cfg.maxBatch, 0) == 1;
  }

  lemma TwoOnTheWire(cfg: Config)
    requires cfg.maxBatch >= 1 && cfg.maxBuffer >= 1
    ensures var w := Run(cfg, TWO_ON_THE_WIRE);
      w == START.(threads := [OnWire([0]), OnWire([1])], tracked := 2)
  {
    RunStep(cfg, [], Track);
    RunStep(cfg, [] + [Track], Flush(0));
    TrackAndFlush(START, cfg);
    var before := [] + [Track] + [Flush(0)];
    assert Run(cfg, before) == START.(threads := [OnWire([0])], tracked := 1);
    RunStep(cfg, before, Track);
    RunStep(cfg, before + [Track], Flush(0));
    TrackAndFlush(Run(cfg, before), cfg);
  }

  const BOTH_COME_BACK: seq<Action> := TWO_ON_THE_WIRE + [Answer(0, NoReply)] + [Answer(1, NoReply)]

  /** With two flushers the order can be lost: both batches fail and come back the wrong way round. */
  lemma TwoFlushersLoseOrder(cfg: Config)
    requires cfg.maxBatch >= 1 && cfg.maxBuffer >= 2
    ensures Run(cfg, BOTH_COME_BACK).shared.buffer == [1, 0]
  {
    TwoOnTheWire(cfg);
    RunStep(cfg, TWO_ON_THE_WIRE, Answer(0, NoReply));
    RunStep(cfg, TWO_ON_THE_WIRE + [Answer(0, NoReply)], Answer(1, NoReply));
    assert [0] + [] == [0] && [1] + [0] == [1, 0];
  }

  /** What two sequences in order give end to end. */
  lemma JoinedInOrderIff(a: seq<nat>, b: seq<nat>)
    requires Increasing(a) && Increasing(b)
    ensures Increasing(a + b) <==> a == [] || b == [] || a[|a| - 1] < b[0]
  {
    if a != [] && b != [] {
      assert (a + b)[|a| - 1] == a[|a| - 1] && (a + b)[|a|] == b[0];
    }
  }

  /**
   * A failed batch leaves the buffer in order exactly when it is older than everything waiting,
   * or there is no room for any of it.
   */
  lemma RequeueKeepsOrderIff(s: Shared<nat>, bound: nat, batch: seq<nat>)
    requires Increasing(batch) && Increasing(s.buffer)
    ensures Increasing(Requeued(s, bound, batch).buffer) <==>
      || |s.buffer| >= bound || batch == [] || s.buffer == []
      || batch[|batch| - 1] < s.buffer[0]
  {
    var lost := |Overflowing(batch + s.buffer, bound)|;
    var kept := Requeued(s, bound, batch).buffer;
    if lost >= |batch| {
      assert kept == s.buffer[lost - |batch|..];
    } else {
      assert kept == batch[lost..] + s.buffer;
      JoinedInOrderIff(batch[lost..], s.buffer);
    }
  }

  /** A client that takes no batch never has a thread. */
  lemma {:induction false} NoBatchNoThread(cfg: Config, actions: seq<Action>)
    requires cfg.maxBatch == 0
    ensures Run(cfg, actions).threads == [] && OneFlusher(cfg, actions)
  {
    if actions != [] { NoBatchNoThread(cfg, actions[..|actions| - 1]); }
  }

  /**
   * "So ordering survives": the buffer is in track order in every run exactly when it cannot hold
   * two events, or nothing is ever sent.
   */
  lemma OrderAlwaysSurvivesIff(cfg: Config)
    ensures (forall actions :: Increasing(Run(cfg, actions).shared.buffer)) <==> cfg.maxBuffer <= 1 || cfg.maxBatch == 0
  {
    if cfg.maxBuffer <= 1 || cfg.maxBatch == 0 {
      forall actions ensures Increasing(Run(cfg, actions).shared.buffer) {
        RunBounded(cfg, actions);
        if cfg.maxBatch == 0 {
          NoBatchNoThread(cfg, actions);
          OneFlusherKeepsOrder(cfg, actions);
          var buffer := Run(cfg, actions).shared.buffer;
          assert [] + buffer == buffer;
        }
      }
    } else {
      TwoFlushersLoseOrder(cfg);
      assert [1, 0][0] > [1, 0][1];
      assert !Increasing(Run(cfg, BOTH_COME_BACK).shared.buffer);
    }
  }

  // ---- after a fatal answer -----------------------------------------------------------------------------

  /** Nothing more is tracked or put on the wire once the client is disabled. */
  lemma {:induction false} DisabledSendsNothing(w: World, cfg: Config, actions: seq<Action>)
    requires w.shared.disabled
    ensures var w' := From(w, cfg, actions);
      && w'.shared.disabled && w'.tracked == w.tracked && |w'.threads| == |w.threads|
      && forall t :: 0 <= t < |w.threads| ==> w'.threads[t] == w.threads[t] || !w'.threads[t].OnWire?
  {
    if actions != [] { DisabledSendsNothing(w, cfg, actions[..|actions| - 1]); }
  }

  ghost predicate WireIsEmpty(w: World) {
    forall t :: 0 <= t < |w.threads| && w.threads[t].OnWire? ==> w.threads[t].batch == []
  }

  lemma {:induction false} QuietStaysQuiet(w: World, cfg: Config, actions: seq<Action>)
    requires w.shared.disabled && w.shared.buffer == [] && (WireIsEmpty(w) || cfg.maxBuffer == 0)
    ensures From(w, cfg, actions).shared.buffer == []
  {
    if actions != [] {
      QuietStaysQuiet(w, cfg, actions[..|actions| - 1]);
      DisabledSendsNothing(w, cfg, actions[..|actions| - 1]);
    }
  }

  /**
   * A disabled client has discarded its buffer, but it holds nothing for good exactly when no
   * other batch was still on the wire: one that fails later is put back, and stays.
   */
  lemma DisabledHoldsNothingIff(w: World, cfg: Config)
    requires w.shared.disabled && w.shared.buffer == []
    ensures (forall actions :: From(w, cfg, actions).shared.buffer == []) <==> WireIsEmpty(w) || cfg.maxBuffer == 0
  {
    if WireIsEmpty(w) || cfg.maxBuffer == 0 {
      forall actions ensures From(w, cfg, actions).shared.buffer == [] {
        QuietStaysQuiet(w, cfg, actions);
      }
    } else {
      var t :| 0 <= t < |w.threads| && w.threads[t].OnWire? && w.threads[t].batch != [];
      var actions := [Answer(t, NoReply)];
      assert actions[..0] == [];
      assert From(w, cfg, []) == w;
      assert From(w, cfg, actions).shared.buffer != [];
    }
  }

  /** Such a run: the first of two batches is refused for its credential, the second is lost. */
  lemma ABatchStranded(cfg: Config)
    requires cfg.maxBatch >= 1 && cfg.maxBuffer >= 1
    ensures var w := Run(cfg, TWO_ON_THE_WIRE + [Answer(0, Response(401, None, None, 0))] + [Answer(1, NoReply)]);
      w.shared.disabled && w.shared.buffer == [1]
  {
    var refusal := Answer(0, Response(401, None, None, 0));
    TwoOnTheWire(cfg);
    RunStep(cfg, TWO_ON_THE_WIRE, refusal);
    RunStep(cfg, TWO_ON_THE_WIRE + [refusal], Answer(1, NoReply));
  }
}
