/** Every action keeps the invariants of Delivery; hence every reachable world has them. */
module DeliveryProof {
  import opened Common
  import opened Sequences
  import opened EventQueues
  import opened Contract
  import opened SdkClient
  import opened Delivery

  // ---- the two halves of tracking and of shutting down ------------------------------------------

  /** What tracking does before it looks whether to flush. */
  function OnPush(w: World, cfg: Config, e: Event): World {
    w.(client := Pushed(w.client, cfg, e), tracked := w.tracked + [e],
       gone := w.gone.(dropped := w.gone.dropped + multiset(Lost(w.client.queue + [e], cfg.capacity))))
  }

  function OnFlush(w: World, cfg: Config, now: real): World {
    Emit(w, Flushed(w.client, cfg, now))
  }

  lemma TrackIsPushThenFlush(w: World, cfg: Config, e: Event, now: real)
    requires !w.client.closed && !w.client.disabled
    ensures var pushed := OnPush(w, cfg, e);
      OnTrack(w, cfg, e, now) == if |pushed.client.queue| >= cfg.maxBatch then OnFlush(pushed, cfg, now) else pushed
  {
  }

  function Closed(w: World): World { w.(client := w.client.(closed := true)) }

  lemma ShutdownIsCloseThenFlush(w: World, cfg: Config, now: real)
    ensures Next(w, cfg, Shutdown(now)) == OnFlush(Closed(w), cfg, now)
  {
  }

  // ---- accounting -----------------------------------------------------------------------------

  lemma SplitMultiset<T>(a: seq<T>, b: seq<T>)
    ensures multiset(a + b) == multiset(a) + multiset(b)
  {
  }

  lemma TrimMultiset(events: seq<Event>, capacity: int)
    ensures multiset(events) == multiset(Lost(events, capacity)) + multiset(Kept(events, capacity))
  {
    TrimDropsTheOldest(events, capacity);
    SplitMultiset(Lost(events, capacity), Kept(events, capacity));
  }

  lemma DropsGrow(dropped: multiset<Event>, events: seq<Event>, capacity: int)
    requires capacity >= 0
    ensures |dropped + multiset(Lost(events, capacity))| == |dropped| + Excess(|events|, capacity)
  {
  }

  lemma FatesAdd(f: Fates, m: multiset<Event>, n: multiset<Event>)
    ensures f.(settled := f.settled + m).All() == f.All() + m
    ensures f.(refused := f.refused + m).All() == f.All() + m
    ensures f.(beaconed := f.beaconed + m).All() == f.All() + m
    ensures f.(dropped := f.dropped + m).All() == f.All() + m
    ensures f.(fatal := f.fatal + m, discarded := f.discarded + n).All() == f.All() + (m + n)
  {
  }

  /** Moving events from the client to their fate keeps the account. */
  lemma Moved(w: World, w': World, arrived: multiset<Event>, moved: multiset<Event>)
    requires Conserved(w)
    requires multiset(w'.tracked) == multiset(w.tracked) + arrived
    requires Held(w.client) + arrived == Held(w'.client) + moved
    requires w'.gone.All() == w.gone.All() + moved
    ensures Conserved(w')
  {
    var t, h, h', g := multiset(w.tracked), Held(w.client), Held(w'.client), w.gone.All();
    assert t + arrived == h + g + arrived == (h + arrived) + g == (h' + moved) + g == h' + (g + moved);
  }

  lemma PushConserved(w: World, cfg: Config, e: Event)
    requires Conserved(w)
    ensures Conserved(OnPush(w, cfg, e))
  {
    var lost, kept := Lost(w.client.queue + [e], cfg.capacity), Kept(w.client.queue + [e], cfg.capacity);
    TrimMultiset(w.client.queue + [e], cfg.capacity);
    FatesAdd(w.gone, multiset(lost), multiset{});
    var fl, q := multiset(InFlight(w.client)), multiset(w.client.queue);
    assert fl + q + multiset{e} == fl + (q + multiset{e}) == fl + multiset(kept) + multiset(lost);
    Moved(w, OnPush(w, cfg, e), multiset{e}, multiset(lost));
  }

  lemma PushAccounted(w: World, cfg: Config, e: Event)
    requires Accounted(w, cfg) && !Known(w.tracked, DedupKey(e))
    ensures Accounted(OnPush(w, cfg, e), cfg)
  {
    PushConserved(w, cfg, e);
    if cfg.capacity >= 0 { DropsGrow(w.gone.dropped, w.client.queue + [e], cfg.capacity); }
  }

  lemma FlushAccounted(w: World, cfg: Config, now: real)
    requires Accounted(w, cfg)
    ensures Accounted(OnFlush(w, cfg, now), cfg)
  {
    var w' := OnFlush(w, cfg, now);
    if WouldSend(w.client, cfg, now) {
      SendAccounted(w, w', cfg, Head(w.client, cfg), Rest(w.client, cfg));
    } else {
      assert InFlight(w'.client) == InFlight(w.client) && w'.client.queue == w.client.queue;
    }
  }

  lemma SendAccounted(w: World, w': World, cfg: Config, batch: seq<Event>, rest: seq<Event>)
    requires Accounted(w, cfg) && w.client.flight.Idle? && w.client.queue == batch + rest &&
      |batch| <= Max(cfg.maxBatch, 0)
    requires w'.client == w.client.(flight := Sending(batch), queue := rest) && w'.tracked == w.tracked &&
      w'.gone == w.gone
    ensures Accounted(w', cfg)
  {
    SplitMultiset(batch, rest);
  }

  lemma RetryConserved(w: World, w': World, cfg: Config)
    requires Conserved(w) && w.client.flight.Sending? && w'.tracked == w.tracked && !w'.client.flight.Sending?
    requires w'.client.queue == Kept(w.client.flight.batch + w.client.queue, cfg.capacity)
    requires w'.gone == w.gone.(dropped := w.gone.dropped + multiset(Lost(w.client.flight.batch + w.client.queue, cfg.capacity)))
    ensures Conserved(w')
  {
    var all := w.client.flight.batch + w.client.queue;
    var lost := multiset(Lost(all, cfg.capacity));
    SplitMultiset(w.client.flight.batch, w.client.queue);
    TrimMultiset(all, cfg.capacity);
    FatesAdd(w.gone, lost, multiset{});
    Moved(w, w', multiset{}, lost);
  }

  /** The batch, and for a fatal answer the queue, leave for their fate. */
  lemma BatchConserved(w: World, w': World, gone: multiset<Event>)
    requires Conserved(w) && w.client.flight.Sending? && w'.tracked == w.tracked && !w'.client.flight.Sending?
    requires || (gone == multiset(w.client.flight.batch) && w'.client.queue == w.client.queue)
             || (gone == multiset(w.client.flight.batch) + multiset(w.client.queue) && w'.client.queue == [])
    requires w'.gone.All() == w.gone.All() + gone
    ensures Conserved(w')
  {
    Moved(w, w', multiset{}, gone);
  }

  lemma AnswerConserved(w: World, cfg: Config, reply: Reply, now: real, jitter: real)
    requires Conserved(w) && w.client.flight.Sending?
    ensures Conserved(OnAnswer(w, cfg, reply, now, jitter))
  {
    var w' := OnAnswer(w, cfg, reply, now, jitter);
    var batch, queue := multiset(w.client.flight.batch), multiset(w.client.queue);
    match Classify(reply, now)
    case Retry(_) => RetryConserved(w, w', cfg);
    case Refused(status) =>
      FatesAdd(w.gone, batch, queue);
      BatchConserved(w, w', if status in FATAL_STATUSES then batch + queue else batch);
    case Accepted(_) =>
      FatesAdd(w.gone, batch, multiset{});
      BatchConserved(w, w', batch);
  }

  lemma RetrySized(w: World, w': World, cfg: Config)
    requires Bounded(w.client, cfg) && DropsCounted(w, cfg) && w.client.flight.Sending? && !w'.client.flight.Sending?
    requires w'.client.queue == Kept(w.client.flight.batch + w.client.queue, cfg.capacity)
    requires w'.client.dropped == w.client.dropped + Excess(|w.client.flight.batch| + |w.client.queue|, cfg.capacity)
    requires w'.gone.dropped == w.gone.dropped + multiset(Lost(w.client.flight.batch + w.client.queue, cfg.capacity))
    ensures Bounded(w'.client, cfg) && DropsCounted(w', cfg)
  {
    TrimDropsTheOldest(w.client.flight.batch + w.client.queue, cfg.capacity);
    if cfg.capacity >= 0 { DropsGrow(w.gone.dropped, w.client.flight.batch + w.client.queue, cfg.capacity); }
  }

  lemma AnswerSized(w: World, cfg: Config, reply: Reply, now: real, jitter: real)
    requires Bounded(w.client, cfg) && DropsCounted(w, cfg) && w.client.flight.Sending?
    ensures var w' := OnAnswer(w, cfg, reply, now, jitter); Bounded(w'.client, cfg) && DropsCounted(w', cfg)
  {
    var w' := OnAnswer(w, cfg, reply, now, jitter);
    assert !w'.client.flight.Sending?;
    if Classify(reply, now).Retry? {
      RetrySized(w, w', cfg);
    } else {
      SettledSized(w, w', cfg);
    }
  }

  lemma SettledSized(w: World, w': World, cfg: Config)
    requires Bounded(w.client, cfg) && DropsCounted(w, cfg) && !w'.client.flight.Sending?
    requires w'.client.queue == w.client.queue || w'.client.queue == []
    requires w'.client.dropped == w.client.dropped && w'.gone.dropped == w.gone.dropped
    ensures Bounded(w'.client, cfg) && DropsCounted(w', cfg)
  {
  }

  lemma AnswerAccounted(w: World, cfg: Config, reply: Reply, now: real, jitter: real)
    requires Accounted(w, cfg) && w.client.flight.Sending?
    ensures Accounted(OnAnswer(w, cfg, reply, now, jitter), cfg)
  {
    AnswerConserved(w, cfg, reply, now, jitter);
    AnswerSized(w, cfg, reply, now, jitter);
  }

  lemma HideConserved(w: World, w': World, batch: seq<Event>, rest: seq<Event>)
    requires Conserved(w) && w.client.queue == batch + rest
    requires w'.client == w.client.(queue := rest) && w'.tracked == w.tracked
    requires w'.gone == w.gone.(beaconed := w.gone.beaconed + multiset(batch))
    ensures Conserved(w')
  {
    SplitMultiset(batch, rest);
    FatesAdd(w.gone, multiset(batch), multiset{});
    Moved(w, w', multiset{}, multiset(batch));
  }

  lemma HeadRest(c: Client, cfg: Config)
    ensures c.queue == Head(c, cfg) + Rest(c, cfg)
    ensures Head(c, cfg) == [] ==> Rest(c, cfg) == c.queue
  {
  }

  lemma RequeuedHead(c: Client, cfg: Config, batch: seq<Event>, rest: seq<Event>)
    requires |c.queue| <= Max(cfg.capacity, 0) && batch != [] && c.queue == batch + rest
    ensures Requeued(c.(queue := rest), cfg, batch) == c && Lost(batch + rest, cfg.capacity) == []
  {
    NothingLost(c.queue, cfg.capacity);
  }

  lemma RefusedBeacon(w: World, cfg: Config)
    requires Bounded(w.client, cfg) && Head(w.client, cfg) != []
    ensures OnHide(w, cfg, false) == w
  {
    var c := w.client;
    HeadRest(c, cfg);
    RequeuedHead(c, cfg, Head(c, cfg), Rest(c, cfg));
    assert HiddenAt(c, cfg, false) == c;
    assert w.gone.dropped + multiset([]) == w.gone.dropped;
  }

  /** A beacon takes the head of the queue away; a refused beacon, or an empty queue, changes nothing. */
  lemma HideCases(w: World, cfg: Config, sent: bool)
    requires Bounded(w.client, cfg)
    ensures var w', batch, rest := OnHide(w, cfg, sent), Head(w.client, cfg), Rest(w.client, cfg);
      && w.client.queue == batch + rest
      && w' == if !sent || batch == [] then w
               else w.(client := w.client.(queue := rest), requests := w.requests + [batch],
                       gone := w.gone.(beaconed := w.gone.beaconed + multiset(batch)))
  {
    HeadRest(w.client, cfg);
    if !sent && Head(w.client, cfg) != [] {
      RefusedBeacon(w, cfg);
    }
  }

  lemma HideAccounted(w: World, cfg: Config, sent: bool)
    requires Accounted(w, cfg)
    ensures Accounted(OnHide(w, cfg, sent), cfg)
  {
    HideCases(w, cfg, sent);
    if sent && Head(w.client, cfg) != [] {
      HideConserved(w, OnHide(w, cfg, sent), Head(w.client, cfg), Rest(w.client, cfg));
    }
  }

  lemma NothingLost(events: seq<Event>, capacity: int)
    requires |events| <= Max(capacity, 0)
    requires events != []
    ensures Lost(events, capacity) == [] && Kept(events, capacity) == events && Excess(|events|, capacity) == 0
  {
  }

  lemma TrackAccounted(w: World, cfg: Config, e: Event, now: real)
    requires Accounted(w, cfg) && !w.client.closed && !w.client.disabled && !Known(w.tracked, DedupKey(e))
    ensures Accounted(OnTrack(w, cfg, e, now), cfg)
  {
    PushAccounted(w, cfg, e);
    TrackIsPushThenFlush(w, cfg, e, now);
    FlushAccounted(OnPush(w, cfg, e), cfg, now);
  }

  /** A step that moves no event. */
  lemma QuietAccounted(w: World, w': World, cfg: Config)
    requires Accounted(w, cfg) && InFlight(w'.client) == InFlight(w.client) && w'.client.queue == w.client.queue
    requires w'.client.dropped == w.client.dropped && w'.tracked == w.tracked && w'.gone == w.gone
    ensures Accounted(w', cfg)
  {
  }

  lemma StepAccounted(w: World, cfg: Config, a: Action)
    requires Accounted(w, cfg)
    ensures Accounted(Next(w, cfg, a), cfg)
  {
    match a
    case Track(name, visitId, properties, key, at, now) =>
      if !(w.client.closed || w.client.disabled || Known(w.tracked, (key, at))) {
        TrackAccounted(w, cfg, Event(name, visitId, w.client.person, at, key, properties), now);
      }
    case Flush(now) => FlushAccounted(w, cfg, now);
    case Hide(sent) => if !w.client.closed { HideAccounted(w, cfg, sent); }
    case Shutdown(now) =>
      ShutdownIsCloseThenFlush(w, cfg, now);
      QuietAccounted(w, Closed(w), cfg);
      FlushAccounted(Closed(w), cfg, now);
    case Answer(reply, now, jitter) =>
      if MayAnswer(w, reply) { AnswerAccounted(w, cfg, reply, now, jitter); }
    case _ => QuietAccounted(w, Next(w, cfg, a), cfg);
  }

  lemma {:induction false} RunAccounted(cfg: Config, actions: seq<Action>)
    ensures Accounted(Run(cfg, actions), cfg)
  {
    if actions == [] {
      assert Live(INITIAL) == [];
    } else {
      RunAccounted(cfg, actions[..|actions| - 1]);
      StepAccounted(Run(cfg, actions[..|actions| - 1]), cfg, actions[|actions| - 1]);
    }
  }

  /** Unique keys leave no room for an event to be in two places, or in one place twice. */
  lemma LiveDistinct(w: World)
    requires Conserved(w) && UniqueKeys(w.tracked)
    ensures Distinct(Live(w.client))
    ensures forall e :: e in Live(w.client) ==> e in w.tracked
  {
    UniqueMultiset(w.tracked);
    var live := Live(w.client);
    SplitMultiset(InFlight(w.client), w.client.queue);
    assert multiset(live) <= multiset(w.tracked);
    forall x ensures multiset(live)[x] <= 1 {
      assert multiset(live)[x] <= multiset(w.tracked)[x];
    }
    MultisetDistinct(live);
    forall e | e in live ensures e in w.tracked {
      assert e in multiset(live);
      assert e in multiset(w.tracked);
    }
  }

  lemma UniqueMultiset(events: seq<Event>)
    requires UniqueKeys(events)
    ensures forall x :: multiset(events)[x] <= 1
  {
    forall i, j | 0 <= i < j < |events| ensures events[i] != events[j] {
      assert DedupKey(events[i]) != DedupKey(events[j]);
    }
    DistinctMultiset(events);
  }

  // ---- what was transmitted ----------------------------------------------------------------------

  lemma HeadTracked(w: World, cfg: Config)
    requires Conserved(w) && UniqueKeys(w.tracked)
    ensures forall e :: e in Head(w.client, cfg) ==> e in w.tracked
  {
    LiveDistinct(w);
    forall e | e in Head(w.client, cfg) ensures e in w.tracked {
      assert e in w.client.queue;
      assert e in Live(w.client);
    }
  }

  lemma FlushTransmitted(w: World, cfg: Config, now: real)
    requires Transmitted(w) && Accounted(w, cfg)
    ensures Transmitted(OnFlush(w, cfg, now))
  {
    HeadTracked(w, cfg);
  }

  lemma HideTransmitted(w: World, cfg: Config, sent: bool)
    requires Transmitted(w) && Accounted(w, cfg)
    ensures Transmitted(OnHide(w, cfg, sent))
  {
    HideCases(w, cfg, sent);
    HeadTracked(w, cfg);
  }

  lemma TrackTransmitted(w: World, cfg: Config, e: Event, now: real)
    requires Transmitted(w) && Accounted(w, cfg) && !w.client.closed && !w.client.disabled &&
      !Known(w.tracked, DedupKey(e))
    ensures Transmitted(OnTrack(w, cfg, e, now))
  {
    PushAccounted(w, cfg, e);
    TrackIsPushThenFlush(w, cfg, e, now);
    FlushTransmitted(OnPush(w, cfg, e), cfg, now);
  }

  lemma AnswerTransmitted(w: World, cfg: Config, reply: Reply, now: real, jitter: real)
    requires Transmitted(w) && w.client.flight.Sending?
    ensures Transmitted(OnAnswer(w, cfg, reply, now, jitter))
  {
    var w' := OnAnswer(w, cfg, reply, now, jitter);
    assert w'.requests == w.requests && w'.tracked == w.tracked && w'.client.flight == Settling;
  }

  lemma StepTransmitted(w: World, cfg: Config, a: Action)
    requires Transmitted(w) && Accounted(w, cfg)
    ensures Transmitted(Next(w, cfg, a))
  {
    match a
    case Track(name, visitId, properties, key, at, now) =>
      if !(w.client.closed || w.client.disabled || Known(w.tracked, (key, at))) {
        TrackTransmitted(w, cfg, Event(name, visitId, w.client.person, at, key, properties), now);
      }
    case Flush(now) => FlushTransmitted(w, cfg, now);
    case Hide(sent) => if !w.client.closed { HideTransmitted(w, cfg, sent); }
    case Shutdown(now) =>
      ShutdownIsCloseThenFlush(w, cfg, now);
      QuietAccounted(w, Closed(w), cfg);
      FlushTransmitted(Closed(w), cfg, now);
    case Answer(reply, now, jitter) =>
      if MayAnswer(w, reply) { AnswerTransmitted(w, cfg, reply, now, jitter); }
    case _ =>
  }

  lemma {:induction false} RunTransmitted(cfg: Config, actions: seq<Action>)
    ensures Transmitted(Run(cfg, actions))
  {
    if actions != [] {
      RunTransmitted(cfg, actions[..|actions| - 1]);
      RunAccounted(cfg, actions[..|actions| - 1]);
      StepTransmitted(Run(cfg, actions[..|actions| - 1]), cfg, actions[|actions| - 1]);
    }
  }

  // ---- order ----------------------------------------------------------------------------------------

  lemma {:induction false} UnsentConcat(a: seq<Event>, b: seq<Event>, log: seq<Event>)
    ensures Unsent(a + b, log) == Unsent(a, log) + Unsent(b, log)
  {
    if a == [] {
      assert a + b == b;
    } else {
      assert (a + b)[1..] == a[1..] + b;
      UnsentConcat(a[1..], b, log);
    }
  }

  lemma {:induction false} UnsentOfSent(queue: seq<Event>, log: seq<Event>)
    requires forall e :: e in queue ==> e in log
    ensures Unsent(queue, log) == []
  {
    if queue != [] { UnsentOfSent(queue[1..], log); }
  }

  /** Sending other events leaves the unsent part of a queue alone. */
  lemma {:induction false} UnsentAfter(queue: seq<Event>, log: seq<Event>, batch: seq<Event>)
    requires forall e :: e in queue ==> e !in batch
    ensures Unsent(queue, log + batch) == Unsent(queue, log)
  {
    if queue != [] { UnsentAfter(queue[1..], log, batch); }
  }

  /** Sending a batch extends the first transmissions by exactly its unsent events. */
  lemma {:induction false} FirstsAppend(log: seq<Event>, batch: seq<Event>)
    requires Distinct(batch)
    ensures Firsts(log + batch) == Firsts(log) + Unsent(batch, log)
  {
    if batch == [] {
      assert log + batch == log;
    } else {
      var init, last := batch[..|batch| - 1], batch[|batch| - 1];
      assert (log + batch)[..|log + batch| - 1] == log + init;
      FirstsAppend(log, init);
      assert batch == init + [last];
      UnsentConcat(init, [last], log);
    }
  }

  lemma FlatAppend(requests: seq<seq<Event>>, batch: seq<Event>)
    ensures Flat(requests + [batch]) == Flat(requests) + batch
  {
    assert (requests + [batch])[..|requests|] == requests;
  }

  lemma {:induction false} FlatContains(requests: seq<seq<Event>>, r: nat, e: Event)
    requires r < |requests| && e in requests[r]
    ensures e in Flat(requests)
  {
    if r < |requests| - 1 { FlatContains(requests[..|requests| - 1], r, e); }
  }

  lemma {:induction false} FlatWithin(requests: seq<seq<Event>>, all: seq<Event>)
    requires forall r, e :: 0 <= r < |requests| && e in requests[r] ==> e in all
    ensures forall e :: e in Flat(requests) ==> e in all
  {
    if requests != [] {
      var init := requests[..|requests| - 1];
      forall r, e | 0 <= r < |init| && e in init[r] ensures e in all {
        assert init[r] == requests[r];
      }
      FlatWithin(init, all);
    }
  }

  /** Appending an event to both sides, then deleting a middle part on the left. */
  lemma AppendDelete(a: seq<Event>, b: seq<Event>, e: Event, lost: seq<Event>, kept: seq<Event>, all: seq<Event>)
    requires Sub(a + b, all) && b + [e] == lost + kept
    ensures Sub(a + kept, all + [e])
  {
    SubAppend(a + b, all, e);
    assert a + b + [e] == a + (b + [e]) && a + (lost + kept) == a + lost + kept;
    SubDelete(a, lost, kept, all + [e]);
  }

  lemma PushSendings(q: seq<Event>, e: Event, log: seq<Event>, lost: seq<Event>, kept: seq<Event>, all: seq<Event>)
    requires Sub(Sendings(q, log), all) && q + [e] == lost + kept && e !in log
    ensures Sub(Sendings(kept, log), all + [e])
  {
    UnsentConcat(q, [e], log);
    UnsentConcat(lost, kept, log);
    assert Unsent([e], log) == [e];
    AppendDelete(Firsts(log), Unsent(q, log), e, Unsent(lost, log), Unsent(kept, log), all);
  }

  lemma PushOrdered(w: World, cfg: Config, e: Event)
    requires Ordered(w) && Transmitted(w) && e !in w.tracked
    ensures Ordered(OnPush(w, cfg, e))
  {
    var q := w.client.queue;
    var lost, kept := Lost(q + [e], cfg.capacity), Kept(q + [e], cfg.capacity);
    TrimDropsTheOldest(q + [e], cfg.capacity);
    FlatWithin(w.requests, w.tracked);
    AppendDelete(InFlight(w.client), q, e, lost, kept, w.tracked);
    PushSendings(q, e, Flat(w.requests), lost, kept, w.tracked);
  }

  /** Transmitting the head of a queue of distinct events keeps the sequence of sendings. */
  lemma SendSendings(batch: seq<Event>, rest: seq<Event>, log: seq<Event>)
    requires Distinct(batch + rest)
    ensures Sendings(rest, log + batch) == Sendings(batch + rest, log)
  {
    forall e | e in rest ensures e !in batch {
      var i :| 0 <= i < |rest| && rest[i] == e;
      assert (batch + rest)[|batch| + i] == e;
      forall j | 0 <= j < |batch| ensures batch[j] != e { assert (batch + rest)[j] == batch[j]; }
    }
    forall i, j | 0 <= i < j < |batch| ensures batch[i] != batch[j] {
      assert (batch + rest)[i] == batch[i] && (batch + rest)[j] == batch[j];
    }
    FirstsAppend(log, batch);
    UnsentAfter(rest, log, batch);
    UnsentConcat(batch, rest, log);
  }

  lemma QueueDistinct(w: World)
    requires Conserved(w) && UniqueKeys(w.tracked)
    ensures Distinct(w.client.queue)
  {
    LiveDistinct(w);
    var k, q := |InFlight(w.client)|, w.client.queue;
    forall i, j | 0 <= i < j < |q| ensures q[i] != q[j] {
      assert Live(w.client)[k + i] == q[i] && Live(w.client)[k + j] == q[j];
    }
  }

  lemma SendOrdered(w: World, w': World, batch: seq<Event>, rest: seq<Event>)
    requires Ordered(w) && Distinct(w.client.queue) && w.client.queue == batch + rest && !w.client.flight.Sending?
    requires w'.client == w.client.(flight := Sending(batch), queue := rest)
    requires w'.requests == w.requests + [batch] && w'.tracked == w.tracked
    ensures Ordered(w')
  {
    FlatAppend(w.requests, batch);
    SendSendings(batch, rest, Flat(w.requests));
    assert Live(w'.client) == Live(w.client);
  }

  lemma FlushOrdered(w: World, cfg: Config, now: real)
    requires Ordered(w) && Accounted(w, cfg)
    ensures Ordered(OnFlush(w, cfg, now))
  {
    var c := w.client;
    if WouldSend(c, cfg, now) {
      HeadRest(c, cfg);
      QueueDistinct(w);
      SendOrdered(w, OnFlush(w, cfg, now), Head(c, cfg), Rest(c, cfg));
    } else {
      assert Live(OnFlush(w, cfg, now).client) == Live(c);
    }
  }

  lemma BeaconOrdered(w: World, w': World, batch: seq<Event>, rest: seq<Event>)
    requires Ordered(w) && Distinct(w.client.queue) && w.client.queue == batch + rest
    requires w'.client == w.client.(queue := rest) && w'.requests == w.requests + [batch] && w'.tracked == w.tracked
    ensures Ordered(w')
  {
    FlatAppend(w.requests, batch);
    SendSendings(batch, rest, Flat(w.requests));
    assert InFlight(w.client) + batch + rest == Live(w.client);
    SubDelete(InFlight(w.client), batch, rest, w.tracked);
  }

  lemma HideOrdered(w: World, cfg: Config, sent: bool)
    requires Ordered(w) && Accounted(w, cfg)
    ensures Ordered(OnHide(w, cfg, sent))
  {
    HideCases(w, cfg, sent);
    if sent && Head(w.client, cfg) != [] {
      QueueDistinct(w);
      BeaconOrdered(w, OnHide(w, cfg, sent), Head(w.client, cfg), Rest(w.client, cfg));
    }
  }

  lemma DropHead(w: World, lost: seq<Event>, kept: seq<Event>)
    requires Ordered(w) && Transmitted(w) && w.client.flight.Sending?
    requires lost + kept == Live(w.client)
    ensures Sub(kept, w.tracked) && Sub(Sendings(kept, Flat(w.requests)), w.tracked)
  {
    var batch, q, log := w.client.flight.batch, w.client.queue, Flat(w.requests);
    assert lost + kept == [] + lost + kept && [] + kept == kept;
    SubDelete([], lost, kept, w.tracked);
    forall e | e in batch ensures e in log { FlatContains(w.requests, w.awaiting, e); }
    UnsentOfSent(batch, log);
    UnsentConcat(batch, q, log);
    UnsentConcat(lost, kept, log);
    assert Unsent(q, log) == Unsent(batch, log) + Unsent(q, log) == Unsent(lost, log) + Unsent(kept, log);
    assert Sendings(q, log) == Firsts(log) + Unsent(lost, log) + Unsent(kept, log);
    SubDelete(Firsts(log), Unsent(lost, log), Unsent(kept, log), w.tracked);
  }

  lemma AnswerOrdered(w: World, cfg: Config, reply: Reply, now: real, jitter: real)
    requires Ordered(w) && Transmitted(w) && w.client.flight.Sending?
    ensures Ordered(OnAnswer(w, cfg, reply, now, jitter))
  {
    var c := w.client;
    var kept := OnAnswer(w, cfg, reply, now, jitter).client.queue;
    assert Live(OnAnswer(w, cfg, reply, now, jitter).client) == kept;
    match Classify(reply, now)
    case Retry(_) =>
      assert Live(c) == c.flight.batch + c.queue;
      TrimDropsTheOldest(Live(c), cfg.capacity);
      DropHead(w, Lost(Live(c), cfg.capacity), kept);
    case Refused(status) =>
      if status in FATAL_STATUSES {
        assert Live(c) + [] == Live(c);
        DropHead(w, Live(c), []);
      } else {
        DropHead(w, c.flight.batch, kept);
      }
    case Accepted(_) => DropHead(w, c.flight.batch, kept);
  }

  lemma TrackOrdered(w: World, cfg: Config, e: Event, now: real)
    requires Ordered(w) && Accounted(w, cfg) && !w.client.closed && !w.client.disabled && !Known(w.tracked, DedupKey(e))
    requires Transmitted(w)
    ensures Ordered(OnTrack(w, cfg, e, now))
  {
    NewEvent(w.tracked, e);
    PushOrdered(w, cfg, e);
    PushAccounted(w, cfg, e);
    TrackIsPushThenFlush(w, cfg, e, now);
    FlushOrdered(OnPush(w, cfg, e), cfg, now);
  }

  lemma StepOrdered(w: World, cfg: Config, a: Action)
    requires Ordered(w) && Transmitted(w) && Accounted(w, cfg)
    ensures Ordered(Next(w, cfg, a))
  {
    match a
    case Track(name, visitId, properties, key, at, now) =>
      if !(w.client.closed || w.client.disabled || Known(w.tracked, (key, at))) {
        TrackOrdered(w, cfg, Event(name, visitId, w.client.person, at, key, properties), now);
      }
    case Flush(now) => FlushOrdered(w, cfg, now);
    case Hide(sent) => if !w.client.closed { HideOrdered(w, cfg, sent); }
    case Shutdown(now) =>
      ShutdownIsCloseThenFlush(w, cfg, now);
      QuietAccounted(w, Closed(w), cfg);
      FlushOrdered(Closed(w), cfg, now);
    case Answer(reply, now, jitter) =>
      if MayAnswer(w, reply) { AnswerOrdered(w, cfg, reply, now, jitter); }
    case _ => assert Live(Next(w, cfg, a).client) == Live(w.client);
  }

  lemma NewEvent(tracked: seq<Event>, e: Event)
    requires !Known(tracked, DedupKey(e))
    ensures e !in tracked
  {
  }

  lemma {:induction false} RunOrdered(cfg: Config, actions: seq<Action>)
    ensures Ordered(Run(cfg, actions))
  {
    if actions == [] {
      SubEmpty<Event>([]);
      assert Live(INITIAL) == [] && Sendings([], Flat([])) == [];
    } else {
      RunOrdered(cfg, actions[..|actions| - 1]);
      RunTransmitted(cfg, actions[..|actions| - 1]);
      RunAccounted(cfg, actions[..|actions| - 1]);
      StepOrdered(Run(cfg, actions[..|actions| - 1]), cfg, actions[|actions| - 1]);
    }
  }

  // ---- the server ----------------------------------------------------------------------------------------

  lemma SameKey(all: seq<Event>, a: Event, b: Event)
    requires UniqueKeys(all) && a in all && b in all && DedupKey(a) == DedupKey(b)
    ensures a == b
  {
    var i :| 0 <= i < |all| && all[i] == a;
    var j :| 0 <= j < |all| && all[j] == b;
    assert DedupKey(all[i]) == DedupKey(all[j]);
  }

  lemma {:induction false} StoreKeeps(stored: seq<Event>, events: seq<Event>, rejected: set<Event>, all: seq<Event>)
    requires UniqueKeys(stored) && UniqueKeys(all)
    requires forall e :: e in stored ==> e in all
    requires forall e :: e in events ==> e in all
    ensures var after := Store(stored, events, rejected);
      && UniqueKeys(after) && stored <= after
      && (forall e :: e in after ==> e in all)
      && (forall e :: e in events ==> e in after || e in rejected)
    decreases events
  {
    if events != [] {
      var e := events[0];
      var next := if e in rejected || Known(stored, DedupKey(e)) then stored else stored + [e];
      if Known(stored, DedupKey(e)) {
        var i :| 0 <= i < |stored| && DedupKey(stored[i]) == DedupKey(e);
        SameKey(all, stored[i], e);
      }
      assert e in next || e in rejected;
      StoreKeeps(next, events[1..], rejected, all);
    }
  }

  lemma ProcessServed(w: World, request: nat, rejected: set<Event>, w': World)
    requires Served(w) && Transmitted(w) && UniqueKeys(w.tracked) && request < |w.requests|
    requires w' == w.(stored := Store(w.stored, w.requests[request], rejected),
                      receipts := w.receipts + [Receipt(request, rejected)])
    ensures Served(w')
  {
    StoreKeeps(w.stored, w.requests[request], rejected, w.tracked);
    ReceiptsGrow(w, w');
    forall k, e | 0 <= k < |w'.receipts| && e in w'.requests[w'.receipts[k].request]
      ensures e in w'.stored || e in w'.receipts[k].rejected
    {
      if k < |w.receipts| {
        assert w'.receipts[k] == w.receipts[k] && e in w.requests[w.receipts[k].request];
        assert e in w.stored || e in w.receipts[k].rejected;
      } else {
        assert w'.receipts[k] == Receipt(request, rejected);
      }
    }
  }

  lemma SettleServed(w: World, w': World)
    requires Served(w) && Transmitted(w) && w.client.flight.Sending?
    requires exists k :: 0 <= k < |w.receipts| && w.receipts[k].request == w.awaiting
    requires w'.gone.settled == w.gone.settled + multiset(w.client.flight.batch)
    requires w' == w.(client := w'.client, gone := w'.gone)
    ensures Served(w')
  {
    var k :| 0 <= k < |w.receipts| && w.receipts[k].request == w.awaiting;
    forall e | e in w'.gone.settled ensures StoredOrRejected(w', e) {
      if e in w.gone.settled {
        assert StoredOrRejected(w, e);
      } else {
        assert e in w.client.flight.batch;
        assert e in w.requests[w.receipts[k].request];
        assert e in w.stored || RejectedBy(w', w'.receipts[k], e);
      }
    }
  }

  lemma OtherServed(w: World, w': World)
    requires Served(w)
    requires w'.stored == w.stored && w'.receipts == w.receipts && w'.gone.settled == w.gone.settled
    requires w.tracked <= w'.tracked && w.requests <= w'.requests
    ensures Served(w')
  {
    ReceiptsGrow(w, w');
    forall k, e | 0 <= k < |w'.receipts| && e in w'.requests[w'.receipts[k].request]
      ensures e in w'.stored || e in w'.receipts[k].rejected
    {
      assert e in w.requests[w.receipts[k].request];
    }
  }

  lemma OnlyGrows(w: World, cfg: Config, a: Action)
    requires !a.Process? && !(a.Answer? && MayAnswer(w, a.reply) && IsOk(a.reply))
    ensures var w' := Next(w, cfg, a);
      && w'.stored == w.stored && w'.receipts == w.receipts && w'.gone.settled == w.gone.settled
      && w.tracked <= w'.tracked && w.requests <= w'.requests
  {
  }

  lemma StepServed(w: World, cfg: Config, a: Action)
    requires Served(w) && Transmitted(w) && UniqueKeys(w.tracked)
    ensures Served(Next(w, cfg, a))
  {
    var w' := Next(w, cfg, a);
    if a.Process? {
      if a.request < |w.requests| { ProcessServed(w, a.request, a.rejected, w'); }
    } else if a.Answer? && MayAnswer(w, a.reply) && IsOk(a.reply) {
      SettleServed(w, w');
    } else {
      OnlyGrows(w, cfg, a);
      OtherServed(w, w');
    }
  }

  /** More stored events and more receipts never unsettle an event. */
  lemma ReceiptsGrow(w: World, w': World)
    requires Served(w) && w.stored <= w'.stored && w.receipts <= w'.receipts && w.requests <= w'.requests &&
      w'.gone.settled == w.gone.settled
    ensures forall e :: e in w'.gone.settled ==> StoredOrRejected(w', e)
  {
    forall e | e in w'.gone.settled ensures StoredOrRejected(w', e) {
      assert StoredOrRejected(w, e);
      if e !in w.stored {
        var k :| 0 <= k < |w.receipts| && RejectedBy(w, w.receipts[k], e);
        assert RejectedBy(w', w'.receipts[k], e);
      }
    }
  }

  lemma {:induction false} RunServed(cfg: Config, actions: seq<Action>)
    ensures Served(Run(cfg, actions))
  {
    if actions != [] {
      RunServed(cfg, actions[..|actions| - 1]);
      RunTransmitted(cfg, actions[..|actions| - 1]);
      RunAccounted(cfg, actions[..|actions| - 1]);
      StepServed(Run(cfg, actions[..|actions| - 1]), cfg, actions[|actions| - 1]);
    }
  }
}
