/**
 * Delivery end to end: the JavaScript client, a network that may lose, delay, reorder and
 * repeat requests and lose replies, and a server that deduplicates on (key, instant).
 */
module Delivery {
  import opened Common
  import opened Sequences
  import opened EventQueues
  import opened Contract
  import opened SdkClient

  // ---- the server ---------------------------------------------------------------------------

  function DedupKey(e: Event): (string, int) { (e.idempotencyKey, e.occurredAt) }

  predicate Known(stored: seq<Event>, key: (string, int)) {
    exists i :: 0 <= i < |stored| && DedupKey(stored[i]) == key
  }

  /** Storing a request: rejected events and events with a known key are passed over. */
  function Store(stored: seq<Event>, events: seq<Event>, rejected: set<Event>): seq<Event>
    decreases events
  {
    if events == [] then stored
    else
      var e := events[0];
      Store(if e in rejected || Known(stored, DedupKey(e)) then stored else stored + [e], events[1..], rejected)
  }

  datatype Receipt = Receipt(request: nat, rejected: set<Event>)

  // ---- the whole system ---------------------------------------------------------------------

  /** The client, everything ever transmitted, the server, and where each tracked event went. */
  datatype World = World(
    client: Client, requests: seq<seq<Event>>, awaiting: nat,
    stored: seq<Event>, receipts: seq<Receipt>,
    tracked: seq<Event>, gone: Fates)

  /** The ways an event leaves the client. */
  datatype Fates = Fates(
    settled: multiset<Event>, refused: multiset<Event>, fatal: multiset<Event>,
    beaconed: multiset<Event>, dropped: multiset<Event>, discarded: multiset<Event>)
  {
    function All(): multiset<Event> {
      settled + refused + fatal + beaconed + dropped + discarded
    }
  }

  const NOWHERE := Fates(multiset{}, multiset{}, multiset{}, multiset{}, multiset{}, multiset{})

  const START := World(INITIAL, [], 0, [], [], [], NOWHERE)

  datatype Action =
    | Track(name: string, visitId: string, properties: Option<Properties>, key: string, at: int, now: real)
    | Identify(userId: string)
    | Reset
    | Flush(now: real)
    | Settle
    | Hide(beacon: bool)
    | Shutdown(now: real)
    | Answer(reply: Reply, now: real, jitter: real)
    | Process(request: nat, rejected: set<Event>)

  /** A client step that may have put a batch on the wire. */
  function Emit(w: World, c: Client): World {
    if c.flight.Sending? && !w.client.flight.Sending? then
      w.(client := c, requests := w.requests + [c.flight.batch], awaiting := |w.requests|)
    else
      w.(client := c)
  }

  /**
   * A 2xx comes from the server, so only after it processed this very request. Any other
   * answer, or none, can come at any time: before, after or without processing.
   */
  predicate MayAnswer(w: World, reply: Reply) {
    w.client.flight.Sending? &&
    (IsOk(reply) ==> exists k :: 0 <= k < |w.receipts| && w.receipts[k].request == w.awaiting)
  }

  function OnAnswer(w: World, cfg: Config, reply: Reply, now: real, jitter: real): World
    requires w.client.flight.Sending?
  {
    var c, batch := w.client, w.client.flight.batch;
    var outcome := Classify(reply, now);
    var next := w.(client := Handled(c, cfg, outcome, now, jitter));
    match outcome
    case Accepted(_) => next.(gone := w.gone.(settled := w.gone.settled + multiset(batch)))
    case Retry(_) => next.(gone := w.gone.(dropped := w.gone.dropped + multiset(Lost(batch + c.queue, cfg.capacity))))
    case Refused(status) =>
      if status in FATAL_STATUSES then
        next.(gone := w.gone.(fatal := w.gone.fatal + multiset(batch), discarded := w.gone.discarded + multiset(c.queue)))
      else
        next.(gone := w.gone.(refused := w.gone.refused + multiset(batch)))
  }

  function OnTrack(w: World, cfg: Config, e: Event, now: real): World {
    Emit(w, Tracked(w.client, cfg, e, now)).(
      tracked := w.tracked + [e],
      gone := w.gone.(dropped := w.gone.dropped + multiset(Lost(w.client.queue + [e], cfg.capacity))))
  }

  function OnHide(w: World, cfg: Config, sent: bool): World {
    var c := w.client;
    var batch := Head(c, cfg);
    var next := w.(client := HiddenAt(c, cfg, sent));
    if batch == [] then next
    else if sent then next.(requests := w.requests + [batch], gone := w.gone.(beaconed := w.gone.beaconed + multiset(batch)))
    else next.(gone := w.gone.(dropped := w.gone.dropped + multiset(Lost(batch + Rest(c, cfg), cfg.capacity))))
  }

  /** One step. An action that cannot happen leaves the world as it is. */
  function Next(w: World, cfg: Config, a: Action): World {
    match a
    case Track(name, visitId, properties, key, at, now) =>
      // Minted keys are unique, as those of `crypto.randomUUID` are.
      if w.client.closed || w.client.disabled || Known(w.tracked, (key, at)) then w
      else OnTrack(w, cfg, Event(name, visitId, w.client.person, at, key, properties), now)
    case Identify(userId) => w.(client := w.client.(person := Trimmed(userId)))
    case Reset => w.(client := w.client.(person := None))
    case Flush(now) => Emit(w, Flushed(w.client, cfg, now))
    case Settle => w.(client := Settled(w.client))
    case Hide(sent) => if w.client.closed then w else OnHide(w, cfg, sent)
    case Shutdown(now) => Emit(w, ShutDown(w.client, cfg, now))
    case Answer(reply, now, jitter) => if MayAnswer(w, reply) then OnAnswer(w, cfg, reply, now, jitter) else w
    case Process(request, rejected) =>
      if request >= |w.requests| then w
      else
        w.(stored := Store(w.stored, w.requests[request], rejected),
           receipts := w.receipts + [Receipt(request, rejected)])
  }

  /** Every run is a sequence of actions; every reachable world is the end of one. */
  function Run(cfg: Config, actions: seq<Action>): World {
    if actions == [] then START else Next(Run(cfg, actions[..|actions| - 1]), cfg, actions[|actions| - 1])
  }

  // ---- what is transmitted, and when first --------------------------------------------------

  function Flat(requests: seq<seq<Event>>): seq<Event> {
    if requests == [] then [] else Flat(requests[..|requests| - 1]) + requests[|requests| - 1]
  }

  /** The log with repeats of an event removed, first occurrences kept. */
  function Firsts(log: seq<Event>): seq<Event> {
    if log == [] then []
    else
      var before, last := log[..|log| - 1], log[|log| - 1];
      if last in before then Firsts(before) else Firsts(before) + [last]
  }

  /** The events of `queue` that were never transmitted, in order. */
  function Unsent(queue: seq<Event>, log: seq<Event>): seq<Event> {
    if queue == [] then []
    else (if queue[0] in log then [] else [queue[0]]) + Unsent(queue[1..], log)
  }

  // ---- invariants -----------------------------------------------------------------------------

  /** What the client holds in memory, oldest first. */
  function Live(c: Client): seq<Event> { InFlight(c) + c.queue }

  function Held(c: Client): multiset<Event> { multiset(InFlight(c)) + multiset(c.queue) }

  ghost predicate Conserved(w: World) {
    multiset(w.tracked) == Held(w.client) + w.gone.All()
  }

  ghost predicate UniqueKeys(events: seq<Event>) {
    forall i, j {:trigger DedupKey(events[i]), DedupKey(events[j])} ::
      0 <= i < j < |events| ==> DedupKey(events[i]) != DedupKey(events[j])
  }

  ghost predicate Bounded(c: Client, cfg: Config) {
    |c.queue| <= Max(cfg.capacity, 0) && |InFlight(c)| <= Max(cfg.maxBatch, 0)
  }

  /** First transmissions followed by what is still unsent, given the queue and the log of transmissions. */
  function Sendings(queue: seq<Event>, log: seq<Event>): seq<Event> {
    Firsts(log) + Unsent(queue, log)
  }

  ghost predicate Ordered(w: World) {
    && Sub(Live(w.client), w.tracked)
    && Sub(Sendings(w.client.queue, Flat(w.requests)), w.tracked)
  }

  ghost predicate DropsCounted(w: World, cfg: Config) {
    cfg.capacity >= 0 ==> w.client.dropped == |w.gone.dropped|
  }

  /** Every event is accounted for. */
  ghost predicate Accounted(w: World, cfg: Config) {
    Conserved(w) && UniqueKeys(w.tracked) && Bounded(w.client, cfg) && DropsCounted(w, cfg)
  }

  ghost predicate Transmitted(w: World) {
    && (forall r, e :: 0 <= r < |w.requests| && e in w.requests[r] ==> e in w.tracked)
    && (w.client.flight.Sending? ==> w.awaiting < |w.requests| && w.requests[w.awaiting] == w.client.flight.batch)
    && (w.client.disabled ==> w.client.queue == [] && !w.client.flight.Sending?)
  }

  /** The server answered a request that carried `e` by rejecting `e`. */
  predicate RejectedBy(w: World, receipt: Receipt, e: Event) {
    receipt.request < |w.requests| && e in w.requests[receipt.request] && e in receipt.rejected
  }

  ghost predicate StoredOrRejected(w: World, e: Event) {
    e in w.stored || exists k :: 0 <= k < |w.receipts| && RejectedBy(w, w.receipts[k], e)
  }

  ghost predicate Served(w: World) {
    && UniqueKeys(w.stored)
    && (forall e :: e in w.stored ==> e in w.tracked)
    && (forall k :: 0 <= k < |w.receipts| ==> w.receipts[k].request < |w.requests|)
    && (forall k, e :: 0 <= k < |w.receipts| && e in w.requests[w.receipts[k].request] ==>
          e in w.stored || e in w.receipts[k].rejected)
    && (forall e :: e in w.gone.settled ==> StoredOrRejected(w, e))
  }
}
