/**
 * The JavaScript client (packages/sdk-js/src/client.ts) over the classified answers of
 * packages/sdk-js/src/transport.ts.
 *
 * A call of `flush` runs to its first `await` in one step; the answer, and the microtask that
 * clears `inFlight`, are later steps. Times are reals, so a jittered pause is exact.
 */
module SdkClient {
  import opened Common
  import opened Contract
  import opened EventQueues

  type Properties = map<string, string>

  datatype Event = Event(
    name: string, visitId: string, userId: Option<string>,
    occurredAt: int, idempotencyKey: string, properties: Option<Properties>)

  // ---- transport.ts: what an answer means -------------------------------------------------

  /** What `Number(header)` and `Date.parse(header)` make of a Retry-After header. */
  datatype RetryAfter = RetryAfter(number: Option<real>, date: Option<real>)

  datatype Reply =
    | NetworkError
    | Response(status: int, retryable: Option<bool>, retryAfter: Option<RetryAfter>, rejected: nat)

  datatype Outcome =
    | Accepted(rejected: nat)
    | Retry(retryAfterMs: Option<real>)
    | Refused(status: int)

  function ParseRetryAfter(header: Option<RetryAfter>, now: real): Option<real> {
    if header.None? then None
    else if header.value.number.Some? && header.value.number.value >= 0.0 then
      Some(header.value.number.value * 1000.0)
    else if header.value.date.Some? then
      Some(if header.value.date.value - now >= 0.0 then header.value.date.value - now else 0.0)
    else None
  }

  predicate IsOk(reply: Reply) {
    reply.Response? && 200 <= reply.status < 300
  }

  function Classify(reply: Reply, now: real): Outcome {
    match reply
    case NetworkError => Retry(None)
    case Response(status, retryable, retryAfter, rejected) =>
      if 200 <= status < 300 then Accepted(rejected)
      else if !(if retryable.Some? then retryable.value else status in RETRYABLE_STATUSES) then Refused(status)
      else Retry(ParseRetryAfter(retryAfter, now))
  }

  // ---- client.ts: the steps ----------------------------------------------------------------

  datatype Diagnostic =
    | RefusedBatch(status: int)
    | Disabled(status: int, discarded: nat)
    | DroppedEvents(lost: int)
    | RejectedEvents(count: nat)

  /** `inFlight`: no promise, a batch on the wire, or a promise whose `finally` has not run. */
  datatype Flight = Idle | Sending(batch: seq<Event>) | Settling

  datatype Config = Config(capacity: int, maxBatch: int)

  datatype Client = Client(
    queue: seq<Event>, dropped: int, flight: Flight, pausedUntil: real, attempt: nat,
    closed: bool, disabled: bool, person: Option<string>, diagnostics: seq<Diagnostic>)

  /** The batch on the wire, if any. */
  function InFlight(c: Client): seq<Event> {
    if c.flight.Sending? then c.flight.batch else []
  }

  const INITIAL := Client([], 0, Idle, 0.0, 0, false, false, None, [])

  function Head(c: Client, cfg: Config): seq<Event> {
    c.queue[..Spliced(cfg.maxBatch, |c.queue|)]
  }

  function Rest(c: Client, cfg: Config): seq<Event> {
    c.queue[Spliced(cfg.maxBatch, |c.queue|)..]
  }

  /** True when a flush would put a batch on the wire. */
  predicate WouldSend(c: Client, cfg: Config, now: real) {
    c.flight.Idle? && !c.disabled && now >= c.pausedUntil && Head(c, cfg) != []
  }

  function Flushed(c: Client, cfg: Config, now: real): Client {
    if !c.flight.Idle? then c
    else if WouldSend(c, cfg, now) then c.(flight := Sending(Head(c, cfg)), queue := Rest(c, cfg))
    else c.(flight := Settling)
  }

  function Pushed(c: Client, cfg: Config, event: Event): Client {
    var excess := Excess(|c.queue| + 1, cfg.capacity);
    c.(queue := Kept(c.queue + [event], cfg.capacity),
       dropped := c.dropped + excess,
       diagnostics := if excess > 0 then c.diagnostics + [DroppedEvents(excess)] else c.diagnostics)
  }

  function Tracked(c: Client, cfg: Config, event: Event, now: real): Client {
    if c.closed || c.disabled then c
    else
      var pushed := Pushed(c, cfg, event);
      if |pushed.queue| >= cfg.maxBatch then Flushed(pushed, cfg, now) else pushed
  }

  function Requeued(c: Client, cfg: Config, batch: seq<Event>): Client {
    c.(queue := Kept(batch + c.queue, cfg.capacity),
       dropped := c.dropped + Excess(|batch| + |c.queue|, cfg.capacity))
  }

  /** `handle`, then the drain returns: the promise is settled but not yet cleared. */
  function Handled(c: Client, cfg: Config, outcome: Outcome, now: real, jitter: real): Client
    requires c.flight.Sending?
  {
    var batch := c.flight.batch;
    var done := c.(flight := Settling);
    match outcome
    case Accepted(rejected) =>
      done.(attempt := 0,
            diagnostics := if rejected > 0 then c.diagnostics + [RejectedEvents(rejected)] else c.diagnostics)
    case Refused(status) =>
      if status in FATAL_STATUSES then
        done.(queue := [], disabled := true, diagnostics := c.diagnostics + [Disabled(status, |c.queue|)])
      else
        done.(diagnostics := c.diagnostics + [RefusedBatch(status)])
    case Retry(after) =>
      var paused :=
        if after.Some? then done.(pausedUntil := now + after.value)
        else done.(attempt := c.attempt + 1, pausedUntil := now + jitter * (Ceiling(c.attempt + 1) as real));
      Requeued(paused, cfg, batch)
  }

  /** The `finally` of `flush`. */
  function Settled(c: Client): Client {
    if c.flight.Settling? then c.(flight := Idle) else c
  }

  function HiddenAt(c: Client, cfg: Config, sent: bool): Client {
    var batch := Head(c, cfg);
    var rest := c.(queue := Rest(c, cfg));
    if batch == [] || sent then rest else Requeued(rest, cfg, batch)
  }

  function ShutDown(c: Client, cfg: Config, now: real): Client {
    Flushed(c.(closed := true), cfg, now)
  }

  function Trimmed(userId: string): Option<string> {
    var trimmed := Trim(userId);
    if trimmed == "" then None else Some(trimmed)
  }

  /** `String.prototype.trim`. */
  function Trim(s: string): string
    decreases |s|
  {
    if s == "" then ""
    else if IsSpace(s[0]) then Trim(s[1..])
    else if IsSpace(s[|s| - 1]) then Trim(s[..|s| - 1])
    else s
  }

  predicate IsSpace(c: char) {
    || c == ' ' || '\t' <= c <= '\r' || c == '\U{A0}' || c == '\U{1680}' || '\U{2000}' <= c <= '\U{200A}'
    || c == '\U{2028}' || c == '\U{2029}' || c == '\U{202F}' || c == '\U{205F}' || c == '\U{3000}' || c == '\U{FEFF}'
  }

  // ---- client.ts: the class ----------------------------------------------------------------

  class Counted {
    const queue: EventQueue<Event>
    const cfg: Config
    var flight: Flight
    var pausedUntil: real
    var attempt: nat
    var closed: bool
    var disabled: bool
    var person: Option<string>
    var diagnostics: seq<Diagnostic>

    ghost predicate Valid()
      reads this, queue
    {
      queue.capacity == cfg.capacity
    }

    ghost function State(): Client
      reads this, queue
    {
      Client(queue.events, queue.dropped, flight, pausedUntil, attempt, closed, disabled, person, diagnostics)
    }

    constructor (maxBatch: int, capacity: int)
      ensures Valid() && fresh(queue)
      ensures State() == INITIAL && cfg == Config(capacity, Min(maxBatch, 250))
    {
      queue := new EventQueue(capacity);
      cfg := Config(capacity, Min(maxBatch, 250));
      flight, pausedUntil, attempt := Idle, 0.0, 0;
      closed, disabled, person, diagnostics := false, false, None, [];
    }

    method Identify(userId: string)
      requires Valid()
      modifies this
      ensures Valid() && State() == old(State()).(person := Trimmed(userId))
    {
      person := Trimmed(userId);
    }

    method Reset()
      requires Valid()
      modifies this
      ensures Valid() && State() == old(State()).(person := None)
    {
      person := None;
    }

    method Track(name: string, properties: Option<Properties>, visitId: string, key: string, at: int, now: real)
      requires Valid()
      modifies this, queue
      ensures Valid()
      ensures State() == Tracked(old(State()), cfg, Event(name, visitId, old(person), at, key, properties), now)
    {
      if closed || disabled {
        return;
      }
      var before := queue.dropped;
      queue.Push(Event(name, visitId, person, at, key, properties));
      var dropped := queue.dropped - before;
      if dropped > 0 {
        diagnostics := diagnostics + [DroppedEvents(dropped)];
      }
      if |queue.events| >= cfg.maxBatch {
        Flush(now);
      }
    }

    method Flush(now: real)
      requires Valid()
      modifies this, queue
      ensures Valid()
      ensures State() == Flushed(old(State()), cfg, now)
    {
      if !flight.Idle? {
        return;
      }
      if disabled || |queue.events| == 0 || now < pausedUntil {
        flight := Settling;
        return;
      }
      ghost var before := queue.events;
      var batch := queue.Take(cfg.maxBatch);
      assert batch == before[..|batch|] && queue.events == before[|batch|..];
      if |batch| == 0 {
        flight := Settling;
        return;
      }
      flight := Sending(batch);
    }

    method Handle(outcome: Outcome, now: real, jitter: real)
      requires Valid() && flight.Sending?
      modifies this, queue
      ensures Valid()
      ensures State() == Handled(old(State()), cfg, outcome, now, jitter)
    {
      var batch := flight.batch;
      flight := Settling;
      match outcome
      case Accepted(rejected) =>
        attempt := 0;
        if rejected > 0 {
          diagnostics := diagnostics + [RejectedEvents(rejected)];
        }
      case Refused(status) =>
        if status in FATAL_STATUSES {
          var discarded := |queue.events|;
          var _ := queue.Take(|queue.events|);
          disabled := true;
          diagnostics := diagnostics + [Disabled(status, discarded)];
          assert queue.events == [];
          return;
        }
        diagnostics := diagnostics + [RefusedBatch(status)];
      case Retry(after) =>
        if after.Some? {
          pausedUntil := now + after.value;
        } else {
          attempt := attempt + 1;
          pausedUntil := now + jitter * (Ceiling(attempt) as real);
        }
        queue.Requeue(batch);
    }

    method Settle()
      requires Valid()
      modifies this
      ensures Valid() && State() == Settled(old(State()))
    {
      if flight.Settling? {
        flight := Idle;
      }
    }

    method OnHidden(sent: bool)
      requires Valid()
      modifies queue
      ensures Valid() && State() == HiddenAt(old(State()), cfg, sent)
    {
      ghost var before := queue.events;
      var batch := queue.Take(cfg.maxBatch);
      assert batch == before[..|batch|] && queue.events == before[|batch|..];
      if |batch| == 0 {
        return;
      }
      if !sent {
        queue.Requeue(batch);
      }
    }

    method Shutdown(now: real)
      requires Valid()
      modifies this, queue
      ensures Valid() && State() == ShutDown(old(State()), cfg, now)
    {
      closed := true;
      Flush(now);
    }
  }
}
