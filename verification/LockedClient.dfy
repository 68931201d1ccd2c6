/**
 * The Go and Rust clients (packages/go/client.go, packages/rust/src/client.rs): a buffer behind a
 * mutex, flushed by any number of threads. Every method here is one critical section; what runs
 * between two of them, on any other thread, is the subject of LockedRuns.
 */
module LockedClient {
  import opened Common
  import opened Contract

  datatype Note =
    | Dropped(count: nat)
    | Rejected(total: nat)
    | RefusedNote(status: int)
    | DisabledNote(status: int, discarded: nat)

  /** What is behind the mutex. `T` is an event. */
  datatype Shared<T> = Shared(
    buffer: seq<T>, pausedUntil: int, attempt: nat, disabled: bool, closed: bool, notes: seq<Note>)

  function Fresh<T>(): Shared<T> { Shared([], 0, 0, false, false, []) }

  /** The oldest events over the bound. */
  function Overflowing<T>(buffer: seq<T>, bound: nat): seq<T> {
    if |buffer| <= bound then [] else buffer[..|buffer| - bound]
  }

  function Trimmed<T>(s: Shared<T>, bound: nat): Shared<T> {
    var lost := |Overflowing(s.buffer, bound)|;
    if lost == 0 then s
    else s.(buffer := s.buffer[lost..], notes := s.notes + [Dropped(lost)])
  }

  function Tracked<T>(s: Shared<T>, bound: nat, event: T): Shared<T> {
    if s.closed || s.disabled then s else Trimmed(s.(buffer := s.buffer + [event]), bound)
  }

  /** How many events a flush takes. */
  function Taken<T>(s: Shared<T>, batch: nat, now: int): nat {
    if s.disabled || now < s.pausedUntil then 0 else Min(|s.buffer|, batch)
  }

  function Requeued<T>(s: Shared<T>, bound: nat, batch: seq<T>): Shared<T> {
    Trimmed(s.(buffer := batch + s.buffer), bound)
  }

  /** The backoff pause: the ceiling of this attempt, scaled by a jitter in [0, 1). */
  function BackedOff<T>(s: Shared<T>, now: int, jitter: real): Shared<T> {
    s.(attempt := s.attempt + 1, pausedUntil := now + (jitter * (Ceiling(s.attempt + 1) as real)).Floor)
  }

  function Accepted<T>(s: Shared<T>, rejected: nat): Shared<T> {
    s.(attempt := 0, notes := if rejected > 0 then s.notes + [Rejected(rejected)] else s.notes)
  }

  function RefusedBy<T>(s: Shared<T>, status: int): Shared<T> {
    if status in FATAL_STATUSES then
      s.(buffer := [], disabled := true, notes := s.notes + [DisabledNote(status, |s.buffer|)])
    else
      s.(notes := s.notes + [RefusedNote(status)])
  }

  class Client<T> {
    const maxBatch: nat
    const maxBuffer: nat
    var buffer: seq<T>
    var pausedUntil: int
    var attempt: nat
    var disabled: bool
    var closed: bool
    var notes: seq<Note>

    ghost function State(): Shared<T>
      reads this
    {
      Shared(buffer, pausedUntil, attempt, disabled, closed, notes)
    }

    constructor (maxBatch: nat, maxBuffer: nat)
      ensures State() == Fresh() && this.maxBatch == maxBatch && this.maxBuffer == maxBuffer
    {
      this.maxBatch, this.maxBuffer := maxBatch, maxBuffer;
      buffer, pausedUntil, attempt, disabled, closed, notes := [], 0, 0, false, false, [];
    }

    method Track(event: T)
      modifies this
      ensures State() == Tracked(old(State()), maxBuffer, event)
    {
      if closed || disabled {
        return;
      }
      buffer := buffer + [event];
      Trim();
    }

    /** The critical section of Flush; the batch goes on the wire after the lock is released. */
    method TakeBatch(now: int) returns (batch: seq<T>)
      modifies this
      ensures batch + State().buffer == old(buffer) && |batch| == Taken(old(State()), maxBatch, now)
      ensures State() == old(State()).(buffer := State().buffer)
    {
      if disabled || now < pausedUntil {
        return [];
      }
      var take := |buffer|;
      if take > maxBatch {
        take := maxBatch;
      }
      batch := buffer[..take];
      buffer := buffer[take..];
    }

    method Requeue(batch: seq<T>)
      modifies this
      ensures State() == Requeued(old(State()), maxBuffer, batch)
    {
      buffer := batch + buffer;
      Trim();
    }

    method Trim()
      modifies this
      ensures State() == Trimmed(old(State()), maxBuffer)
    {
      var excess := |buffer| - maxBuffer;
      if excess <= 0 {
        return;
      }
      buffer := buffer[excess..];
      notes := notes + [Dropped(excess)];
    }

    method Backoff(now: int, jitter: real)
      modifies this
      ensures State() == BackedOff(old(State()), now, jitter)
    {
      attempt := attempt + 1;
      pausedUntil := now + (jitter * (Ceiling(attempt) as real)).Floor;
    }

    method PauseFor(now: int, ms: int)
      modifies this
      ensures State() == old(State()).(pausedUntil := now + ms)
    {
      pausedUntil := now + ms;
    }

    method Accept(rejected: nat)
      modifies this
      ensures State() == Accepted(old(State()), rejected)
    {
      attempt := 0;
      if rejected > 0 {
        notes := notes + [Rejected(rejected)];
      }
    }

    method Refuse(status: int)
      modifies this
      ensures State() == RefusedBy(old(State()), status)
    {
      if status in FATAL_STATUSES {
        var discarded := |buffer|;
        buffer := [];
        disabled := true;
        notes := notes + [DisabledNote(status, discarded)];
        return;
      }
      notes := notes + [RefusedNote(status)];
    }

    method Close()
      modifies this
      ensures State() == old(State()).(closed := true)
    {
      closed := true;
    }

    method TakeDiagnostics() returns (out: seq<Note>)
      modifies this
      ensures out == old(notes) && State() == old(State()).(notes := [])
    {
      out := notes;
      notes := [];
    }
  }

  // ---- the backoff schedule, which Rust writes with a capped exponent ------------------------------

  function RustCeiling(attempt: nat): nat {
    Min(BACKOFF_MAX_MS, BACKOFF_BASE_MS * Pow2(Min(if attempt == 0 then 0 else attempt - 1, 20)))
  }

  lemma {:induction false} Pow2Grows(m: nat, n: nat)
    requires m <= n
    ensures Pow2(m) <= Pow2(n)
  {
    if m < n { Pow2Grows(m, n - 1); }
  }

  lemma Pow2At20()
    ensures Pow2(7) == 128 && Pow2(20) == 1_048_576
  {
    assert Pow2(4) == 16;
    assert Pow2(8) == 256;
    assert Pow2(12) == 4096;
    assert Pow2(16) == 65_536;
  }

  /**
   * Rust's capped exponent never overflows 64 bits and changes nothing: on every attempt the
   * ceiling is that of the uncapped JavaScript and Go formula, which doubles from 500 ms and is
   * 60 s from the eighth attempt on.
   */
  lemma BackoffSchedulesAgree(attempt: nat)
    requires attempt >= 1
    ensures RustCeiling(attempt) == Ceiling(attempt) == LongestWait(attempt)
    ensures BACKOFF_BASE_MS * Pow2(Min(attempt - 1, 20)) < 0x1_0000_0000_0000_0000
    ensures Ceiling(attempt) == BACKOFF_MAX_MS <==> attempt >= 8
    ensures attempt < 7 ==> Ceiling(attempt + 1) == 2 * Ceiling(attempt)
  {
    CeilingIsTheLongestWait(attempt);
    Pow2At20();
    Pow2Grows(Min(attempt - 1, 20), 20);
    if attempt >= 8 {
      Pow2Grows(7, attempt - 1);
      Pow2Grows(7, Min(attempt - 1, 20));
    } else {
      Pow2Grows(attempt - 1, 6);
      assert Pow2(6) == 64;
    }
  }
}
