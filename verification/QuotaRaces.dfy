/**
 * Reads of the engine and records that interleave, for one key of the quota's cache
 * (apps/api/src/ingest/quota.ts): a read is asked for, more is written and recorded, and the
 * answer lands.
 */
module QuotaRaces {
  import opened IngestQuota

  /** Running totals of what was written and recorded; a read in flight holds the total it saw. */
  datatype Race = Race(readings: Readings, committed: nat, recorded: nat, snapshots: seq<nat>)

  datatype Move = Write(count: nat) | RecordWrite(count: nat) | BeginRead | Land(read: nat, at: int)

  predicate Possible(r: Race, move: Move) {
    match move
    case RecordWrite(count) => r.recorded + count <= r.committed
    case Land(read, _) => read < |r.snapshots|
    case _ => true
  }

  function Moved(r: Race, key: string, move: Move): Race
    requires Possible(r, move)
  {
    match move
    case Write(count) => r.(committed := r.committed + count)
    case RecordWrite(count) => r.(recorded := r.recorded + count, readings := Recorded(r.readings, key, count))
    case BeginRead => r.(snapshots := r.snapshots + [r.committed])
    case Land(read, at) => r.(readings := r.readings[key := Reading(r.snapshots[read], at)])
  }

  predicate Feasible(key: string, moves: seq<Move>)
    decreases |moves|, 0
  {
    moves == [] || (Feasible(key, moves[..|moves| - 1]) && Possible(Raced(key, moves[..|moves| - 1]), moves[|moves| - 1]))
  }

  function Raced(key: string, moves: seq<Move>): Race
    requires Feasible(key, moves)
    decreases |moves|, 1
  {
    if moves == [] then Race(map[], 0, 0, []) else Moved(Raced(key, moves[..|moves| - 1]), key, moves[|moves| - 1])
  }

  // ---- the moves themselves ---------------------------------------------------------------------------

  function WrittenIn(moves: seq<Move>): nat {
    if moves == [] then 0
    else
      var last := moves[|moves| - 1];
      WrittenIn(moves[..|moves| - 1]) + if last.Write? then last.count else 0
  }

  function RecordedIn(moves: seq<Move>): nat {
    if moves == [] then 0
    else
      var last := moves[|moves| - 1];
      RecordedIn(moves[..|moves| - 1]) + if last.RecordWrite? then last.count else 0
  }

  function ReadsIn(moves: seq<Move>): nat {
    if moves == [] then 0 else ReadsIn(moves[..|moves| - 1]) + if moves[|moves| - 1].BeginRead? then 1 else 0
  }

  /** Move `landed` is the last answer to land, and move `began` is where its read was asked for. */
  predicate LastRead(moves: seq<Move>, began: nat, landed: nat) {
    && began < landed < |moves| && moves[landed].Land?
    && (forall i :: landed < i < |moves| ==> !moves[i].Land?)
    && moves[began].BeginRead? && ReadsIn(moves[..began]) == moves[landed].read
  }

  lemma {:induction false} TheTotalsAre(key: string, moves: seq<Move>)
    requires Feasible(key, moves)
    ensures var r := Raced(key, moves);
      && r.committed == WrittenIn(moves) && r.recorded == RecordedIn(moves) && r.recorded <= r.committed
      && |r.snapshots| == ReadsIn(moves)
  {
    if moves != [] { TheTotalsAre(key, moves[..|moves| - 1]); }
  }

  /** A read sees what was written before it was asked for. */
  lemma {:induction false} AReadSees(key: string, moves: seq<Move>, began: nat)
    requires Feasible(key, moves) && began < |moves| && moves[began].BeginRead?
    ensures var r, read := Raced(key, moves), ReadsIn(moves[..began]);
      read < |r.snapshots| && r.snapshots[read] == WrittenIn(moves[..began])
  {
    var before := moves[..|moves| - 1];
    if began == |before| {
      TheTotalsAre(key, before);
    } else {
      assert before[..began] == moves[..began];
      AReadSees(key, before, began);
    }
  }

  /** In every interleaving the cached count is what the last read saw and what was recorded since it landed. */
  lemma {:induction false} TheCacheHolds(key: string, moves: seq<Move>, began: nat, landed: nat)
    requires Feasible(key, moves) && LastRead(moves, began, landed)
    ensures var r := Raced(key, moves);
      && key in r.readings && RecordedIn(moves[..landed]) <= RecordedIn(moves)
      && r.readings[key].used == WrittenIn(moves[..began]) + (RecordedIn(moves) - RecordedIn(moves[..landed]))
  {
    var before := moves[..|moves| - 1];
    if landed == |before| {
      assert before[..began] == moves[..began];
      AReadSees(key, before, began);
    } else {
      assert before[..began] == moves[..began] && before[..landed] == moves[..landed];
      TheCacheHolds(key, before, began, landed);
    }
  }

  lemma {:induction false} ReadBegan(moves: seq<Move>, read: nat) returns (began: nat)
    requires read < ReadsIn(moves)
    ensures began < |moves| && moves[began].BeginRead? && ReadsIn(moves[..began]) == read
  {
    var before := moves[..|moves| - 1];
    if ReadsIn(before) == read {
      began := |before|;
    } else {
      began := ReadBegan(before, read);
      assert before[..began] == moves[..began];
    }
  }

  /** A count is cached exactly when an answer has landed, and every answer was asked for. */
  lemma {:induction false} CachedIffLanded(key: string, moves: seq<Move>)
    requires Feasible(key, moves)
    ensures key in Raced(key, moves).readings <==> exists began, landed :: LastRead(moves, began, landed)
  {
    if moves != [] {
      var before, last := moves[..|moves| - 1], moves[|moves| - 1];
      if last.Land? {
        TheTotalsAre(key, before);
        var began := ReadBegan(before, last.read);
        assert before[..began] == moves[..began];
        assert LastRead(moves, began, |before|);
      } else {
        CachedIffLanded(key, before);
        forall began: nat, landed: nat ensures LastRead(before, began, landed) <==> LastRead(moves, began, landed) {
          if LastRead(before, began, landed) || LastRead(moves, began, landed) {
            assert before[..began] == moves[..began];
          }
        }
      }
    }
  }

  /** How far the cached count is from the store, in every interleaving. */
  lemma TheDriftIs(key: string, moves: seq<Move>, began: nat, landed: nat)
    requires Feasible(key, moves) && LastRead(moves, began, landed)
    ensures var r := Raced(key, moves);
      && key in r.readings
      && r.readings[key].used - WrittenIn(moves) ==
         (WrittenIn(moves[..began]) - RecordedIn(moves[..landed])) - (WrittenIn(moves) - RecordedIn(moves))
  {
    TheCacheHolds(key, moves, began, landed);
  }

  /**
   * With every write recorded, the cached count is the store's exactly when as much had been
   * written when its read was asked for as had been recorded when the answer landed.
   */
  lemma AtRestTheCacheIsExactIff(key: string, moves: seq<Move>, began: nat, landed: nat)
    requires Feasible(key, moves) && LastRead(moves, began, landed) && WrittenIn(moves) == RecordedIn(moves)
    ensures key in Raced(key, moves).readings
    ensures Raced(key, moves).readings[key].used == WrittenIn(moves) <==>
      WrittenIn(moves[..began]) == RecordedIn(moves[..landed])
  {
    TheCacheHolds(key, moves, began, landed);
  }

  lemma Extend(key: string, moves: seq<Move>, move: Move)
    requires Feasible(key, moves) && Possible(Raced(key, moves), move)
    ensures Feasible(key, moves + [move]) && Raced(key, moves + [move]) == Moved(Raced(key, moves), key, move)
  {
    assert (moves + [move])[..|moves|] == moves;
  }

  const MISSED: seq<Move> := [] + [BeginRead] + [Write(1)] + [RecordWrite(1)] + [Land(0, 0)]

  /** A write that the read missed and whose record found nothing cached is never counted. */
  lemma AWriteIsMissed(key: string)
    ensures Feasible(key, MISSED) && WrittenIn(MISSED) == RecordedIn(MISSED) == 1
    ensures key in Raced(key, MISSED).readings && Raced(key, MISSED).readings[key].used == 0
  {
    Extend(key, [], BeginRead);
    Extend(key, [] + [BeginRead], Write(1));
    Extend(key, [] + [BeginRead] + [Write(1)], RecordWrite(1));
    Extend(key, [] + [BeginRead] + [Write(1)] + [RecordWrite(1)], Land(0, 0));
    TheTotalsAre(key, MISSED);
  }

  const SEEN: seq<Move> := [] + [Write(1)] + [BeginRead] + [RecordWrite(1)] + [Land(0, 0)]

  /** A record that falls into the read does no harm when the read saw its write. */
  lemma AWriteIsSeen(key: string)
    ensures Feasible(key, SEEN) && WrittenIn(SEEN) == RecordedIn(SEEN) == 1
    ensures key in Raced(key, SEEN).readings && Raced(key, SEEN).readings[key].used == 1
  {
    Extend(key, [], Write(1));
    Extend(key, [] + [Write(1)], BeginRead);
    Extend(key, [] + [Write(1)] + [BeginRead], RecordWrite(1));
    Extend(key, [] + [Write(1)] + [BeginRead] + [RecordWrite(1)], Land(0, 0));
    TheTotalsAre(key, SEEN);
  }

  const TWICE: seq<Move> := [] + [Write(1)] + [BeginRead] + [Land(0, 0)] + [RecordWrite(1)]

  /** A write that the read saw and whose record comes after the answer is counted twice. */
  lemma AWriteCountsTwice(key: string)
    ensures Feasible(key, TWICE) && WrittenIn(TWICE) == RecordedIn(TWICE) == 1
    ensures key in Raced(key, TWICE).readings && Raced(key, TWICE).readings[key].used == 2
  {
    Extend(key, [], Write(1));
    Extend(key, [] + [Write(1)], BeginRead);
    Extend(key, [] + [Write(1)] + [BeginRead], Land(0, 0));
    Extend(key, [] + [Write(1)] + [BeginRead] + [Land(0, 0)], RecordWrite(1));
    TheTotalsAre(key, TWICE);
  }
}
