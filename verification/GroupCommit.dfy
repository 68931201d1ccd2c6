/**
 * Group commit (packages/ingestion/app/src/group-commit.ts, policy.ts): requests of one project ride
 * one write, and each is answered once the write has answered. A call of `submit` runs to the quota
 * check in one step and from the verdict on in another; a commit is answered in a third, and gives
 * up its slot in a fourth.
 */
module GroupCommits {
  import opened Common

  /** `id` tells events apart that carry no key. */
  datatype Event = Event(key: Option<string>, id: nat)

  /** A batch after admission: what was admitted, and how many were repeats or rejected. */
  datatype Request = Request(project: string, events: seq<Event>, duplicates: nat, rejected: nat)

  datatype Refusal = ShuttingDown | Backpressure | OverPlan | SinkUnavailable

  datatype Ack =
    | Committed(accepted: nat, deduplicated: nat, rejected: nat)
    | Refused(refusal: Refusal, rejected: nat)

  datatype Waiter = Waiter(request: nat, contributed: nat, offset: nat, duplicates: nat, rejected: nat)

  datatype Group = Group(project: string, events: seq<Event>, waiters: seq<Waiter>, openedAt: int)

  datatype Policy = Policy(linger: int, maxEvents: nat, maxWaiters: nat, maxBuffered: nat, maxInFlight: nat)

  /**
   * The groups, oldest first; the writes under way; how many are answered and still have their
   * slot; requests waiting for the quota; and the answers given.
   */
  datatype Hub = Hub(
    groups: seq<Group>, commits: seq<Group>, closing: nat, buffered: int, draining: bool,
    asking: map<nat, Request>, acks: map<nat, Ack>)

  const IDLE := Hub([], [], 0, 0, false, map[], map[])

  // ---- collapsing repeats (packages/ingestion/domain/src/dedup.ts) ------------------------------------------

  function Keys(events: seq<Event>): set<string> {
    set i | 0 <= i < |events| && events[i].key.Some? :: events[i].key.value
  }

  predicate Repeats(e: Event, seen: set<string>) { e.key.Some? && e.key.value in seen }

  /** The first of every key not seen before, and everything without a key. */
  function Unique(events: seq<Event>, seen: set<string>): (unique: seq<Event>)
    ensures |unique| <= |events|
  {
    if events == [] then []
    else
      var before := Unique(events[..|events| - 1], seen);
      var last := events[|events| - 1];
      if Repeats(last, seen + Keys(before)) then before else before + [last]
  }

  method CollapseDuplicates(events: seq<Event>, seen: set<string>) returns (unique: seq<Event>, duplicates: nat)
    ensures unique == Unique(events, seen) && |unique| + duplicates == |events|
  {
    unique, duplicates := [], 0;
    var keys := seen;
    for i := 0 to |events|
      invariant unique == Unique(events[..i], seen) && keys == seen + Keys(unique) && |unique| + duplicates == i
    {
      assert events[..i + 1][..i] == events[..i];
      if events[i].key.None? {
        KeysPush(unique, events[i]);
        unique := unique + [events[i]];
      } else if events[i].key.value in keys {
        duplicates := duplicates + 1;
      } else {
        KeysPush(unique, events[i]);
        keys := keys + {events[i].key.value};
        unique := unique + [events[i]];
      }
    }
    assert events[..|events|] == events;
  }

  lemma KeysPush(events: seq<Event>, e: Event)
    ensures Keys(events + [e]) == Keys(events) + if e.key.Some? then {e.key.value} else {}
  {
    var more := events + [e];
    forall k | k in Keys(events) ensures k in Keys(more) {
      var i :| 0 <= i < |events| && events[i].key == Some(k);
      assert more[i] == events[i];
    }
    if e.key.Some? { assert more[|events|].key == Some(e.key.value); }
  }

  // ---- when a group goes --------------------------------------------------------------------------------------

  predicate Ready(p: Policy, g: Group, draining: bool, at: int) {
    draining || |g.events| >= p.maxEvents || |g.waiters| >= p.maxWaiters || at >= g.openedAt + p.linger
  }

  predicate HasSlot(p: Policy, h: Hub) { |h.commits| + h.closing < p.maxInFlight }

  /** One group of the loop of `#pump`: it goes if it is ready and there is a slot. */
  function PumpedAt(p: Policy, h: Hub, i: nat, at: int): Hub
    requires i < |h.groups|
  {
    var g := h.groups[i];
    if Ready(p, g, h.draining, at) && HasSlot(p, h) then
      h.(groups := h.groups[..i] + h.groups[i + 1..], commits := h.commits + [g], buffered := h.buffered - |g.events|)
    else h
  }

  /** The loop from the `i`-th group still there. */
  function PumpedFrom(p: Policy, h: Hub, i: nat, at: int): Hub
    requires i <= |h.groups|
    decreases |h.groups| - i
  {
    if i == |h.groups| then h
    else
      var next := PumpedAt(p, h, i, at);
      PumpedFrom(p, next, if |next.groups| < |h.groups| then i else i + 1, at)
  }

  function Pumped(p: Policy, h: Hub, at: int): Hub { PumpedFrom(p, h, 0, at) }

  // ---- a request ------------------------------------------------------------------------------------------------

  function Answered(h: Hub, request: nat, ack: Ack): Hub { h.(acks := h.acks[request := ack]) }

  predicate Room(p: Policy, h: Hub, arriving: nat) { h.buffered + arriving <= p.maxBuffered }

  /** `submit` up to the quota check. */
  function Offered(p: Policy, h: Hub, id: nat, r: Request): Hub {
    if r.events == [] then Answered(h, id, Committed(0, r.duplicates, r.rejected))
    else if h.draining then Answered(h, id, Refused(ShuttingDown, r.rejected))
    else if !Room(p, h, |r.events|) then Answered(h, id, Refused(Backpressure, r.rejected))
    else h.(asking := h.asking[id := r])
  }

  function IndexOf(groups: seq<Group>, project: string): (i: nat)
    ensures i <= |groups| && (i < |groups| ==> groups[i].project == project)
    ensures forall k :: 0 <= k < i ==> groups[k].project != project
  {
    if groups == [] || groups[0].project == project then 0 else 1 + IndexOf(groups[1..], project)
  }

  /** A group with one request more. */
  function Joined(g: Group, id: nat, r: Request): Group {
    var unique := Unique(r.events, Keys(g.events));
    var waiter := Waiter(id, |unique|, |g.events|, r.duplicates + (|r.events| - |unique|), r.rejected);
    g.(events := g.events + unique, waiters := g.waiters + [waiter])
  }

  /** The request has joined the group of its project, which is opened if need be. */
  function JoinedHub(h: Hub, id: nat, r: Request, at: int): Hub {
    var i := IndexOf(h.groups, r.project);
    var g := if i < |h.groups| then h.groups[i] else Group(r.project, [], [], at);
    var more := Joined(g, id, r);
    h.(groups := if i < |h.groups| then h.groups[i := more] else h.groups + [more],
       buffered := h.buffered + (|more.events| - |g.events|))
  }

  datatype Verdict = Allowed | PlanExceeded | RateLimited

  function Forgotten(asking: map<nat, Request>, id: nat): map<nat, Request> { asking - {id} }

  /** `submit` from the verdict on. */
  function Resumed(p: Policy, h: Hub, id: nat, verdict: Verdict, at: int): Hub
    requires id in h.asking
  {
    var r := h.asking[id];
    var rest := h.(asking := Forgotten(h.asking, id));
    match verdict
    case PlanExceeded => Answered(rest, id, Refused(OverPlan, r.rejected))
    case RateLimited => Answered(rest, id, Refused(Backpressure, r.rejected))
    case Allowed =>
      if !Room(p, rest, |r.events|) then Answered(rest, id, Refused(Backpressure, r.rejected))
      else Pumped(p, JoinedHub(rest, id, r, at), at)
  }

  // ---- a commit ---------------------------------------------------------------------------------------------------

  /** How many of these flags are set. */
  function Trues(flags: seq<bool>): nat {
    if flags == [] then 0 else Trues(flags[..|flags| - 1]) + if flags[|flags| - 1] then 1 else 0
  }

  /** What the sink said: which events of the group are newly written, or that it failed. */
  datatype Written = Wrote(flags: seq<bool>) | Failed

  function Mine(w: Waiter, flags: seq<bool>): nat {
    if w.offset + w.contributed <= |flags| then Trues(flags[w.offset..w.offset + w.contributed]) else 0
  }

  function AckFor(w: Waiter, written: Written): Ack {
    match written
    case Failed => Refused(SinkUnavailable, w.rejected)
    case Wrote(flags) =>
      Committed(Mine(w, flags), if w.duplicates + w.contributed >= Mine(w, flags) then w.duplicates + w.contributed - Mine(w, flags) else 0, w.rejected)
  }

  function Settled(acks: map<nat, Ack>, waiters: seq<Waiter>, written: Written): map<nat, Ack> {
    if waiters == [] then acks
    else
      var last := waiters[|waiters| - 1];
      Settled(acks, waiters[..|waiters| - 1], written)[last.request := AckFor(last, written)]
  }

  /** The write has answered: everyone riding it is. */
  function Finished(h: Hub, c: nat, written: Written): Hub
    requires c < |h.commits|
  {
    h.(acks := Settled(h.acks, h.commits[c].waiters, written), commits := h.commits[..c] + h.commits[c + 1..],
       closing := h.closing + 1)
  }

  /** An answered write gives up its slot, and the next group may go. */
  function Released(p: Policy, h: Hub, at: int): Hub
    requires h.closing > 0
  {
    Pumped(p, h.(closing := h.closing - 1), at)
  }

  function Draining(p: Policy, h: Hub, at: int): Hub { Pumped(p, h.(draining := true), at) }

  // ---- the class ----------------------------------------------------------------------------------------------------

  class GroupCommit {
    const policy: Policy
    var groups: seq<Group>
    var commits: seq<Group>
    var closing: nat
    var buffered: int
    var draining: bool
    var asking: map<nat, Request>
    var acks: map<nat, Ack>

    ghost function Now(): Hub
      reads this
    {
      Hub(groups, commits, closing, buffered, draining, asking, acks)
    }

    constructor (policy: Policy)
      ensures this.policy == policy && Now() == IDLE
    {
      this.policy := policy;
      groups, commits, closing, buffered, draining, asking, acks := [], [], 0, 0, false, map[], map[];
    }

    method Offer(id: nat, r: Request)
      modifies this
      ensures Now() == Offered(policy, old(Now()), id, r)
    {
      if |r.events| == 0 {
        acks := acks[id := Committed(0, r.duplicates, r.rejected)];
        return;
      }
      if draining {
        acks := acks[id := Refused(ShuttingDown, r.rejected)];
        return;
      }
      if buffered + |r.events| > policy.maxBuffered {
        acks := acks[id := Refused(Backpressure, r.rejected)];
        return;
      }
      asking := asking[id := r];
    }

    method Resume(id: nat, verdict: Verdict, at: int)
      requires id in asking
      modifies this
      ensures Now() == Resumed(policy, old(Now()), id, verdict, at)
    {
      var r := asking[id];
      asking := asking - {id};
      if verdict.PlanExceeded? {
        acks := acks[id := Refused(OverPlan, r.rejected)];
        return;
      }
      if verdict.RateLimited? || buffered + |r.events| > policy.maxBuffered {
        acks := acks[id := Refused(Backpressure, r.rejected)];
        return;
      }
      Join(id, r, at);
      Pump(at);
    }

    method Join(id: nat, r: Request, at: int)
      modifies this
      ensures Now() == JoinedHub(old(Now()), id, r, at)
    {
      var i := IndexOf(groups, r.project);
      if i == |groups| {
        groups := groups + [Group(r.project, [], [], at)];
      }
      var g := groups[i];
      var unique, repeats := CollapseDuplicates(r.events, Keys(g.events));
      var waiter := Waiter(id, |unique|, |g.events|, r.duplicates + repeats, r.rejected);
      groups := groups[i := g.(events := g.events + unique, waiters := g.waiters + [waiter])];
      buffered := buffered + |unique|;
    }

    method Pump(at: int)
      modifies this
      ensures Now() == Pumped(policy, old(Now()), at)
    {
      var i := 0;
      while i < |groups|
        invariant i <= |groups| && PumpedFrom(policy, Now(), i, at) == Pumped(policy, old(Now()), at)
        decreases |groups| - i
      {
        var g := groups[i];
        if Ready(policy, g, draining, at) && |commits| + closing < policy.maxInFlight {
          groups := groups[..i] + groups[i + 1..];
          buffered := buffered - |g.events|;
          commits := commits + [g];
        } else {
          i := i + 1;
        }
      }
    }

    method Finish(c: nat, written: Written)
      requires c < |commits|
      modifies this
      ensures Now() == Finished(old(Now()), c, written)
    {
      var waiters := commits[c].waiters;
      for i := 0 to |waiters|
        invariant acks == Settled(old(acks), waiters[..i], written)
        modifies this`acks
      {
        assert waiters[..i + 1][..i] == waiters[..i];
        acks := acks[waiters[i].request := AckFor(waiters[i], written)];
      }
      assert waiters[..|waiters|] == waiters;
      commits := commits[..c] + commits[c + 1..];
      closing := closing + 1;
    }

    /** The `finally` of a commit. */
    method Release(at: int)
      requires closing > 0
      modifies this
      ensures Now() == Released(policy, old(Now()), at)
    {
      closing := closing - 1;
      Pump(at);
    }

    method Drain(at: int)
      modifies this
      ensures Now() == Draining(policy, old(Now()), at)
    {
      draining := true;
      Pump(at);
    }

    /** When to look again: the earliest deadline of a group, if there is one. */
    method NextDeadlineAt() returns (earliest: Option<int>)
      ensures earliest.None? <==> groups == []
      ensures earliest.Some? ==> exists i :: 0 <= i < |groups| && groups[i].openedAt + policy.linger == earliest.value
      ensures earliest.Some? ==> forall i :: 0 <= i < |groups| ==> earliest.value <= groups[i].openedAt + policy.linger
    {
      earliest := None;
      for i := 0 to |groups|
        invariant earliest.None? <==> i == 0
        invariant earliest.Some? ==> exists k :: 0 <= k < i && groups[k].openedAt + policy.linger == earliest.value
        invariant earliest.Some? ==> forall k :: 0 <= k < i ==> earliest.value <= groups[k].openedAt + policy.linger
      {
        var at := groups[i].openedAt + policy.linger;
        earliest := if earliest.None? || at < earliest.value then Some(at) else earliest;
      }
    }
  }
}
