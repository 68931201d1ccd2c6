/**
 * Group commit over whole runs: any interleaving of requests, verdicts of the quota, ticks, answers
 * of a sink that deduplicates, fails or fails after it wrote, slots given up, and a drain.
 */
module GroupCommitRuns {
  import opened Common
  import opened GroupCommits

  // ---- the sink -------------------------------------------------------------------------------------------

  /** Uniqueness of keys across every batch a project ever wrote. */
  function Store(store: seq<Event>, events: seq<Event>): seq<Event> { store + Unique(events, Keys(store)) }

  /** Which of the events are newly written. */
  function New(events: seq<Event>, seen: set<string>): (flags: seq<bool>)
    ensures |flags| == |events|
  {
    if events == [] then []
    else
      var init := events[..|events| - 1];
      New(init, seen) + [!Repeats(events[|events| - 1], seen + Keys(Unique(init, seen)))]
  }

  /** The receipt counts what the store gained. */
  lemma {:induction false} ReceiptIsTheGain(events: seq<Event>, seen: set<string>)
    ensures Trues(New(events, seen)) == |Unique(events, seen)|
  {
    if events != [] {
      var init := events[..|events| - 1];
      ReceiptIsTheGain(init, seen);
      assert New(events, seen)[..|events| - 1] == New(init, seen);
    }
  }

  // ---- worlds and steps -------------------------------------------------------------------------------------

  /** `requests` are all that were ever submitted, by number. The store keeps projects apart. */
  datatype World = World(hub: Hub, store: map<string, seq<Event>>, requests: map<nat, Request>)

  function Own(store: map<string, seq<Event>>, project: string): seq<Event> {
    if project in store then store[project] else []
  }

  /** A write that worked, or one that failed, perhaps after it reached the store. */
  datatype Outcome = Stored | Lost(landed: bool)

  datatype Action =
    | Submit(id: nat, request: Request)
    | Rule(id: nat, verdict: Verdict, at: int)
    | Tick(at: int)
    | Answer(commit: nat, outcome: Outcome)
    | Release(at: int)
    | Drain(at: int)

  /** The sink has answered a commit, and so is everyone riding it. */
  function Afterwards(w: World, c: nat, outcome: Outcome): World
    requires c < |w.hub.commits|
  {
    var g := w.hub.commits[c];
    var own := Own(w.store, g.project);
    var written := if outcome.Stored? then Wrote(New(g.events, Keys(own))) else Failed;
    w.(hub := Finished(w.hub, c, written),
       store := if outcome == Lost(false) then w.store else w.store[g.project := Store(own, g.events)])
  }

  function Next(p: Policy, w: World, a: Action): World {
    match a
    case Submit(id, request) =>
      if id in w.requests then w
      else w.(hub := Offered(p, w.hub, id, request), requests := w.requests[id := request])
    case Rule(id, verdict, at) => if id in w.hub.asking then w.(hub := Resumed(p, w.hub, id, verdict, at)) else w
    case Tick(at) => w.(hub := Pumped(p, w.hub, at))
    case Answer(c, outcome) => if c < |w.hub.commits| then Afterwards(w, c, outcome) else w
    case Release(at) => if w.hub.closing > 0 then w.(hub := Released(p, w.hub, at)) else w
    case Drain(at) => w.(hub := Draining(p, w.hub, at))
  }

  const BEGINNING := World(IDLE, map[], map[])

  function Run(p: Policy, actions: seq<Action>): World {
    if actions == [] then BEGINNING else Next(p, Run(p, actions[..|actions| - 1]), actions[|actions| - 1])
  }

  // ---- what holds of a group ----------------------------------------------------------------------------------

  /** The store, or a group, has the event or one with its key. */
  predicate Has(events: seq<Event>, e: Event) {
    if e.key.Some? then e.key.value in Keys(events) else e in events
  }

  ghost predicate HasAll(events: seq<Event>, wanted: seq<Event>) {
    forall i :: 0 <= i < |wanted| ==> Has(events, wanted[i])
  }

  function Contributed(waiters: seq<Waiter>): nat {
    if waiters == [] then 0 else Contributed(waiters[..|waiters| - 1]) + waiters[|waiters| - 1].contributed
  }

  ghost predicate WaiterSound(g: Group, w: Waiter, requests: map<nat, Request>) {
    w.request in requests && var r := requests[w.request];
    && r.project == g.project && w.rejected == r.rejected
    && w.duplicates + w.contributed == r.duplicates + |r.events|
    && HasAll(g.events, r.events)
  }

  /** Every waiter's events ride the group, in slices one after the other. */
  ghost predicate GroupSound(g: Group, requests: map<nat, Request>) {
    && (forall i :: 0 <= i < |g.waiters| ==> WaiterSound(g, g.waiters[i], requests))
    && (forall i :: 0 <= i < |g.waiters| ==> g.waiters[i].offset == Contributed(g.waiters[..i]))
    && Contributed(g.waiters) == |g.events|
    && (forall i :: 0 <= i < |g.waiters| ==> OwnSlice(g, g.waiters[i], requests))
  }

  /** The slice of a waiter is made of events of its own request. */
  ghost predicate OwnSlice(g: Group, w: Waiter, requests: map<nat, Request>) {
    w.request in requests &&
    forall k :: w.offset <= k < w.offset + w.contributed && k < |g.events| ==> g.events[k] in requests[w.request].events
  }

  ghost predicate AllSound(groups: seq<Group>, requests: map<nat, Request>) {
    forall i :: 0 <= i < |groups| ==> GroupSound(groups[i], requests)
  }

  lemma {:induction false} UniqueHas(events: seq<Event>, seen: set<string>, base: seq<Event>)
    requires seen == Keys(base)
    ensures HasAll(base + Unique(events, seen), events)
  {
    if events != [] {
      var init, last := events[..|events| - 1], events[|events| - 1];
      UniqueHas(init, seen, base);
      var before := Unique(init, seen);
      KeysConcat(base, before);
      if !Repeats(last, seen + Keys(before)) {
        HasStays(base + before, [last], init);
        assert base + before + [last] == base + (before + [last]);
        assert Has(base + (before + [last]), last) by {
          KeysConcat(base + before, [last]);
          if last.key.Some? { assert [last][0].key == Some(last.key.value); }
        }
      }
    }
  }

  lemma KeysConcat(a: seq<Event>, b: seq<Event>)
    ensures Keys(a + b) == Keys(a) + Keys(b)
  {
    forall k | k in Keys(a) ensures k in Keys(a + b) {
      var i :| 0 <= i < |a| && a[i].key == Some(k);
      assert (a + b)[i] == a[i];
    }
    forall k | k in Keys(b) ensures k in Keys(a + b) {
      var i :| 0 <= i < |b| && b[i].key == Some(k);
      assert (a + b)[|a| + i] == b[i];
    }
  }

  /** What a sequence of events has it still has when it grows. */
  lemma HasStays(events: seq<Event>, more: seq<Event>, wanted: seq<Event>)
    requires HasAll(events, wanted)
    ensures HasAll(events + more, wanted)
  {
    KeysConcat(events, more);
    forall i | 0 <= i < |wanted| ensures Has(events + more, wanted[i]) { assert Has(events, wanted[i]); }
  }

  lemma JoinSound(g: Group, id: nat, r: Request, requests: map<nat, Request>)
    requires GroupSound(g, requests) && id in requests && requests[id] == r && g.project == r.project
    ensures GroupSound(Joined(g, id, r), requests)
  {
    var unique := Unique(r.events, Keys(g.events));
    var more := Joined(g, id, r);
    UniqueHas(r.events, Keys(g.events), g.events);
    forall i | 0 <= i < |more.waiters| ensures WaiterSound(more, more.waiters[i], requests) {
      if i < |g.waiters| {
        assert WaiterSound(g, g.waiters[i], requests);
        HasStays(g.events, unique, requests[g.waiters[i].request].events);
      }
    }
    forall i | 0 <= i < |more.waiters| ensures more.waiters[i].offset == Contributed(more.waiters[..i]) {
      assert more.waiters[..i] == g.waiters[..i];
      assert g.waiters[..|g.waiters|] == g.waiters;
    }
    assert more.waiters[..|more.waiters| - 1] == g.waiters;
    forall i | 0 <= i < |more.waiters| ensures OwnSlice(more, more.waiters[i], requests) {
      JoinSlices(g, id, r, requests, i);
    }
  }

  lemma JoinSlices(g: Group, id: nat, r: Request, requests: map<nat, Request>, i: nat)
    requires GroupSound(g, requests) && id in requests && requests[id] == r && i < |Joined(g, id, r).waiters|
    ensures OwnSlice(Joined(g, id, r), Joined(g, id, r).waiters[i], requests)
  {
    var more := Joined(g, id, r);
    if i < |g.waiters| {
      assert OwnSlice(g, g.waiters[i], requests);
      OffsetsFit(g.waiters, i);
    } else {
      UniqueWithin(r.events, Keys(g.events));
      assert forall k :: |g.events| <= k < |more.events| ==> more.events[k] == Unique(r.events, Keys(g.events))[k - |g.events|];
    }
  }

  lemma {:induction false} UniqueWithin(events: seq<Event>, seen: set<string>)
    ensures forall e :: e in Unique(events, seen) ==> e in events
  {
    if events != [] { UniqueWithin(events[..|events| - 1], seen); }
  }

  lemma GroupGrows(g: Group, requests: map<nat, Request>, id: nat, r: Request)
    requires GroupSound(g, requests) && id !in requests
    ensures GroupSound(g, requests[id := r])
  {
    forall i | 0 <= i < |g.waiters|
      ensures WaiterSound(g, g.waiters[i], requests[id := r]) && OwnSlice(g, g.waiters[i], requests[id := r])
    {
      assert WaiterSound(g, g.waiters[i], requests) && OwnSlice(g, g.waiters[i], requests);
    }
  }

  // ---- the receipts of one commit ---------------------------------------------------------------------------------

  /** All that the waiters of a commit are told was newly written. */
  function AllMine(waiters: seq<Waiter>, flags: seq<bool>): nat {
    if waiters == [] then 0 else AllMine(waiters[..|waiters| - 1], flags) + Mine(waiters[|waiters| - 1], flags)
  }

  lemma {:induction false} TruesConcat(a: seq<bool>, b: seq<bool>)
    ensures Trues(a + b) == Trues(a) + Trues(b)
  {
    if b == [] {
      assert a + b == a;
    } else {
      TruesConcat(a, b[..|b| - 1]);
      assert (a + b)[..|a + b| - 1] == a + b[..|b| - 1];
    }
  }

  lemma {:induction false} MineAddsUp(waiters: seq<Waiter>, flags: seq<bool>)
    requires forall i :: 0 <= i < |waiters| ==> waiters[i].offset == Contributed(waiters[..i])
    requires Contributed(waiters) <= |flags|
    ensures AllMine(waiters, flags) == Trues(flags[..Contributed(waiters)])
  {
    if waiters != [] {
      var init, last := waiters[..|waiters| - 1], waiters[|waiters| - 1];
      forall i | 0 <= i < |init| ensures init[i].offset == Contributed(init[..i]) { assert init[..i] == waiters[..i]; }
      MineAddsUp(init, flags);
      var cut, end := Contributed(init), Contributed(waiters);
      TruesConcat(flags[..cut], flags[cut..end]);
      assert flags[..cut] + flags[cut..end] == flags[..end];
    }
  }

  /** The events the requests of a commit are told were accepted are, together, exactly those newly stored. */
  lemma AcceptedAddsUp(g: Group, requests: map<nat, Request>, store: seq<Event>)
    requires GroupSound(g, requests)
    ensures var flags := New(g.events, Keys(store));
      AllMine(g.waiters, flags) == Trues(flags) == |Store(store, g.events)| - |store|
  {
    var flags := New(g.events, Keys(store));
    MineAddsUp(g.waiters, flags);
    assert flags[..|g.events|] == flags;
    ReceiptIsTheGain(g.events, Keys(store));
  }

  lemma {:induction false} TruesBound(flags: seq<bool>)
    ensures Trues(flags) <= |flags|
  {
    if flags != [] { TruesBound(flags[..|flags| - 1]); }
  }

  lemma {:induction false} OffsetsFit(waiters: seq<Waiter>, i: nat)
    requires forall k :: 0 <= k < |waiters| ==> waiters[k].offset == Contributed(waiters[..k])
    requires i < |waiters|
    ensures waiters[i].offset + waiters[i].contributed <= Contributed(waiters)
    decreases |waiters|
  {
    var init := waiters[..|waiters| - 1];
    if i < |init| {
      forall k | 0 <= k < |init| ensures init[k].offset == Contributed(init[..k]) { assert init[..k] == waiters[..k]; }
      OffsetsFit(init, i);
    }
  }

  // ---- the invariants ------------------------------------------------------------------------------------------------

  ghost predicate AckSound(store: seq<Event>, r: Request, ack: Ack) {
    ack.Committed? ==>
      && HasAll(store, r.events) && ack.rejected == r.rejected
      && ack.accepted + ack.deduplicated == |r.events| + r.duplicates
  }

  ghost predicate AcksSound(w: World) {
    forall id :: id in w.hub.acks ==> id in w.requests && AckSound(Own(w.store, w.requests[id].project), w.requests[id], w.hub.acks[id])
  }

  function Size(groups: seq<Group>): nat {
    if groups == [] then 0 else Size(groups[..|groups| - 1]) + |groups[|groups| - 1].events|
  }

  ghost predicate Sized(p: Policy, h: Hub) {
    && h.buffered == Size(h.groups) <= p.maxBuffered && |h.commits| + h.closing <= p.maxInFlight
    && (forall i :: 0 <= i < |h.commits| ==> |h.commits[i].events| <= p.maxBuffered)
  }

  ghost predicate Flushed(p: Policy, h: Hub) { h.draining ==> h.groups == [] || |h.commits| + h.closing == p.maxInFlight }

  ghost predicate AskingSound(w: World) {
    forall id :: id in w.hub.asking ==> id in w.requests && w.requests[id] == w.hub.asking[id]
  }

  function Waiting(waiters: seq<Waiter>, id: nat): nat {
    if waiters == [] then 0
    else Waiting(waiters[..|waiters| - 1], id) + if waiters[|waiters| - 1].request == id then 1 else 0
  }

  function Riding(groups: seq<Group>, id: nat): nat {
    if groups == [] then 0 else Riding(groups[..|groups| - 1], id) + Waiting(groups[|groups| - 1].waiters, id)
  }

  /** In how many places a request is: waiting for the quota, in a group, in a commit, answered. */
  function Places(h: Hub, id: nat): nat {
    (if id in h.asking then 1 else 0) + Riding(h.groups, id) + Riding(h.commits, id) + if id in h.acks then 1 else 0
  }

  ghost predicate Counted(w: World, id: nat) { Places(w.hub, id) == if id in w.requests then 1 else 0 }

  /** What the groups and the commits have to be. */
  ghost predicate HubSound(p: Policy, h: Hub, requests: map<nat, Request>) {
    AllSound(h.groups, requests) && AllSound(h.commits, requests) && Sized(p, h)
  }

  ghost predicate Sound(p: Policy, w: World) {
    HubSound(p, w.hub, w.requests) && AcksSound(w) && AskingSound(w) && Flushed(p, w.hub)
  }

  // ---- moving a group from waiting to its write ------------------------------------------------------------------------

  lemma {:induction false} SizeRemove(groups: seq<Group>, i: nat)
    requires i < |groups|
    ensures Size(groups[..i] + groups[i + 1..]) + |groups[i].events| == Size(groups)
  {
    var last := |groups| - 1;
    var fewer := groups[..i] + groups[i + 1..];
    if i == last {
      assert fewer == groups[..last];
    } else {
      SizeRemove(groups[..last], i);
      assert fewer[..|fewer| - 1] == groups[..last][..i] + groups[..last][i + 1..];
    }
  }

  lemma {:induction false} RidingRemove(groups: seq<Group>, i: nat, id: nat)
    requires i < |groups|
    ensures Riding(groups[..i] + groups[i + 1..], id) + Waiting(groups[i].waiters, id) == Riding(groups, id)
  {
    var last := |groups| - 1;
    var fewer := groups[..i] + groups[i + 1..];
    if i == last {
      assert fewer == groups[..last];
    } else {
      RidingRemove(groups[..last], i, id);
      assert fewer[..|fewer| - 1] == groups[..last][..i] + groups[..last][i + 1..];
    }
  }

  lemma PushOne(groups: seq<Group>, g: Group, id: nat)
    ensures Size(groups + [g]) == Size(groups) + |g.events|
    ensures Riding(groups + [g], id) == Riding(groups, id) + Waiting(g.waiters, id)
  {
    assert (groups + [g])[..|groups|] == groups;
  }

  lemma SizeAtLeast(groups: seq<Group>, i: nat)
    requires i < |groups|
    ensures |groups[i].events| <= Size(groups)
  {
    SizeRemove(groups, i);
  }

  lemma SoundRemove(groups: seq<Group>, i: nat, requests: map<nat, Request>)
    requires i < |groups| && AllSound(groups, requests)
    ensures AllSound(groups[..i] + groups[i + 1..], requests)
  {
    var fewer := groups[..i] + groups[i + 1..];
    forall k | 0 <= k < |fewer| ensures GroupSound(fewer[k], requests) {
      assert fewer[k] == groups[if k < i then k else k + 1];
    }
  }

  lemma SoundPush(groups: seq<Group>, g: Group, requests: map<nat, Request>)
    requires AllSound(groups, requests) && GroupSound(g, requests)
    ensures AllSound(groups + [g], requests)
  {
  }

  /** A group leaves the waiting ones for a slot. */
  lemma MoveKeeps(p: Policy, h: Hub, h': Hub, i: nat, requests: map<nat, Request>, id: nat)
    requires i < |h.groups| && HubSound(p, h, requests) && HasSlot(p, h) && h'.closing == h.closing
    requires h'.groups == h.groups[..i] + h.groups[i + 1..] && h'.commits == h.commits + [h.groups[i]]
    requires h'.buffered == h.buffered - |h.groups[i].events|
    requires h'.acks == h.acks && h'.asking == h.asking
    ensures HubSound(p, h', requests) && Places(h', id) == Places(h, id)
  {
    var g := h.groups[i];
    assert AllSound(h'.groups, requests) by { SoundRemove(h.groups, i, requests); }
    assert AllSound(h'.commits, requests) by { SoundPush(h.commits, g, requests); }
    assert Size(h'.groups) + |g.events| == Size(h.groups) by { SizeRemove(h.groups, i); }
    assert |g.events| <= Size(h.groups) by { SizeAtLeast(h.groups, i); }
    assert Riding(h'.groups, id) + Waiting(g.waiters, id) == Riding(h.groups, id) by { RidingRemove(h.groups, i, id); }
    assert Riding(h'.commits, id) == Riding(h.commits, id) + Waiting(g.waiters, id) by { PushOne(h.commits, g, id); }
  }

  lemma PumpedAtKeeps(p: Policy, h: Hub, i: nat, at: int, requests: map<nat, Request>, id: nat)
    requires i < |h.groups| && HubSound(p, h, requests)
    ensures var next := PumpedAt(p, h, i, at);
      && HubSound(p, next, requests) && Places(next, id) == Places(h, id)
      && |next.groups| + |next.commits| == |h.groups| + |h.commits|
      && next.acks == h.acks && next.asking == h.asking && next.draining == h.draining && next.closing == h.closing
  {
    if Ready(p, h.groups[i], h.draining, at) && HasSlot(p, h) {
      MoveKeeps(p, h, PumpedAt(p, h, i, at), i, requests, id);
    }
  }

  lemma {:induction false} PumpKeeps(p: Policy, h: Hub, i: nat, at: int, requests: map<nat, Request>, id: nat)
    requires i <= |h.groups| && HubSound(p, h, requests)
    ensures var next := PumpedFrom(p, h, i, at);
      && HubSound(p, next, requests) && Places(next, id) == Places(h, id)
      && |next.groups| + |next.commits| == |h.groups| + |h.commits|
      && next.acks == h.acks && next.asking == h.asking && next.draining == h.draining && next.closing == h.closing
    decreases |h.groups| - i
  {
    if i < |h.groups| {
      PumpedAtKeeps(p, h, i, at, requests, id);
      var next := PumpedAt(p, h, i, at);
      PumpKeeps(p, next, if |next.groups| < |h.groups| then i else i + 1, at, requests, id);
    }
  }

  /** Neither ready nor kept waiting for anything but a slot. */
  ghost predicate Held(p: Policy, h: Hub, upTo: nat, at: int)
    requires upTo <= |h.groups|
  {
    forall k :: 0 <= k < upTo ==> !Ready(p, h.groups[k], h.draining, at) || !HasSlot(p, h)
  }

  lemma {:induction false} PumpHolds(p: Policy, h: Hub, i: nat, at: int)
    requires i <= |h.groups| && Held(p, h, i, at)
    ensures var next := PumpedFrom(p, h, i, at); Held(p, next, |next.groups|, at) && next.draining == h.draining
    decreases |h.groups| - i
  {
    if i < |h.groups| {
      var next := PumpedAt(p, h, i, at);
      PumpHolds(p, next, if |next.groups| < |h.groups| then i else i + 1, at);
    }
  }

  /** After a look at the groups, one at a ceiling, at its deadline or in a drain waits for a slot and for nothing else. */
  lemma NothingReadyIsLeftWaiting(p: Policy, h: Hub, at: int)
    ensures var h' := Pumped(p, h, at);
      forall k :: 0 <= k < |h'.groups| && (|| h.draining || h'.groups[k].openedAt + p.linger <= at
                                           || |h'.groups[k].events| >= p.maxEvents || |h'.groups[k].waiters| >= p.maxWaiters) ==>
        |h'.commits| + h'.closing >= p.maxInFlight
  {
    PumpHolds(p, h, 0, at);
  }

  lemma PumpFlushes(p: Policy, h: Hub, at: int)
    requires |Pumped(p, h, at).commits| + Pumped(p, h, at).closing <= p.maxInFlight
    ensures Flushed(p, Pumped(p, h, at))
  {
    PumpHolds(p, h, 0, at);
    var next := Pumped(p, h, at);
    if next.draining && next.groups != [] { assert Ready(p, next.groups[0], next.draining, at); }
  }

  // ---- the steps ----------------------------------------------------------------------------------------------------------

  lemma PumpStep(p: Policy, w: World, at: int, id: nat)
    requires HubSound(p, w.hub, w.requests) && AcksSound(w) && AskingSound(w) && Counted(w, id)
    ensures var w' := w.(hub := Pumped(p, w.hub, at)); Sound(p, w') && Counted(w', id)
  {
    PumpKeeps(p, w.hub, 0, at, w.requests, id);
    PumpFlushes(p, w.hub, at);
  }

  lemma DrainStep(p: Policy, w: World, at: int, id: nat)
    requires Sound(p, w) && Counted(w, id)
    ensures var w' := w.(hub := Draining(p, w.hub, at)); Sound(p, w') && Counted(w', id)
  {
    var w' := w.(hub := w.hub.(draining := true));
    assert AcksSound(w') && AskingSound(w') && Counted(w', id);
    PumpStep(p, w', at, id);
  }

  lemma SoundGrows(groups: seq<Group>, requests: map<nat, Request>, id: nat, r: Request)
    requires AllSound(groups, requests) && id !in requests
    ensures AllSound(groups, requests[id := r])
  {
    forall i | 0 <= i < |groups| ensures GroupSound(groups[i], requests[id := r]) { GroupGrows(groups[i], requests, id, r); }
  }

  /** An answer that says nothing was written because nothing was to be. */
  predicate NothingToWrite(r: Request, ack: Ack) {
    ack.Committed? ==> r.events == [] && ack == Committed(0, r.duplicates, r.rejected)
  }

  /** What an offer does: an answer at once, or a question to the quota. */
  lemma OfferIs(p: Policy, h: Hub, id: nat, r: Request) returns (ack: Option<Ack>)
    ensures Offered(p, h, id, r) == if ack.Some? then h.(acks := h.acks[id := ack.value]) else h.(asking := h.asking[id := r])
    ensures ack.Some? ==> NothingToWrite(r, ack.value)
  {
    if r.events == [] {
      ack := Some(Committed(0, r.duplicates, r.rejected));
    } else if h.draining {
      ack := Some(Refused(ShuttingDown, r.rejected));
    } else if !Room(p, h, |r.events|) {
      ack := Some(Refused(Backpressure, r.rejected));
    } else {
      ack := None;
    }
  }

  lemma OfferStep(p: Policy, w: World, id: nat, r: Request, other: nat)
    requires Sound(p, w) && Counted(w, id) && Counted(w, other) && id !in w.requests
    ensures var w' := w.(hub := Offered(p, w.hub, id, r), requests := w.requests[id := r]); Sound(p, w') && Counted(w', other)
  {
    SoundGrows(w.hub.groups, w.requests, id, r);
    SoundGrows(w.hub.commits, w.requests, id, r);
    var ack := OfferIs(p, w.hub, id, r);
    NewcomerSound(p, w, w.(hub := Offered(p, w.hub, id, r), requests := w.requests[id := r]), id, r, ack, other);
  }

  lemma NewcomerAcks(w: World, w': World, id: nat, r: Request, ack: Option<Ack>)
    requires AcksSound(w) && id !in w.requests && w'.requests == w.requests[id := r] && w'.store == w.store
    requires w'.hub.acks == if ack.Some? then w.hub.acks[id := ack.value] else w.hub.acks
    requires ack.Some? ==> NothingToWrite(r, ack.value)
    ensures AcksSound(w')
  {
    forall other | other in w'.hub.acks
      ensures other in w'.requests && AckSound(Own(w'.store, w'.requests[other].project), w'.requests[other], w'.hub.acks[other])
    {
      if other != id { assert AckSound(Own(w.store, w.requests[other].project), w.requests[other], w.hub.acks[other]); }
    }
  }

  lemma NewcomerSound(p: Policy, w: World, w': World, id: nat, r: Request, ack: Option<Ack>, other: nat)
    requires Sound(p, w) && Counted(w, id) && Counted(w, other) && id !in w.requests
    requires w'.requests == w.requests[id := r] && w'.store == w.store && HubSound(p, w.hub, w'.requests)
    requires w'.hub == if ack.Some? then w.hub.(acks := w.hub.acks[id := ack.value]) else w.hub.(asking := w.hub.asking[id := r])
    requires ack.Some? ==> NothingToWrite(r, ack.value)
    ensures Sound(p, w') && Counted(w', other)
  {
    assert AcksSound(w') by { NewcomerAcks(w, w', id, r, ack); }
    assert w'.hub.groups == w.hub.groups && w'.hub.commits == w.hub.commits;
  }

  lemma {:induction false} RidingUpdate(groups: seq<Group>, i: nat, g: Group, id: nat)
    requires i < |groups|
    ensures Riding(groups[i := g], id) + Waiting(groups[i].waiters, id) == Riding(groups, id) + Waiting(g.waiters, id)
    ensures Size(groups[i := g]) + |groups[i].events| == Size(groups) + |g.events|
  {
    var last := |groups| - 1;
    if i == last {
      assert groups[i := g][..last] == groups[..last];
    } else {
      RidingUpdate(groups[..last], i, g, id);
      assert groups[i := g][..last] == groups[..last][i := g];
    }
  }

  lemma SoundUpdate(groups: seq<Group>, i: nat, g: Group, requests: map<nat, Request>)
    requires i < |groups| && AllSound(groups, requests) && GroupSound(g, requests)
    ensures AllSound(groups[i := g], requests)
  {
  }

  /** One waiter more on a group that waits, or on one that is opened. */
  lemma RiderAdded(h: Hub, h': Hub, i: nat, g: Group, more: Group, requests: map<nat, Request>, id: nat, other: nat)
    requires i <= |h.groups| && AllSound(h.groups, requests) && GroupSound(more, requests)
    requires if i < |h.groups| then g == h.groups[i] && h'.groups == h.groups[i := more]
             else g.events == [] && g.waiters == [] && h'.groups == h.groups + [more]
    requires Waiting(more.waiters, other) == Waiting(g.waiters, other) + if other == id then 1 else 0
    ensures AllSound(h'.groups, requests)
    ensures Size(h'.groups) == Size(h.groups) + |more.events| - |g.events|
    ensures Riding(h'.groups, other) == Riding(h.groups, other) + if other == id then 1 else 0
  {
    if i < |h.groups| {
      SoundUpdate(h.groups, i, more, requests);
      RidingUpdate(h.groups, i, more, other);
    } else {
      SoundPush(h.groups, more, requests);
      PushOne(h.groups, more, other);
    }
  }

  lemma JoinedIs(g: Group, id: nat, r: Request, other: nat)
    ensures var more := Joined(g, id, r);
      && |g.events| <= |more.events| <= |g.events| + |r.events|
      && Waiting(more.waiters, other) == Waiting(g.waiters, other) + if other == id then 1 else 0
  {
    var more := Joined(g, id, r);
    assert more.waiters[..|more.waiters| - 1] == g.waiters;
  }

  lemma TargetSound(groups: seq<Group>, i: nat, project: string, at: int, requests: map<nat, Request>)
    requires AllSound(groups, requests) && i <= |groups|
    ensures GroupSound(if i < |groups| then groups[i] else Group(project, [], [], at), requests)
  {
  }

  lemma JoinKeeps(p: Policy, h: Hub, id: nat, r: Request, at: int, requests: map<nat, Request>, other: nat)
    requires HubSound(p, h, requests) && id in requests && requests[id] == r && Room(p, h, |r.events|)
    ensures HubSound(p, JoinedHub(h, id, r, at), requests)
    ensures Places(JoinedHub(h, id, r, at), other) == Places(h, other) + if other == id then 1 else 0
  {
    var i := IndexOf(h.groups, r.project);
    var g := if i < |h.groups| then h.groups[i] else Group(r.project, [], [], at);
    TargetSound(h.groups, i, r.project, at, requests);
    assert g.project == r.project;
    JoinSound(g, id, r, requests);
    JoinedIs(g, id, r, other);
    RiderKeeps(p, h, JoinedHub(h, id, r, at), i, g, Joined(g, id, r), requests, id, r, other);
  }

  lemma RiderKeeps(p: Policy, h: Hub, h': Hub, i: nat, g: Group, more: Group, requests: map<nat, Request>, id: nat,
      r: Request, other: nat)
    requires HubSound(p, h, requests) && GroupSound(more, requests) && i <= |h.groups| && Room(p, h, |r.events|)
    requires if i < |h.groups| then g == h.groups[i] && h'.groups == h.groups[i := more]
             else g.events == [] && g.waiters == [] && h'.groups == h.groups + [more]
    requires h' == h.(groups := h'.groups, buffered := h.buffered + (|more.events| - |g.events|))
    requires |g.events| <= |more.events| <= |g.events| + |r.events|
    requires Waiting(more.waiters, other) == Waiting(g.waiters, other) + if other == id then 1 else 0
    ensures HubSound(p, h', requests) && Places(h', other) == Places(h, other) + if other == id then 1 else 0
  {
    RiderAdded(h, h', i, g, more, requests, id, other);
  }

  /** A request whose question is answered with no. */
  lemma TurnedAway(p: Policy, w: World, id: nat, ack: Ack, other: nat)
    requires Sound(p, w) && Counted(w, id) && Counted(w, other) && id in w.hub.asking && ack.Refused?
    ensures var w' := w.(hub := w.hub.(asking := Forgotten(w.hub.asking, id), acks := w.hub.acks[id := ack])); Sound(p, w') && Counted(w', other)
  {
  }

  /** A request that has the quota's yes, and room. */
  lemma LetIn(p: Policy, w: World, id: nat, at: int, other: nat)
    requires Sound(p, w) && Counted(w, id) && Counted(w, other) && id in w.hub.asking &&
      Room(p, w.hub, |w.hub.asking[id].events|)
    ensures var w' := w.(hub := JoinedHub(w.hub.(asking := Forgotten(w.hub.asking, id)), id, w.hub.asking[id], at));
      && HubSound(p, w'.hub, w'.requests) && AcksSound(w') && AskingSound(w') && Counted(w', other)
  {
    JoinKeeps(p, w.hub.(asking := Forgotten(w.hub.asking, id)), id, w.hub.asking[id], at, w.requests, other);
  }

  lemma RuleStep(p: Policy, w: World, id: nat, verdict: Verdict, at: int, other: nat)
    requires Sound(p, w) && Counted(w, id) && Counted(w, other) && id in w.hub.asking
    ensures var w' := w.(hub := Resumed(p, w.hub, id, verdict, at)); Sound(p, w') && Counted(w', other)
  {
    var r := w.hub.asking[id];
    if verdict.Allowed? && Room(p, w.hub, |r.events|) {
      LetIn(p, w, id, at, other);
      PumpStep(p, w.(hub := JoinedHub(w.hub.(asking := Forgotten(w.hub.asking, id)), id, r, at)), at, other);
    } else {
      TurnedAway(p, w, id, Refused(if verdict.PlanExceeded? then OverPlan else Backpressure, r.rejected), other);
    }
  }

  lemma {:induction false} SettledIs(acks: map<nat, Ack>, waiters: seq<Waiter>, written: Written, id: nat)
    ensures id in Settled(acks, waiters, written) <==> id in acks || Waiting(waiters, id) > 0
    ensures Waiting(waiters, id) == 0 ==> id in acks ==> Settled(acks, waiters, written)[id] == acks[id]
    ensures Waiting(waiters, id) > 0 ==>
      exists i :: 0 <= i < |waiters| && waiters[i].request == id && Settled(acks, waiters, written)[id] == AckFor(waiters[i], written)
  {
    if waiters != [] {
      var init, last := waiters[..|waiters| - 1], waiters[|waiters| - 1];
      SettledIs(acks, init, written, id);
      if last.request != id && Waiting(init, id) > 0 {
        var i :| 0 <= i < |init| && init[i].request == id && Settled(acks, init, written)[id] == AckFor(init[i], written);
        assert waiters[i] == init[i];
      }
      if last.request == id { assert waiters[|waiters| - 1] == last; }
    }
  }

  lemma MineFits(g: Group, i: nat, requests: map<nat, Request>, flags: seq<bool>)
    requires GroupSound(g, requests) && i < |g.waiters| && |flags| == |g.events|
    ensures Mine(g.waiters[i], flags) <= g.waiters[i].contributed
  {
    OffsetsFit(g.waiters, i);
    TruesBound(flags[g.waiters[i].offset..g.waiters[i].offset + g.waiters[i].contributed]);
  }

  /** The answer to one waiter of a commit that was written, or failed. */
  lemma AckIsSound(g: Group, i: nat, requests: map<nat, Request>, store: seq<Event>, written: Written)
    requires GroupSound(g, requests) && i < |g.waiters|
    requires written.Wrote? ==> |written.flags| == |g.events|
    ensures var w := g.waiters[i];
      w.request in requests && AckSound(Store(store, g.events), requests[w.request], AckFor(w, written))
  {
    var w := g.waiters[i];
    assert WaiterSound(g, w, requests);
    if written.Wrote? {
      MineFits(g, i, requests, written.flags);
      RidersAreStored(g.events, requests[w.request].events, store);
    }
  }

  lemma RidersAreStored(events: seq<Event>, wanted: seq<Event>, store: seq<Event>)
    requires HasAll(events, wanted)
    ensures HasAll(Store(store, events), wanted)
  {
    UniqueHas(events, Keys(store), store);
    forall i | 0 <= i < |wanted| ensures Has(Store(store, events), wanted[i]) {
      var e := wanted[i];
      assert Has(events, e);
      if e.key.Some? {
        var k :| 0 <= k < |events| && events[k].key == Some(e.key.value);
        assert Has(Store(store, events), events[k]);
      } else {
        var k :| 0 <= k < |events| && events[k] == e;
        assert Has(Store(store, events), events[k]);
      }
    }
  }

  lemma AckStays(store: seq<Event>, more: seq<Event>, r: Request, ack: Ack)
    requires AckSound(store, r, ack)
    ensures AckSound(store + more, r, ack)
  {
    if ack.Committed? { HasStays(store, more, r.events); }
  }

  /** The answer, new or old, to one request when a commit of `g` is written, or failed. */
  lemma SettledAckSound(acks: map<nat, Ack>, g: Group, requests: map<nat, Request>, own: seq<Event>, written: Written, id: nat)
    requires GroupSound(g, requests) && (written.Wrote? ==> |written.flags| == |g.events|)
    requires id in Settled(acks, g.waiters, written)
    requires id in acks ==> id in requests && (requests[id].project == g.project ==> AckSound(own, requests[id], acks[id]))
    ensures id in requests
    ensures var ack := Settled(acks, g.waiters, written)[id];
      if Waiting(g.waiters, id) > 0 || requests[id].project == g.project
      then requests[id].project == g.project && AckSound(Store(own, g.events), requests[id], ack)
      else id in acks && ack == acks[id]
  {
    SettledIs(acks, g.waiters, written, id);
    if Waiting(g.waiters, id) > 0 {
      var i :| 0 <= i < |g.waiters| && g.waiters[i].request == id && Settled(acks, g.waiters, written)[id] == AckFor(g.waiters[i], written);
      assert WaiterSound(g, g.waiters[i], requests);
      AckIsSound(g, i, requests, own, written);
    } else if requests[id].project == g.project {
      AckStays(own, Unique(g.events, Keys(own)), requests[id], acks[id]);
    }
  }

  /** A failed write answers nobody with "committed". */
  lemma FailedAckSound(acks: map<nat, Ack>, g: Group, requests: map<nat, Request>, own: seq<Event>, id: nat)
    requires GroupSound(g, requests) && id in Settled(acks, g.waiters, Failed)
    requires id in acks ==> id in requests && AckSound(own, requests[id], acks[id])
    ensures id in requests && AckSound(own, requests[id], Settled(acks, g.waiters, Failed)[id])
  {
    SettledIs(acks, g.waiters, Failed, id);
    if Waiting(g.waiters, id) > 0 {
      var i :| 0 <= i < |g.waiters| && g.waiters[i].request == id && Settled(acks, g.waiters, Failed)[id] == AckFor(g.waiters[i], Failed);
      assert WaiterSound(g, g.waiters[i], requests);
    }
  }

  lemma SettleSound(w: World, c: nat, outcome: Outcome)
    requires c < |w.hub.commits| && AllSound(w.hub.commits, w.requests) && AcksSound(w)
    ensures AcksSound(Afterwards(w, c, outcome))
  {
    var g, w' := w.hub.commits[c], Afterwards(w, c, outcome);
    var own := Own(w.store, g.project);
    var written := if outcome.Stored? then Wrote(New(g.events, Keys(own))) else Failed;
    assert w'.hub.acks == Settled(w.hub.acks, g.waiters, written);
    forall id | id in w'.hub.acks
      ensures id in w.requests && AckSound(Own(w'.store, w.requests[id].project), w.requests[id], w'.hub.acks[id])
    {
      if outcome == Lost(false) {
        FailedAckSound(w.hub.acks, g, w.requests, if id in w.requests then Own(w.store, w.requests[id].project) else [], id);
      } else {
        SettledAckSound(w.hub.acks, g, w.requests, own, written, id);
      }
    }
  }

  /** A commit gone, its waiters answered. */
  lemma SettleKeeps(p: Policy, h: Hub, c: nat, written: Written, requests: map<nat, Request>, id: nat)
    requires HubSound(p, h, requests) && c < |h.commits| && Places(h, id) <= 1
    ensures HubSound(p, Finished(h, c, written), requests) && Places(Finished(h, c, written), id) == Places(h, id)
  {
    var h' := Finished(h, c, written);
    assert AllSound(h'.commits, requests) by { SoundRemove(h.commits, c, requests); }
    assert forall k :: 0 <= k < |h'.commits| ==> h'.commits[k] == h.commits[if k < c then k else k + 1];
    RidingRemove(h.commits, c, id);
    assert id in h'.acks <==> id in h.acks || Waiting(h.commits[c].waiters, id) > 0 by {
      SettledIs(h.acks, h.commits[c].waiters, written, id);
    }
  }

  lemma AnswerStep(p: Policy, w: World, c: nat, outcome: Outcome, id: nat)
    requires Sound(p, w) && Counted(w, id) && c < |w.hub.commits|
    ensures Sound(p, Afterwards(w, c, outcome)) && Counted(Afterwards(w, c, outcome), id)
  {
    var g := w.hub.commits[c];
    var written := if outcome.Stored? then Wrote(New(g.events, Keys(Own(w.store, g.project)))) else Failed;
    SettleSound(w, c, outcome);
    SettleKeeps(p, w.hub, c, written, w.requests, id);
  }

  lemma ReleaseStep(p: Policy, w: World, at: int, id: nat)
    requires Sound(p, w) && Counted(w, id) && w.hub.closing > 0
    ensures var w' := w.(hub := Released(p, w.hub, at)); Sound(p, w') && Counted(w', id)
  {
    var w' := w.(hub := w.hub.(closing := w.hub.closing - 1));
    assert AcksSound(w') && AskingSound(w') && Counted(w', id);
    PumpStep(p, w', at, id);
  }

  lemma {:induction false} RunSound(p: Policy, actions: seq<Action>)
    ensures Sound(p, Run(p, actions)) && forall id :: Counted(Run(p, actions), id)
  {
    if actions != [] {
      var before, a := actions[..|actions| - 1], actions[|actions| - 1];
      RunSound(p, before);
      var w, w' := Run(p, before), Run(p, actions);
      assert w' == Next(p, w, a);
      StepSound(p, w, a, 0);
      forall id: nat ensures Counted(w', id) { StepSound(p, w, a, id); }
    }
  }

  lemma StepSound(p: Policy, w: World, a: Action, id: nat)
    requires Sound(p, w) && forall other :: Counted(w, other)
    ensures Sound(p, Next(p, w, a)) && Counted(Next(p, w, a), id)
  {
    match a
    case Submit(newcomer, request) => if newcomer !in w.requests { OfferStep(p, w, newcomer, request, id); }
    case Rule(ruled, verdict, at) => if ruled in w.hub.asking { RuleStep(p, w, ruled, verdict, at, id); }
    case Tick(at) => PumpStep(p, w, at, id);
    case Answer(c, outcome) => if c < |w.hub.commits| { AnswerStep(p, w, c, outcome, id); }
    case Release(at) => if w.hub.closing > 0 { ReleaseStep(p, w, at, id); }
    case Drain(at) => DrainStep(p, w, at, id);
  }

  // ---- theorems -----------------------------------------------------------------------------------------------------------------

  /** A submitted request is in exactly one place, so it is answered at most once; no other request is anywhere. */
  lemma EveryRequestInOnePlace(p: Policy, actions: seq<Action>, id: nat)
    ensures var w := Run(p, actions); Places(w.hub, id) == if id in w.requests then 1 else 0
  {
    RunSound(p, actions);
    assert Counted(Run(p, actions), id);
  }

  /**
   * "Committed" is never said of events that are not durable in the project's own store, whatever the
   * sink lost or wrote without saying so, and whatever keys other projects use; and it accounts for
   * every event of the request.
   */
  lemma CommittedMeansDurable(p: Policy, actions: seq<Action>, id: nat)
    requires id in Run(p, actions).hub.acks && Run(p, actions).hub.acks[id].Committed?
    ensures var w := Run(p, actions); var ack := w.hub.acks[id];
      && id in w.requests && HasAll(Own(w.store, w.requests[id].project), w.requests[id].events)
      && ack.accepted + ack.deduplicated == |w.requests[id].events| + w.requests[id].duplicates
      && ack.rejected == w.requests[id].rejected
  {
    RunSound(p, actions);
    var w := Run(p, actions);
    assert AckSound(Own(w.store, w.requests[id].project), w.requests[id], w.hub.acks[id]);
  }

  /**
   * What waits respects its ceiling, and so does the number of writes; a single write may be as big as all that
   * may wait.
   */
  lemma MemoryIsBounded(p: Policy, actions: seq<Action>)
    ensures var h := Run(p, actions).hub;
      && h.buffered == Size(h.groups) <= p.maxBuffered && |h.commits| + h.closing <= p.maxInFlight
      && Size(h.groups) + Size(h.commits) <= p.maxBuffered * (1 + p.maxInFlight)
  {
    RunSound(p, actions);
    var h := Run(p, actions).hub;
    SizeBound(h.commits, p.maxBuffered);
    Product(Size(h.commits), |h.commits|, p.maxInFlight, p.maxBuffered);
  }

  lemma Product(size: nat, commits: nat, slots: nat, most: nat)
    requires size <= commits * most && commits <= slots
    ensures size + most <= most * (1 + slots) && size <= slots * most
  {
    assert commits * most <= slots * most;
  }

  lemma {:induction false} SizeBound(groups: seq<Group>, bound: nat)
    requires forall i :: 0 <= i < |groups| ==> |groups[i].events| <= bound
    ensures Size(groups) <= |groups| * bound
  {
    if groups != [] { SizeBound(groups[..|groups| - 1], bound); }
  }

  /** A drain whose groups and commits are gone has answered everyone exactly if nobody was still asking the quota. */
  lemma DrainedAnswersAllIff(p: Policy, actions: seq<Action>)
    requires var h := Run(p, actions).hub; h.groups == [] && h.commits == []
    ensures var w := Run(p, actions); (forall id :: id in w.requests ==> id in w.hub.acks) <==> w.hub.asking == map[]
  {
    RunSound(p, actions);
    var w := Run(p, actions);
    forall id ensures id in w.requests <==> id in w.hub.asking || id in w.hub.acks {
      assert Counted(w, id);
    }
    if w.hub.asking != map[] {
      var id :| id in w.hub.asking;
      assert Counted(w, id);
      assert id in w.requests && id !in w.hub.acks;
    }
  }

  /** What a drain still has to do: a group is written and answered, and its slot given up. */
  function LeftToDo(h: Hub): nat { 2 * (|h.groups| + |h.commits|) + h.closing }

  lemma PumpingLeaves(p: Policy, h: Hub, at: int, requests: map<nat, Request>)
    requires HubSound(p, h, requests)
    ensures LeftToDo(Pumped(p, h, at)) == LeftToDo(h)
  {
    PumpKeeps(p, h, 0, at, requests, 0);
  }

  lemma ReleaseLeaves(p: Policy, h: Hub, at: int, requests: map<nat, Request>)
    requires HubSound(p, h, requests) && h.closing > 0
    ensures LeftToDo(Released(p, h, at)) == LeftToDo(h) - 1
  {
    PumpingLeaves(p, h.(closing := h.closing - 1), at, requests);
  }

  lemma FinishLeaves(h: Hub, c: nat, written: Written)
    requires c < |h.commits|
    ensures LeftToDo(Finished(h, c, written)) == LeftToDo(h) - 1
  {
  }

  /**
   * A drain ends: while it lasts, a group that waits has all slots taken before it, and every answer
   * of the sink, and every slot given up, leaves one thing less to do.
   */
  lemma DrainingEnds(p: Policy, actions: seq<Action>, c: nat, outcome: Outcome, at: int)
    requires Run(p, actions).hub.draining
    ensures var w := Run(p, actions);
      && (w.hub.groups != [] ==> |w.hub.commits| + w.hub.closing == p.maxInFlight)
      && (c < |w.hub.commits| ==> LeftToDo(Next(p, w, Answer(c, outcome)).hub) == LeftToDo(w.hub) - 1)
      && (w.hub.closing > 0 ==> LeftToDo(Next(p, w, Release(at)).hub) == LeftToDo(w.hub) - 1)
  {
    RunSound(p, actions);
    var w := Run(p, actions);
    if c < |w.hub.commits| {
      var g := w.hub.commits[c];
      FinishLeaves(w.hub, c, if outcome.Stored? then Wrote(New(g.events, Keys(Own(w.store, g.project)))) else Failed);
    }
    if w.hub.closing > 0 { ReleaseLeaves(p, w.hub, at, w.requests); }
  }

  /** Such a drain: the request offered before it is still asking the quota when nothing is left to wait for. */
  lemma DrainLeavesOne(p: Policy)
    requires p.maxBuffered >= 1
    ensures var h := Run(p, [Submit(0, Request("p", [Event(None, 0)], 0, 0)), Drain(0)]).hub;
      h.draining && h.groups == [] && h.commits == [] && 0 in h.asking && 0 !in h.acks
  {
    var submit, drain := Submit(0, Request("p", [Event(None, 0)], 0, 0)), Drain(0);
    assert [submit, drain][..1] == [submit] && [submit][..0] == [];
    assert Run(p, []) == BEGINNING;
    assert Run(p, [submit]).hub == IDLE.(asking := map[0 := submit.request]);
  }

  // ---- no key twice ------------------------------------------------------------------------------------------

  /** No two of these events have the same key. */
  ghost predicate KeyedOnce(events: seq<Event>) {
    forall i, j :: 0 <= i < j < |events| && events[i].key.Some? ==> events[i].key != events[j].key
  }

  lemma KeyIsAmong(events: seq<Event>, i: nat)
    requires i < |events| && events[i].key.Some?
    ensures events[i].key.value in Keys(events)
  {
  }

  lemma KeyedOnceMore(events: seq<Event>, e: Event)
    requires KeyedOnce(events) && (e.key.Some? ==> e.key.value !in Keys(events))
    ensures KeyedOnce(events + [e])
  {
    var more := events + [e];
    forall i, j | 0 <= i < j < |more| && more[i].key.Some? ensures more[i].key != more[j].key {
      KeyIsAmong(events, i);
    }
  }

  lemma {:induction false} StoreKeyedOnce(store: seq<Event>, events: seq<Event>)
    requires KeyedOnce(store)
    ensures KeyedOnce(Store(store, events))
  {
    if events == [] {
      assert Store(store, events) == store;
    } else {
      var before, last := Unique(events[..|events| - 1], Keys(store)), events[|events| - 1];
      StoreKeyedOnce(store, events[..|events| - 1]);
      if !Repeats(last, Keys(store) + Keys(before)) {
        KeysConcat(store, before);
        KeyedOnceMore(store + before, last);
        assert store + before + [last] == store + (before + [last]);
      }
    }
  }

  lemma {:induction false} JoinKeyedOnce(g: Group, id: nat, r: Request)
    requires KeyedOnce(g.events)
    ensures KeyedOnce(Joined(g, id, r).events)
  {
    StoreKeyedOnce(g.events, r.events);
  }

  /** Whatever is sent again, by whom and however often, a project's store never has a key twice. */
  lemma {:induction false} NoKeyIsStoredTwice(p: Policy, actions: seq<Action>, project: string)
    ensures KeyedOnce(Own(Run(p, actions).store, project))
  {
    if actions != [] {
      var before, a := actions[..|actions| - 1], actions[|actions| - 1];
      var w := Run(p, before);
      NoKeyIsStoredTwice(p, before, project);
      if a.Answer? && a.commit < |w.hub.commits| {
        StoreKeyedOnce(Own(w.store, project), w.hub.commits[a.commit].events);
      }
    }
  }
}
