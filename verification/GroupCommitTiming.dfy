/**
 * When a group goes, and why a request is turned away: the clock and the ceilings of the policy, and
 * one reason for every refusal, over whole runs.
 */
module GroupCommitTiming {
  import opened Common
  import opened GroupCommits
  import opened GroupCommitRuns

  // ---- when a group goes ------------------------------------------------------------------------------

  /** Its time has come, it has reached a ceiling, or the server is shutting down. */
  ghost predicate IsDue(p: Policy, g: Group, draining: bool, at: int) {
    draining || g.openedAt + p.linger <= at || |g.events| >= p.maxEvents || |g.waiters| >= p.maxWaiters
  }

  /** The groups that go, oldest first, while there are slots. */
  ghost function Leaving(p: Policy, groups: seq<Group>, slots: int, draining: bool, at: int): seq<Group> {
    if groups == [] then []
    else if slots > 0 && IsDue(p, groups[0], draining, at) then
      [groups[0]] + Leaving(p, groups[1..], slots - 1, draining, at)
    else Leaving(p, groups[1..], slots, draining, at)
  }

  ghost function Staying(p: Policy, groups: seq<Group>, slots: int, draining: bool, at: int): seq<Group> {
    if groups == [] then []
    else if slots > 0 && IsDue(p, groups[0], draining, at) then Staying(p, groups[1..], slots - 1, draining, at)
    else [groups[0]] + Staying(p, groups[1..], slots, draining, at)
  }

  ghost function Slots(p: Policy, h: Hub): int { p.maxInFlight - |h.commits| - h.closing }

  lemma {:induction false} SizeJoins(g: Group, rest: seq<Group>)
    ensures Size([g] + rest) == |g.events| + Size(rest)
  {
    if rest == [] {
      assert [g] + rest == [g] && [g][..0] == [];
      assert Size([g]) == Size([]) + |g.events|;
    } else {
      var all := [g] + rest;
      assert all[..|all| - 1] == [g] + rest[..|rest| - 1];
      SizeJoins(g, rest[..|rest| - 1]);
    }
  }

  /** What is left to pump from the `i`-th group on. */
  ghost function PumpedRest(p: Policy, h: Hub, i: nat, at: int): Hub
    requires i <= |h.groups|
  {
    var gone := Leaving(p, h.groups[i..], Slots(p, h), h.draining, at);
    h.(groups := h.groups[..i] + Staying(p, h.groups[i..], Slots(p, h), h.draining, at),
       commits := h.commits + gone, buffered := h.buffered - Size(gone))
  }

  lemma OneGoes(p: Policy, h: Hub, i: nat, at: int)
    requires i < |h.groups| && IsDue(p, h.groups[i], h.draining, at) && Slots(p, h) > 0
    ensures var next := PumpedAt(p, h, i, at);
      |next.groups| == |h.groups| - 1 && PumpedRest(p, next, i, at) == PumpedRest(p, h, i, at)
  {
    var g, next := h.groups[i], PumpedAt(p, h, i, at);
    assert h.groups[i..][1..] == h.groups[i + 1..] == next.groups[i..] && next.groups[..i] == h.groups[..i];
    var gone := Leaving(p, next.groups[i..], Slots(p, next), h.draining, at);
    SizeJoins(g, gone);
    assert h.commits + [g] + gone == h.commits + ([g] + gone);
  }

  lemma OneStays(p: Policy, h: Hub, i: nat, at: int)
    requires i < |h.groups| && !(IsDue(p, h.groups[i], h.draining, at) && Slots(p, h) > 0)
    ensures PumpedAt(p, h, i, at) == h && PumpedRest(p, h, i + 1, at) == PumpedRest(p, h, i, at)
  {
    var stay := Staying(p, h.groups[i + 1..], Slots(p, h), h.draining, at);
    assert h.groups[i..][1..] == h.groups[i + 1..];
    assert h.groups[..i + 1] + stay == h.groups[..i] + ([h.groups[i]] + stay);
  }

  lemma {:induction false} PumpFromSends(p: Policy, h: Hub, i: nat, at: int)
    requires i <= |h.groups|
    ensures PumpedFrom(p, h, i, at) == PumpedRest(p, h, i, at)
    decreases |h.groups| - i
  {
    if i == |h.groups| {
      assert h.groups[i..] == [] && h.groups[..i] + [] == h.groups && h.commits + [] == h.commits;
    } else if IsDue(p, h.groups[i], h.draining, at) && Slots(p, h) > 0 {
      OneGoes(p, h, i, at);
      PumpFromSends(p, PumpedAt(p, h, i, at), i, at);
    } else {
      OneStays(p, h, i, at);
      PumpFromSends(p, h, i + 1, at);
    }
  }

  /** A look at the groups sends those that are due, oldest first, as far as the slots go, and leaves the rest as they are. */
  lemma PumpSends(p: Policy, h: Hub, at: int)
    ensures var gone := Leaving(p, h.groups, Slots(p, h), h.draining, at);
      Pumped(p, h, at) == h.(groups := Staying(p, h.groups, Slots(p, h), h.draining, at), commits := h.commits + gone,
                             buffered := h.buffered - Size(gone))
  {
    PumpFromSends(p, h, 0, at);
    assert h.groups[0..] == h.groups && h.groups[..0] == [];
    assert [] + Staying(p, h.groups, Slots(p, h), h.draining, at) == Staying(p, h.groups, Slots(p, h), h.draining, at);
  }

  lemma {:induction false} NoneLeaves(p: Policy, groups: seq<Group>, slots: int, draining: bool, at: int)
    requires slots <= 0 || forall i :: 0 <= i < |groups| ==> !IsDue(p, groups[i], draining, at)
    ensures Leaving(p, groups, slots, draining, at) == [] && Staying(p, groups, slots, draining, at) == groups
  {
    if groups != [] {
      NoneLeaves(p, groups[1..], slots, draining, at);
      assert groups == [groups[0]] + groups[1..];
    }
  }

  /** Before the earliest deadline, while no group has reached a ceiling, nothing goes. */
  lemma NothingGoesEarly(p: Policy, h: Hub, at: int)
    requires !h.draining
    requires forall i :: 0 <= i < |h.groups| ==>
      |h.groups[i].events| < p.maxEvents && |h.groups[i].waiters| < p.maxWaiters && at < h.groups[i].openedAt + p.linger
    ensures Pumped(p, h, at) == h
  {
    PumpSends(p, h, at);
    NoneLeaves(p, h.groups, Slots(p, h), h.draining, at);
    assert h.commits + [] == h.commits;
  }

  lemma {:induction false} FirstLeaves(p: Policy, groups: seq<Group>, i: nat, slots: int, draining: bool, at: int)
    requires i < |groups| && slots > 0 && IsDue(p, groups[i], draining, at)
    requires forall k :: 0 <= k < i ==> !IsDue(p, groups[k], draining, at)
    ensures var gone := Leaving(p, groups, slots, draining, at); gone != [] && gone[0] == groups[i]
  {
    if i > 0 { FirstLeaves(p, groups[1..], i - 1, slots, draining, at); }
  }

  /** The first group whose deadline has come, or that has reached a ceiling, is on its way if there is a slot. */
  lemma TheFirstDueGoes(p: Policy, h: Hub, i: nat, at: int)
    requires i < |h.groups| && |h.commits| + h.closing < p.maxInFlight
    requires h.groups[i].openedAt + p.linger <= at || |h.groups[i].events| >= p.maxEvents || |h.groups[i].waiters| >= p.maxWaiters
    requires forall k :: 0 <= k < i ==> !IsDue(p, h.groups[k], h.draining, at)
    ensures var h' := Pumped(p, h, at); |h'.commits| > |h.commits| && h'.commits[|h.commits|] == h.groups[i]
  {
    PumpSends(p, h, at);
    FirstLeaves(p, h.groups, i, Slots(p, h), h.draining, at);
  }

  ghost predicate AnyDue(p: Policy, groups: seq<Group>, draining: bool, at: int) {
    exists k :: 0 <= k < |groups| && IsDue(p, groups[k], draining, at)
  }

  lemma AnyDueLater(p: Policy, g: Group, rest: seq<Group>, draining: bool, at: int)
    requires !IsDue(p, g, draining, at) && AnyDue(p, [g] + rest, draining, at)
    ensures AnyDue(p, rest, draining, at)
  {
    var k :| 0 <= k < |[g] + rest| && IsDue(p, ([g] + rest)[k], draining, at);
    assert k > 0 && ([g] + rest)[k] == rest[k - 1];
  }

  lemma {:induction false} AllDueLeave(p: Policy, groups: seq<Group>, slots: int, draining: bool, at: int)
    ensures var gone, stay := Leaving(p, groups, slots, draining, at), Staying(p, groups, slots, draining, at);
      && (forall k :: 0 <= k < |gone| ==> IsDue(p, gone[k], draining, at)) && |gone| <= Max(slots, 0)
      && (AnyDue(p, stay, draining, at) ==> |gone| == Max(slots, 0))
  {
    if slots <= 0 {
      NoneLeaves(p, groups, slots, draining, at);
    } else if groups != [] {
      if IsDue(p, groups[0], draining, at) {
        AllDueLeave(p, groups[1..], slots - 1, draining, at);
      } else {
        var rest := Staying(p, groups[1..], slots, draining, at);
        AllDueLeave(p, groups[1..], slots, draining, at);
        if AnyDue(p, [groups[0]] + rest, draining, at) { AnyDueLater(p, groups[0], rest, draining, at); }
      }
    }
  }

  /** Only what is due goes; and what is due stays only if all slots are taken. */
  lemma OnlyWhatIsDueGoes(p: Policy, h: Hub, at: int)
    requires |h.commits| + h.closing <= p.maxInFlight
    ensures var h' := Pumped(p, h, at);
      && h.commits <= h'.commits
      && (forall k :: |h.commits| <= k < |h'.commits| ==> IsDue(p, h'.commits[k], h.draining, at))
      && (AnyDue(p, h'.groups, h.draining, at) ==> |h'.commits| + h.closing == p.maxInFlight)
  {
    PumpSends(p, h, at);
    AllDueLeave(p, h.groups, Slots(p, h), h.draining, at);
  }

  /** The `i`-th group is the one the request has joined: it keeps the time of its first, or was opened just now. */
  ghost predicate HasJoined(h: Hub, h': Hub, i: nat, id: nat, r: Request, at: int) {
    && i < |h'.groups| && h'.groups[i].project == r.project && h'.groups[i].waiters != []
    && h'.groups[i].waiters[|h'.groups[i].waiters| - 1].request == id
    && (forall k :: 0 <= k < |h.groups| && k != i ==> k < |h'.groups| && h'.groups[k] == h.groups[k])
    && if i < |h.groups| then
         && h.groups[i].project == r.project && h'.groups[i].openedAt == h.groups[i].openedAt && |h'.groups| == |h.groups|
         && h.groups[i].events <= h'.groups[i].events && h.groups[i].waiters <= h'.groups[i].waiters
       else
         && i == |h.groups| && |h'.groups| == |h.groups| + 1 && h'.groups[i].openedAt == at
         && (forall k :: 0 <= k < |h.groups| ==> h.groups[k].project != r.project)
  }

  /**
   * A request that is let in joins the group of its project, which keeps the time of its first; with
   * no group waiting, one is opened at that moment. No other group is touched.
   */
  lemma JoiningKeepsTheAge(h: Hub, id: nat, r: Request, at: int)
    ensures var h' := JoinedHub(h, id, r, at);
      h' == h.(groups := h'.groups, buffered := h'.buffered) && exists i: nat :: HasJoined(h, h', i, id, r, at)
  {
    assert HasJoined(h, JoinedHub(h, id, r, at), IndexOf(h.groups, r.project), id, r, at);
  }

  // ---- why a request is turned away -------------------------------------------------------------------

  ghost predicate HasRoom(p: Policy, h: Hub, r: Request) { h.buffered + |r.events| <= p.maxBuffered }

  /** In this world, this action turns the request away for this reason. */
  ghost predicate TurnsAway(p: Policy, w: World, a: Action, id: nat, refusal: Refusal) {
    match a
    case Submit(n, r) =>
      n == id && id !in w.requests && r.events != [] &&
      if w.hub.draining then refusal == ShuttingDown else !HasRoom(p, w.hub, r) && refusal == Backpressure
    case Rule(n, verdict, _) =>
      n == id && id in w.hub.asking &&
      (match verdict
       case PlanExceeded => refusal == OverPlan
       case RateLimited => refusal == Backpressure
       case Allowed => !HasRoom(p, w.hub, w.hub.asking[id]) && refusal == Backpressure)
    case Answer(c, outcome) =>
      c < |w.hub.commits| && Rides(w.hub.commits[c], id) && !outcome.Stored? && refusal == SinkUnavailable
    case _ => false
  }

  ghost predicate Rides(g: Group, id: nat) { exists i :: 0 <= i < |g.waiters| && g.waiters[i].request == id }

  ghost predicate RefusedIn(acks: map<nat, Ack>, id: nat, refusal: Refusal) {
    id in acks && acks[id].Refused? && acks[id].refusal == refusal
  }

  ghost predicate ToldNo(w: World, id: nat, refusal: Refusal) { RefusedIn(w.hub.acks, id, refusal) }

  lemma {:induction false} RidesIff(waiters: seq<Waiter>, id: nat)
    ensures Waiting(waiters, id) > 0 <==> exists i :: 0 <= i < |waiters| && waiters[i].request == id
  {
    if waiters != [] {
      var init := waiters[..|waiters| - 1];
      RidesIff(init, id);
      if i :| 0 <= i < |init| && init[i].request == id { assert waiters[i].request == id; }
      if waiters[|waiters| - 1].request == id { assert waiters[|waiters| - 1].request == id; }
    }
  }

  lemma {:induction false} RidingAtLeast(groups: seq<Group>, c: nat, id: nat)
    requires c < |groups|
    ensures Riding(groups, id) >= Waiting(groups[c].waiters, id)
  {
    RidingRemove(groups, c, id);
  }

  /** Someone answered is nowhere else. */
  lemma AnsweredIsNowhere(w: World, id: nat)
    requires Counted(w, id) && id in w.hub.acks
    ensures id in w.requests && id !in w.hub.asking && forall c :: 0 <= c < |w.hub.commits| ==> Waiting(w.hub.commits[c].waiters, id) == 0
  {
    forall c | 0 <= c < |w.hub.commits| ensures Waiting(w.hub.commits[c].waiters, id) == 0 {
      RidingAtLeast(w.hub.commits, c, id);
    }
  }

  lemma SubmitRefusals(p: Policy, w: World, a: Action, id: nat, refusal: Refusal)
    requires a.Submit? && Counted(w, id)
    ensures ToldNo(Next(p, w, a), id, refusal) <==> ToldNo(w, id, refusal) || TurnsAway(p, w, a, id, refusal)
  {
    if id in w.hub.acks { AnsweredIsNowhere(w, id); }
  }

  lemma PumpTellsNobody(p: Policy, h: Hub, at: int)
    ensures Pumped(p, h, at).acks == h.acks
  {
    PumpSends(p, h, at);
  }

  /** What a verdict leaves told. */
  lemma ResumedTells(p: Policy, h: Hub, id: nat, verdict: Verdict, at: int)
    requires id in h.asking
    ensures var r := h.asking[id];
      Resumed(p, h, id, verdict, at).acks ==
        if verdict.PlanExceeded? then h.acks[id := Refused(OverPlan, r.rejected)]
        else if verdict.RateLimited? || !HasRoom(p, h, r) then h.acks[id := Refused(Backpressure, r.rejected)]
        else h.acks
  {
    var rest := h.(asking := Forgotten(h.asking, id));
    PumpTellsNobody(p, JoinedHub(rest, id, h.asking[id], at), at);
  }

  lemma RuleRefusals(p: Policy, w: World, a: Action, id: nat, refusal: Refusal)
    requires a.Rule? && Counted(w, id)
    ensures ToldNo(Next(p, w, a), id, refusal) <==> ToldNo(w, id, refusal) || TurnsAway(p, w, a, id, refusal)
  {
    if a.id in w.hub.asking {
      ResumedTells(p, w.hub, a.id, a.verdict, a.at);
      assert Next(p, w, a).hub.acks == Resumed(p, w.hub, a.id, a.verdict, a.at).acks;
      if id in w.hub.acks { AnsweredIsNowhere(w, id); }
    }
  }

  /** What settling a commit leaves told to someone who has not been answered before. */
  lemma SettledTells(acks: map<nat, Ack>, g: Group, written: Written, id: nat, refusal: Refusal)
    requires id in acks ==> Waiting(g.waiters, id) == 0
    ensures RefusedIn(Settled(acks, g.waiters, written), id, refusal) <==>
      RefusedIn(acks, id, refusal) || (Rides(g, id) && written.Failed? && refusal == SinkUnavailable)
  {
    RidesIff(g.waiters, id);
    SettledIs(acks, g.waiters, written, id);
  }

  lemma AnswerRefusals(p: Policy, w: World, a: Action, id: nat, refusal: Refusal)
    requires a.Answer? && Counted(w, id) && a.commit < |w.hub.commits|
    ensures ToldNo(Next(p, w, a), id, refusal) <==> ToldNo(w, id, refusal) || TurnsAway(p, w, a, id, refusal)
  {
    var g := w.hub.commits[a.commit];
    var written := if a.outcome.Stored? then Wrote(New(g.events, Keys(Own(w.store, g.project)))) else Failed;
    if id in w.hub.acks { AnsweredIsNowhere(w, id); }
    SettledTells(w.hub.acks, g, written, id, refusal);
    assert Next(p, w, a).hub.acks == Settled(w.hub.acks, g.waiters, written);
  }

  lemma StepRefusals(p: Policy, w: World, a: Action, id: nat, refusal: Refusal)
    requires Counted(w, id)
    ensures ToldNo(Next(p, w, a), id, refusal) <==> ToldNo(w, id, refusal) || TurnsAway(p, w, a, id, refusal)
  {
    match a
    case Submit(_, _) => SubmitRefusals(p, w, a, id, refusal);
    case Rule(_, _, _) => RuleRefusals(p, w, a, id, refusal);
    case Answer(c, _) => if c < |w.hub.commits| { AnswerRefusals(p, w, a, id, refusal); }
    case Tick(at) => PumpTellsNobody(p, w.hub, at);
    case Release(at) => if w.hub.closing > 0 { PumpTellsNobody(p, w.hub.(closing := w.hub.closing - 1), at); }
    case Drain(at) => PumpTellsNobody(p, w.hub.(draining := true), at);
  }

  ghost predicate TurnedAwayAt(p: Policy, actions: seq<Action>, i: nat, id: nat, refusal: Refusal)
    requires i < |actions|
  {
    TurnsAway(p, Run(p, actions[..i]), actions[i], id, refusal)
  }

  /** Somewhere in the run the request was turned away for this reason. */
  ghost predicate WasTurnedAway(p: Policy, actions: seq<Action>, id: nat, refusal: Refusal) {
    exists i :: 0 <= i < |actions| && TurnedAwayAt(p, actions, i, id, refusal)
  }

  /**
   * Every refusal has its reason and every reason its refusal, over any run: over plan exactly when
   * the quota said the plan is exceeded; backpressure when it said to slow down, or there was no
   * room before or after it was asked; shutting down when the server was; and unavailable when the
   * write the request was riding failed.
   */
  lemma {:induction false} RefusedIff(p: Policy, actions: seq<Action>, id: nat, refusal: Refusal)
    ensures ToldNo(Run(p, actions), id, refusal) <==> WasTurnedAway(p, actions, id, refusal)
  {
    if actions != [] {
      var before, a := actions[..|actions| - 1], actions[|actions| - 1];
      RefusedIff(p, before, id, refusal);
      assert Counted(Run(p, before), id) by { RunSound(p, before); }
      StepRefusals(p, Run(p, before), a, id, refusal);
      EarlierReasons(p, actions, id, refusal);
    }
  }

  lemma SameReason(p: Policy, actions: seq<Action>, before: seq<Action>, i: nat, id: nat, refusal: Refusal)
    requires before <= actions && i < |before|
    ensures TurnedAwayAt(p, actions, i, id, refusal) <==> TurnedAwayAt(p, before, i, id, refusal)
  {
    assert before[..i] == actions[..i] && before[i] == actions[i];
  }

  lemma LastReason(p: Policy, actions: seq<Action>, before: seq<Action>, id: nat, refusal: Refusal)
    requires actions != [] && before == actions[..|actions| - 1]
    ensures TurnedAwayAt(p, actions, |before|, id, refusal) <==> TurnsAway(p, Run(p, before), actions[|actions| - 1], id, refusal)
  {
  }

  lemma EarlierReasons(p: Policy, actions: seq<Action>, id: nat, refusal: Refusal)
    requires actions != []
    ensures var before := actions[..|actions| - 1];
      WasTurnedAway(p, actions, id, refusal) <==>
        WasTurnedAway(p, before, id, refusal) || TurnsAway(p, Run(p, before), actions[|actions| - 1], id, refusal)
  {
    var before := actions[..|actions| - 1];
    forall i: nat | i < |before|
      ensures TurnedAwayAt(p, actions, i, id, refusal) <==> TurnedAwayAt(p, before, i, id, refusal)
    {
      SameReason(p, actions, before, i, id, refusal);
    }
    LastReason(p, actions, before, id, refusal);
    if WasTurnedAway(p, actions, id, refusal) {
      var i: nat :| i < |actions| && TurnedAwayAt(p, actions, i, id, refusal);
      assert i == |before| || TurnedAwayAt(p, before, i, id, refusal);
    }
  }

  // ---- what a request is told was accepted -------------------------------------------------------------

  lemma {:induction false} NewOfPrefix(events: seq<Event>, seen: set<string>, n: nat)
    requires n <= |events|
    ensures New(events, seen)[..n] == New(events[..n], seen)
  {
    if n < |events| {
      var init := events[..|events| - 1];
      NewOfPrefix(init, seen, n);
      assert init[..n] == events[..n] && New(events, seen)[..n] == New(init, seen)[..n];
    } else {
      assert events[..n] == events && New(events, seen)[..n] == New(events, seen);
    }
  }

  /** What the store gains by the events of a batch from one place to another, after those before them. */
  ghost function Gain(store: seq<Event>, events: seq<Event>, from: nat, to: nat): int
    requires from <= to <= |events|
  {
    |Store(store, events[..to])| - |Store(store, events[..from])|
  }

  lemma FlagsUpTo(store: seq<Event>, events: seq<Event>, flags: seq<bool>, n: nat)
    requires n <= |events| && flags == New(events, Keys(store))
    ensures Trues(flags[..n]) == |Store(store, events[..n])| - |store|
  {
    NewOfPrefix(events, Keys(store), n);
    ReceiptIsTheGain(events[..n], Keys(store));
  }

  lemma MineBetween(w: Waiter, flags: seq<bool>)
    requires w.offset + w.contributed <= |flags|
    ensures Mine(w, flags) == Trues(flags[..w.offset + w.contributed]) - Trues(flags[..w.offset])
  {
    var from, to := w.offset, w.offset + w.contributed;
    TruesConcat(flags[..from], flags[from..to]);
    assert flags[..from] + flags[from..to] == flags[..to];
  }

  lemma MineIsTheGain(store: seq<Event>, events: seq<Event>, flags: seq<bool>, w: Waiter)
    requires w.offset + w.contributed <= |events| && |flags| == |events| && flags == New(events, Keys(store))
    ensures Mine(w, flags) == Gain(store, events, w.offset, w.offset + w.contributed)
  {
    var before, after := Trues(flags[..w.offset]), Trues(flags[..w.offset + w.contributed]);
    MineBetween(w, flags);
    assert before == |Store(store, events[..w.offset])| - |store| by { FlagsUpTo(store, events, flags, w.offset); }
    assert after == |Store(store, events[..w.offset + w.contributed])| - |store| by {
      FlagsUpTo(store, events, flags, w.offset + w.contributed);
    }
  }

  lemma {:induction false} RidesOnce(waiters: seq<Waiter>, i: nat, j: nat, id: nat)
    requires i < j < |waiters| && waiters[i].request == id && waiters[j].request == id
    ensures Waiting(waiters, id) >= 2
  {
    var init := waiters[..|waiters| - 1];
    if j == |waiters| - 1 {
      RidesIff(init, id);
      assert init[i].request == id;
    } else {
      RidesOnce(init, i, j, id);
    }
  }

  /** Told that so much of it was accepted; the rest of what it sent was there already. */
  ghost predicate ToldAccepted(ack: Ack, rider: Waiter, accepted: int) {
    && ack.Committed? && ack.accepted == accepted
    && ack.accepted <= rider.contributed && ack.accepted + ack.deduplicated == rider.duplicates + rider.contributed
    && ack.rejected == rider.rejected
  }

  lemma AckTells(w: Waiter, flags: seq<bool>)
    requires w.offset + w.contributed <= |flags|
    ensures ToldAccepted(AckFor(w, Wrote(flags)), w, Mine(w, flags))
  {
    TruesBound(flags[w.offset..w.offset + w.contributed]);
  }

  lemma AckTellsTheGain(w: Waiter, events: seq<Event>, store: seq<Event>, flags: seq<bool>)
    requires w.offset + w.contributed <= |events| && |flags| == |events| && flags == New(events, Keys(store))
    ensures ToldAccepted(AckFor(w, Wrote(flags)), w, Gain(store, events, w.offset, w.offset + w.contributed))
  {
    AckTells(w, flags);
    MineIsTheGain(store, events, flags, w);
  }

  lemma SettledAck(acks: map<nat, Ack>, waiters: seq<Waiter>, written: Written, i: nat)
    requires i < |waiters| && Waiting(waiters, waiters[i].request) <= 1
    ensures var id := waiters[i].request; id in Settled(acks, waiters, written) && Settled(acks, waiters, written)[id] == AckFor(waiters[i], written)
  {
    var id := waiters[i].request;
    RidesIff(waiters, id);
    SettledIs(acks, waiters, written, id);
    var j :| 0 <= j < |waiters| && waiters[j].request == id && Settled(acks, waiters, written)[id] == AckFor(waiters[j], written);
    if i < j { RidesOnce(waiters, i, j, id); }
    if j < i { RidesOnce(waiters, j, i, id); }
  }

  /** Where a rider's events are in the batch: after those of the riders before it, and all its own. */
  ghost predicate Seated(w: World, g: Group, i: nat)
    requires i < |g.waiters|
  {
    var rider := g.waiters[i];
    && rider.request in w.requests
    && rider.offset == Contributed(g.waiters[..i]) && rider.offset + rider.contributed <= |g.events|
    && (forall k :: rider.offset <= k < rider.offset + rider.contributed ==> g.events[k] in w.requests[rider.request].events)
    && rider.duplicates + rider.contributed == w.requests[rider.request].duplicates + |w.requests[rider.request].events|
  }

  lemma RidersAreSeated(w: World, g: Group, i: nat)
    requires GroupSound(g, w.requests) && i < |g.waiters|
    ensures Seated(w, g, i)
  {
    assert WaiterSound(g, g.waiters[i], w.requests) && OwnSlice(g, g.waiters[i], w.requests);
    OffsetsFit(g.waiters, i);
  }

  /** What the events of the `i`-th rider added to its project's store. */
  ghost function RiderGain(w: World, g: Group, i: nat): int
    requires i < |g.waiters| && g.waiters[i].offset + g.waiters[i].contributed <= |g.events|
  {
    Gain(Own(w.store, g.project), g.events, g.waiters[i].offset, g.waiters[i].offset + g.waiters[i].contributed)
  }

  lemma AcksAfterwards(p: Policy, w: World, c: nat, flags: seq<bool>)
    requires c < |w.hub.commits| && flags == New(w.hub.commits[c].events, Keys(Own(w.store, w.hub.commits[c].project)))
    ensures Next(p, w, Answer(c, Stored)).hub.acks == Settled(w.hub.acks, w.hub.commits[c].waiters, Wrote(flags))
  {
  }

  lemma RiderAck(w: World, g: Group, i: nat, flags: seq<bool>)
    requires i < |g.waiters| && g.waiters[i].offset + g.waiters[i].contributed <= |g.events|
    requires |flags| == |g.events| && flags == New(g.events, Keys(Own(w.store, g.project)))
    ensures ToldAccepted(AckFor(g.waiters[i], Wrote(flags)), g.waiters[i], RiderGain(w, g, i))
  {
    AckTellsTheGain(g.waiters[i], g.events, Own(w.store, g.project), flags);
  }

  /**
   * Everyone riding a commit that was written is told what their own events added to the project's
   * store, written after those of the requests that joined before.
   */
  lemma AcceptedIsTheGain(p: Policy, actions: seq<Action>, c: nat, i: nat)
    requires var h := Run(p, actions).hub; c < |h.commits| && i < |h.commits[c].waiters|
    ensures var w := Run(p, actions);
      var g, acks := w.hub.commits[c], Next(p, w, Answer(c, Stored)).hub.acks;
      && Seated(w, g, i) && g.waiters[i].request in acks
      && ToldAccepted(acks[g.waiters[i].request], g.waiters[i], RiderGain(w, g, i))
  {
    var w := Run(p, actions);
    var g := w.hub.commits[c];
    var id, flags := g.waiters[i].request, New(g.events, Keys(Own(w.store, g.project)));
    assert GroupSound(g, w.requests) && Counted(w, id) by { RunSound(p, actions); }
    RidingAtLeast(w.hub.commits, c, id);
    RidersAreSeated(w, g, i);
    SettledAck(w.hub.acks, g.waiters, Wrote(flags), i);
    RiderAck(w, g, i, flags);
    AcksAfterwards(p, w, c, flags);
  }
}
