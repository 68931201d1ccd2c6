/**
 * How much the group commit holds in memory: the documented bound, over runs whose requests are no
 * bigger than admission allows and whose clock does not go back.
 */
module GroupCommitMemory {
  import opened Common
  import opened GroupCommits
  import opened GroupCommitRuns

  /** Everything the hub holds. */
  function HeldBy(h: Hub): nat { Size(h.groups) + Size(h.commits) }

  /** What the documentation calls the total. */
  function Documented(p: Policy): nat { p.maxBuffered + p.maxInFlight * p.maxEvents }

  /** The bound that always holds: as much in every slot as may wait. */
  function Attained(p: Policy): nat { p.maxBuffered * (1 + p.maxInFlight) }

  /** The time an action reads from the clock, or `now` if it reads none. */
  function When(a: Action, now: int): int { if a.Rule? || a.Tick? || a.Release? || a.Drain? then a.at else now }

  /** No request has more than `cap` events; times read are at most `now`, and none is before an earlier one. */
  predicate Modest(actions: seq<Action>, cap: nat, now: int) {
    actions == [] ||
    var before, a := actions[..|actions| - 1], actions[|actions| - 1];
    (a.Submit? ==> |a.request.events| <= cap) && When(a, now) <= now && Modest(before, cap, When(a, now))
  }

  // ---- when the bound holds -----------------------------------------------------------------------------

  lemma WithinTheBound(p: Policy, actions: seq<Action>)
    requires p.maxInFlight == 0 || p.maxBuffered <= p.maxEvents
    ensures HeldBy(Run(p, actions).hub) <= Documented(p)
  {
    RunSound(p, actions);
    var h := Run(p, actions).hub;
    if p.maxInFlight == 0 {
      assert h.commits == [];
    } else {
      SizeBound(h.commits, p.maxEvents);
      Product(Size(h.commits), |h.commits|, p.maxInFlight, p.maxEvents);
    }
  }

  /** Empty requests are answered at once, so nothing is ever held. */
  lemma {:induction false} NothingHeld(p: Policy, actions: seq<Action>, now: int)
    requires Modest(actions, 0, now)
    ensures var h := Run(p, actions).hub; h.asking == map[] && h.groups == [] && h.commits == []
  {
    if actions != [] { NothingHeld(p, actions[..|actions| - 1], When(actions[|actions| - 1], now)); }
  }

  // ---- a run that passes it: one event at a time --------------------------------------------------------

  lemma {:induction false} Later(actions: seq<Action>, cap: nat, was: int, now: int)
    requires Modest(actions, cap, was) && was <= now
    ensures Modest(actions, cap, now)
  {
    if actions != [] {
      var before, a := actions[..|actions| - 1], actions[|actions| - 1];
      if When(a, now) == now { Later(before, cap, When(a, was), now); }
    }
  }

  lemma OneMore(p: Policy, before: seq<Action>, a: Action, cap: nat, was: int, now: int)
    requires Modest(before, cap, was) && was <= When(a, now) <= now && (a.Submit? ==> |a.request.events| <= cap)
    ensures Modest(before + [a], cap, now) && Run(p, before + [a]) == Next(p, Run(p, before), a)
  {
    assert (before + [a])[..|before|] == before;
    Later(before, cap, was, When(a, now));
  }

  /** A request of one event without a key. */
  function One(id: nat): Request { Request("p", [Event(None, id)], 0, 0) }

  /** `m` events wait in one group, beside these commits, and numbers from `n` on are free. */
  ghost predicate Waits(w: World, n: nat, m: nat, commits: seq<Group>) {
    && !w.hub.draining && w.hub.closing == 0 && w.hub.asking == map[] && (forall id :: id in w.requests ==> id < n)
    && w.hub.commits == commits && w.hub.buffered == m
    && if m == 0 then w.hub.groups == []
       else |w.hub.groups| == 1 && w.hub.groups[0].project == "p" && |w.hub.groups[0].events| == m
  }

  lemma JoinedOne(g: Group, n: nat)
    ensures |Joined(g, n, One(n)).events| == |g.events| + 1
    ensures Joined(g, n, One(n)).project == g.project && Joined(g, n, One(n)).openedAt == g.openedAt
  {
    var events := [Event(None, n)];
    assert events[..0] == [] && Unique([], Keys(g.events)) == [];
    assert Unique(events, Keys(g.events)) == [] + [events[0]];
  }

  /** The hub with a request of one event in its group, before the groups are looked at. */
  lemma OneJoins(h: Hub, n: nat, m: nat, at: int) returns (g: Group)
    requires h.buffered == m
    requires if m == 0 then h.groups == [] else |h.groups| == 1 && h.groups[0].project == "p" && |h.groups[0].events| == m
    ensures JoinedHub(h, n, One(n), at) == h.(groups := [g], buffered := m + 1)
    ensures g.project == "p" && |g.events| == m + 1 && (m == 0 ==> g.openedAt == at)
  {
    var was := if m == 0 then Group("p", [], [], at) else h.groups[0];
    JoinedOne(was, n);
    g := Joined(was, n, One(n));
    assert IndexOf(h.groups, "p") == 0;
    assert h.groups == if m == 0 then [] else [was];
  }

  lemma OneIsAsked(p: Policy, w: World, n: nat, m: nat, commits: seq<Group>)
    requires Waits(w, n, m, commits) && m < p.maxBuffered
    ensures Next(p, w, Submit(n, One(n))) ==
      w.(hub := w.hub.(asking := map[n := One(n)]), requests := w.requests[n := One(n)])
  {
    assert w.hub.asking[n := One(n)] == map[n := One(n)];
  }

  lemma OneIsLetIn(p: Policy, h: Hub, n: nat, m: nat, at: int)
    requires h.asking == map[] && h.buffered == m < p.maxBuffered
    ensures Resumed(p, h.(asking := map[n := One(n)]), n, Allowed, at) == Pumped(p, JoinedHub(h, n, One(n), at), at)
  {
    assert h.(asking := map[n := One(n)]).(asking := Forgotten(map[n := One(n)], n)) == h;
  }

  /** A request of one event, and the quota's yes. */
  lemma OneComes(p: Policy, w: World, n: nat, m: nat, commits: seq<Group>, at: int) returns (g: Group)
    requires Waits(w, n, m, commits) && m < p.maxBuffered
    ensures g.project == "p" && |g.events| == m + 1 && (m == 0 ==> g.openedAt == at)
    ensures Next(p, Next(p, w, Submit(n, One(n))), Rule(n, Allowed, at)) ==
      w.(hub := Pumped(p, w.hub.(groups := [g], buffered := m + 1), at), requests := w.requests[n := One(n)])
  {
    OneIsAsked(p, w, n, m, commits);
    OneIsLetIn(p, w.hub, n, m, at);
    g := OneJoins(w.hub, n, m, at);
  }

  /** A lone group that is ready goes when there is a slot, and stays otherwise. */
  lemma LoneGroupPumped(p: Policy, h: Hub, g: Group, at: int)
    requires h.groups == [g]
    ensures Pumped(p, h, at) ==
      if Ready(p, g, h.draining, at) && HasSlot(p, h) then
        h.(groups := [], commits := h.commits + [g], buffered := h.buffered - |g.events|)
      else h
  {
    var next := PumpedAt(p, h, 0, at);
    assert h.groups[..0] + h.groups[1..] == [];
    assert PumpedFrom(p, next, |next.groups|, at) == next;
  }

  /** When a group that was opened at `at` is ready whatever its size. */
  function Due(p: Policy, at: int): int { Max(at, at + p.linger) }

  lemma OneFlies(p: Policy, h: Hub, g: Group, at: int)
    requires h.groups == [g] && g.openedAt == at && HasSlot(p, h)
    ensures Pumped(p, Pumped(p, h, at), Due(p, at)) ==
      h.(groups := [], commits := h.commits + [g], buffered := h.buffered - |g.events|)
  {
    LoneGroupPumped(p, h, g, at);
    LoneGroupPumped(p, h, g, Due(p, at));
  }

  /** One slot more is taken, by a commit of one event. */
  lemma SlotTaken(p: Policy, cap: nat, actions: seq<Action>, now: int, n: nat, commits: seq<Group>)
    returns (longer: seq<Action>, g: Group)
    requires cap >= 1 && p.maxBuffered >= 1 && Modest(actions, cap, now)
    requires Waits(Run(p, actions), n, 0, commits) && |commits| < p.maxInFlight
    ensures Modest(longer, cap, Due(p, now)) && Waits(Run(p, longer), n + 1, 0, commits + [g])
  {
    var w := Run(p, actions);
    g := OneComes(p, w, n, 0, commits, now);
    var asked := actions + [Submit(n, One(n))];
    var ruled := asked + [Rule(n, Allowed, now)];
    longer := ruled + [Tick(Due(p, now))];
    OneMore(p, actions, Submit(n, One(n)), cap, now, now);
    OneMore(p, asked, Rule(n, Allowed, now), cap, now, now);
    OneMore(p, ruled, Tick(Due(p, now)), cap, now, Due(p, now));
    OneFlies(p, w.hub.(groups := [g], buffered := 1), g, now);
  }

  lemma {:induction false} SlotsTaken(p: Policy, cap: nat, k: nat)
    returns (actions: seq<Action>, now: int, n: nat, commits: seq<Group>)
    requires cap >= 1 && p.maxBuffered >= 1 && k <= p.maxInFlight
    ensures Modest(actions, cap, now) && Waits(Run(p, actions), n, 0, commits) && |commits| == k
  {
    if k == 0 {
      actions, now, n, commits := [], 0, 0, [];
    } else {
      actions, now, n, commits := SlotsTaken(p, cap, k - 1);
      var g;
      actions, g := SlotTaken(p, cap, actions, now, n, commits);
      now, n, commits := Due(p, now), n + 1, commits + [g];
    }
  }

  /** With all slots taken, the group that waits gets one event more. */
  lemma GroupGrows(p: Policy, cap: nat, actions: seq<Action>, now: int, n: nat, m: nat, commits: seq<Group>)
    returns (longer: seq<Action>)
    requires cap >= 1 && Modest(actions, cap, now) && |commits| == p.maxInFlight
    requires Waits(Run(p, actions), n, m, commits) && m < p.maxBuffered
    ensures Modest(longer, cap, now) && Waits(Run(p, longer), n + 1, m + 1, commits)
  {
    var w := Run(p, actions);
    var g := OneComes(p, w, n, m, commits, now);
    var asked := actions + [Submit(n, One(n))];
    longer := asked + [Rule(n, Allowed, now)];
    OneMore(p, actions, Submit(n, One(n)), cap, now, now);
    OneMore(p, asked, Rule(n, Allowed, now), cap, now, now);
    LoneGroupPumped(p, w.hub.(groups := [g], buffered := m + 1), g, now);
  }

  lemma {:induction false} GroupGrown(p: Policy, cap: nat, before: seq<Action>, now: int, first: nat, m: nat, commits: seq<Group>)
    returns (actions: seq<Action>, n: nat)
    requires cap >= 1 && Modest(before, cap, now) && |commits| == p.maxInFlight
    requires Waits(Run(p, before), first, 0, commits) && m <= p.maxBuffered
    ensures Modest(actions, cap, now) && Waits(Run(p, actions), n, m, commits)
  {
    if m == 0 {
      actions, n := before, first;
    } else {
      actions, n := GroupGrown(p, cap, before, now, first, m - 1, commits);
      actions := GroupGrows(p, cap, actions, now, n, m - 1, commits);
      n := n + 1;
    }
  }

  /** The oldest commit is answered, its slot given up, and the group takes it. */
  lemma GroupFlies(p: Policy, w: World, n: nat, m: nat, commits: seq<Group>, at: int) returns (g: Group)
    requires Waits(w, n, m, commits) && |commits| == p.maxInFlight > 0 && m > 0 && m >= p.maxEvents
    ensures Waits(Next(p, Next(p, w, Answer(0, Stored)), Release(at)), n, 0, commits[1..] + [g]) && |g.events| == m
  {
    g := w.hub.groups[0];
    var answered := Next(p, w, Answer(0, Stored));
    assert commits[..0] + commits[1..] == commits[1..];
    assert answered.hub.groups == [g] && answered.hub.commits == commits[1..] && answered.hub.closing == 1;
    LoneGroupPumped(p, answered.hub.(closing := 0), g, at);
  }

  /** The last `j` commits are as big as all that may wait. */
  ghost predicate LastBig(p: Policy, commits: seq<Group>, j: nat) {
    j <= |commits| && forall i :: |commits| - j <= i < |commits| ==> |commits[i].events| == p.maxBuffered
  }

  /** One commit more is as big as all that may wait. */
  lemma BigCommit(p: Policy, cap: nat, before: seq<Action>, now: int, first: nat, commits: seq<Group>, j: nat)
    returns (actions: seq<Action>, n: nat, later: seq<Group>)
    requires cap >= 1 && Modest(before, cap, now) && |commits| == p.maxInFlight && 0 < p.maxBuffered && p.maxBuffered >= p.maxEvents
    requires Waits(Run(p, before), first, 0, commits) && LastBig(p, commits, j) && j < p.maxInFlight
    ensures Modest(actions, cap, now) && Waits(Run(p, actions), n, 0, later)
    ensures |later| == p.maxInFlight && LastBig(p, later, j + 1)
  {
    actions, n := GroupGrown(p, cap, before, now, first, p.maxBuffered, commits);
    var g := GroupFlies(p, Run(p, actions), n, p.maxBuffered, commits, now);
    later := commits[1..] + [g];
    var answered := actions + [Answer(0, Stored)];
    OneMore(p, actions, Answer(0, Stored), cap, now, now);
    OneMore(p, answered, Release(now), cap, now, now);
    actions := answered + [Release(now)];
  }

  lemma {:induction false} BigCommits(p: Policy, cap: nat, j: nat)
    returns (actions: seq<Action>, now: int, n: nat, commits: seq<Group>)
    requires cap >= 1 && 0 < p.maxBuffered && p.maxBuffered >= p.maxEvents && j <= p.maxInFlight
    ensures Modest(actions, cap, now) && Waits(Run(p, actions), n, 0, commits)
    ensures |commits| == p.maxInFlight && LastBig(p, commits, j)
  {
    if j == 0 {
      actions, now, n, commits := SlotsTaken(p, cap, p.maxInFlight);
    } else {
      actions, now, n, commits := BigCommits(p, cap, j - 1);
      actions, n, commits := BigCommit(p, cap, actions, now, n, commits, j - 1);
    }
  }

  lemma {:induction false} SizeOfAlike(groups: seq<Group>, each: nat)
    requires forall i :: 0 <= i < |groups| ==> |groups[i].events| == each
    ensures Size(groups) == |groups| * each
  {
    if groups != [] { SizeOfAlike(groups[..|groups| - 1], each); }
  }

  lemma Times(k: nat, most: nat)
    ensures most + k * most == most * (1 + k)
  {
  }

  lemma AllBig(p: Policy, w: World, n: nat, commits: seq<Group>)
    requires Waits(w, n, p.maxBuffered, commits) && LastBig(p, commits, |commits|) && |commits| == p.maxInFlight
    ensures HeldBy(w.hub) == Attained(p)
  {
    SizeOfAlike(commits, p.maxBuffered);
    SizeOfAlike(w.hub.groups, p.maxBuffered);
    assert Size(w.hub.groups) == p.maxBuffered;
    Times(p.maxInFlight, p.maxBuffered);
  }

  /** The bound that always holds is reached, by requests of one event: every slot and what waits are full. */
  lemma TheBoundIsReached(p: Policy, cap: nat) returns (actions: seq<Action>, now: int)
    requires cap >= 1 && 0 < p.maxBuffered && p.maxBuffered >= p.maxEvents
    ensures Modest(actions, cap, now) && HeldBy(Run(p, actions).hub) == Attained(p)
  {
    var n, commits;
    actions, now, n, commits := BigCommits(p, cap, p.maxInFlight);
    actions, n := GroupGrown(p, cap, actions, now, n, p.maxBuffered, commits);
    AllBig(p, Run(p, actions), n, commits);
  }

  lemma {:induction false} MoreTimes(k: nat, a: nat, b: nat)
    requires k > 0 && a > b
    ensures k * a > k * b
  {
    if k > 1 { MoreTimes(k - 1, a, b); }
    assert k * a == (k - 1) * a + a && k * b == (k - 1) * b + b;
  }

  lemma TooMuch(p: Policy)
    requires p.maxInFlight > 0 && p.maxBuffered > p.maxEvents
    ensures Attained(p) > Documented(p)
  {
    Times(p.maxInFlight, p.maxBuffered);
    MoreTimes(p.maxInFlight, p.maxBuffered, p.maxEvents);
  }

  /** The documented bound. */
  ghost predicate NeverMore(p: Policy, cap: nat) {
    forall actions, now :: Modest(actions, cap, now) ==> HeldBy(Run(p, actions).hub) <= Documented(p)
  }

  lemma WithinOrEmpty(p: Policy, cap: nat, actions: seq<Action>, now: int)
    requires p.maxInFlight == 0 || p.maxBuffered <= p.maxEvents || cap == 0
    requires Modest(actions, cap, now)
    ensures HeldBy(Run(p, actions).hub) <= Documented(p)
  {
    if cap == 0 {
      NothingHeld(p, actions, now);
      assert HeldBy(Run(p, actions).hub) == 0;
    } else {
      WithinTheBound(p, actions);
    }
  }

  /**
   * "Total memory is maxBuffered + maxInFlight * maxEvents and never more", for requests of at most
   * `cap` events, holds exactly if there is no slot, or no more may wait than makes a group go, or
   * there are no events at all: a group that waits for a slot grows on, and goes with more than
   * maxEvents.
   */
  lemma DocumentedBoundHoldsIff(p: Policy, cap: nat)
    ensures NeverMore(p, cap) <==> p.maxInFlight == 0 || p.maxBuffered <= p.maxEvents || cap == 0
  {
    if p.maxInFlight == 0 || p.maxBuffered <= p.maxEvents || cap == 0 {
      forall actions, now | Modest(actions, cap, now) ensures HeldBy(Run(p, actions).hub) <= Documented(p) {
        WithinOrEmpty(p, cap, actions, now);
      }
    } else {
      var actions, now := TheBoundIsReached(p, cap);
      TooMuch(p);
    }
  }
}
