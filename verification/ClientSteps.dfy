/**
 * What a caller of the JavaScript client sees of each call: which calls put a batch on the wire and
 * which events are in it, who an event is attributed to, and what a closed client does.
 */
module ClientSteps {
  import opened Common
  import opened EventQueues
  import opened SdkClient
  import opened Delivery
  import opened DeliveryProof

  // ---- whitespace -------------------------------------------------------------------------------------

  /** The white space and line terminators of ECMA-262, one by one. */
  const SPACES: set<char> := {
    '\t', '\n', '\U{B}', '\U{C}', '\r', ' ', '\U{A0}', '\U{1680}', '\U{2000}', '\U{2001}', '\U{2002}', '\U{2003}',
    '\U{2004}', '\U{2005}', '\U{2006}', '\U{2007}', '\U{2008}', '\U{2009}', '\U{200A}', '\U{2028}', '\U{2029}',
    '\U{202F}', '\U{205F}', '\U{3000}', '\U{FEFF}' }

  predicate Blank(s: string) { forall i :: 0 <= i < |s| ==> s[i] in SPACES }

  lemma SpacesAreSpace(c: char)
    ensures IsSpace(c) <==> c in SPACES
  {
  }

  /** What trimming takes off: white space in front, and white space behind. */
  ghost predicate Stripped(s: string, before: string, t: string, after: string) {
    && s == before + t + after && Blank(before) && Blank(after)
    && (t != "" ==> t[0] !in SPACES && t[|t| - 1] !in SPACES)
  }

  lemma StripFront(s: string, before: string, t: string, after: string)
    requires s != "" && s[0] in SPACES && Stripped(s[1..], before, t, after)
    ensures Stripped(s, [s[0]] + before, t, after)
  {
    assert s == [s[0]] + s[1..];
  }

  lemma StripBack(s: string, before: string, t: string, after: string)
    requires s != "" && s[|s| - 1] in SPACES && Stripped(s[..|s| - 1], before, t, after)
    ensures Stripped(s, before, t, after + [s[|s| - 1]])
  {
    assert s == s[..|s| - 1] + [s[|s| - 1]];
  }

  /** Trimming takes white space off both ends, all of it, and nothing else. */
  lemma {:induction false} TrimStrips(s: string) returns (before: string, after: string)
    ensures Stripped(s, before, Trim(s), after)
    decreases |s|
  {
    before, after := "", "";
    if s == "" {
    } else if IsSpace(s[0]) {
      before, after := TrimStrips(s[1..]);
      SpacesAreSpace(s[0]);
      StripFront(s, before, Trim(s[1..]), after);
      before := [s[0]] + before;
    } else if IsSpace(s[|s| - 1]) {
      before, after := TrimStrips(s[..|s| - 1]);
      SpacesAreSpace(s[|s| - 1]);
      StripBack(s, before, Trim(s[..|s| - 1]), after);
      after := after + [s[|s| - 1]];
    } else {
      SpacesAreSpace(s[0]);
      SpacesAreSpace(s[|s| - 1]);
    }
  }

  /** The id with the white space around it gone, or nobody if there is nothing else. */
  ghost predicate PersonOf(id: string, person: Option<string>) {
    if Blank(id) then person == None
    else person.Some? && person.value != "" && exists before, after :: Stripped(id, before, person.value, after)
  }

  lemma BlankIsNobody(id: string, before: string, t: string, after: string)
    requires Stripped(id, before, t, after)
    ensures Blank(id) <==> t == ""
  {
    if t == "" {
      assert id == before + after;
    } else {
      assert id[|before|] == t[0];
    }
  }

  lemma TrimmedIsThePerson(id: string)
    ensures PersonOf(id, Trimmed(id))
  {
    var before, after := TrimStrips(id);
    BlankIsNobody(id, before, Trim(id), after);
  }

  /** The person events are attributed to: the last one identified, unless forgotten since. */
  ghost predicate Attributed(actions: seq<Action>, person: Option<string>) {
    if actions == [] then person == None
    else
      var before, a := actions[..|actions| - 1], actions[|actions| - 1];
      if a.Identify? then PersonOf(a.userId, person)
      else if a.Reset? then person == None
      else Attributed(before, person)
  }

  lemma OthersKeepThePerson(w: World, cfg: Config, a: Action)
    requires !a.Identify? && !a.Reset?
    ensures Next(w, cfg, a).client.person == w.client.person
  {
  }

  lemma {:induction false} PersonIsAttributed(cfg: Config, actions: seq<Action>)
    ensures Attributed(actions, Run(cfg, actions).client.person)
  {
    if actions != [] {
      var before, a := actions[..|actions| - 1], actions[|actions| - 1];
      PersonIsAttributed(cfg, before);
      if a.Identify? {
        TrimmedIsThePerson(a.userId);
      } else if !a.Reset? {
        OthersKeepThePerson(Run(cfg, before), cfg, a);
      }
    }
  }

  /**
   * A tracked event has the name, time, key and properties it was given and the person last
   * identified; a client that is closed or disabled tracks nothing.
   */
  lemma TrackedAsGiven(cfg: Config, actions: seq<Action>, a: Action)
    requires a.Track?
    ensures var w := Run(cfg, actions); var w' := Next(w, cfg, a);
      if w.client.closed || w.client.disabled || Known(w.tracked, (a.key, a.at)) then w' == w
      else w'.tracked == w.tracked + [Event(a.name, a.visitId, w.client.person, a.at, a.key, a.properties)]
    ensures Attributed(actions, Run(cfg, actions).client.person)
  {
    PersonIsAttributed(cfg, actions);
  }

  // ---- what goes on the wire --------------------------------------------------------------------------

  /** The oldest events of the queue go, as many as a batch holds, and the others stay. */
  ghost predicate SendsOldest(c: Client, cfg: Config, batch: seq<Event>, rest: seq<Event>) {
    c.queue == batch + rest && |batch| == Min(|c.queue|, Max(cfg.maxBatch, 0))
  }

  lemma HeadIsOldest(c: Client, cfg: Config)
    ensures SendsOldest(c, cfg, Head(c, cfg), Rest(c, cfg))
  {
  }

  /** Whether a flush starts a request: none is under way, and the client is live, not paused, and has something. */
  predicate MaySend(c: Client, cfg: Config, now: real) {
    c.flight == Idle && !c.disabled && c.pausedUntil <= now && c.queue != [] && cfg.maxBatch > 0
  }

  /** A flush sends the oldest batch exactly if it may, and otherwise leaves the queue alone. */
  lemma FlushSends(w: World, cfg: Config, now: real)
    ensures var c, w' := w.client, Next(w, cfg, Flush(now));
      && w'.client == c.(flight := w'.client.flight, queue := w'.client.queue)
      && if MaySend(c, cfg, now) then
           && w'.client.flight.Sending? && SendsOldest(c, cfg, w'.client.flight.batch, w'.client.queue)
           && w'.requests == w.requests + [w'.client.flight.batch]
         else w'.requests == w.requests && w'.client.queue == c.queue && InFlight(w'.client) == InFlight(c)
  {
    HeadIsOldest(w.client, cfg);
  }

  /** "Overlapping calls join": until a flush has settled, another one changes nothing. */
  lemma OverlappingFlushesJoin(w: World, cfg: Config, now: real, later: real)
    ensures var w' := Next(w, cfg, Flush(now)); Next(w', cfg, Flush(later)) == w'
  {
  }

  /** Whatever the answer to a batch, once it is settled the next flush may start. */
  lemma AFlushEnds(w: World, cfg: Config, reply: Reply, now: real, jitter: real)
    requires MayAnswer(w, reply)
    ensures Next(Next(w, cfg, Answer(reply, now, jitter)), cfg, Settle).client.flight == Idle
  {
  }

  lemma AnIdleFlushEnds(w: World, cfg: Config, now: real)
    requires !w.client.flight.Sending? && !MaySend(w.client, cfg, now)
    ensures Next(Next(w, cfg, Flush(now)), cfg, Settle).client.flight == Idle
  {
  }

  /** A track starts a request exactly if it fills a batch and a flush may start one. */
  lemma TrackSendsIff(w: World, cfg: Config, a: Action)
    requires a.Track? && !w.client.closed && !w.client.disabled && !Known(w.tracked, (a.key, a.at))
    ensures var size := Min(|w.client.queue| + 1, Max(cfg.capacity, 0));
      Next(w, cfg, a).requests != w.requests <==>
        w.client.flight == Idle && w.client.pausedUntil <= a.now && size > 0 && size >= cfg.maxBatch > 0
  {
    var e := Event(a.name, a.visitId, w.client.person, a.at, a.key, a.properties);
    TrackIsPushThenFlush(w, cfg, e, a.now);
    var pushed := OnPush(w, cfg, e);
    assert |pushed.client.queue| == Min(|w.client.queue| + 1, Max(cfg.capacity, 0));
    assert Next(pushed, cfg, Flush(a.now)) == OnFlush(pushed, cfg, a.now);
    FlushSends(pushed, cfg, a.now);
  }

  /** The oldest batch has gone to a beacon, beside whatever is on the wire. */
  ghost predicate Beaconed(w: World, cfg: Config, w': World, batch: seq<Event>) {
    && SendsOldest(w.client, cfg, batch, w'.client.queue) && w'.client == w.client.(queue := w'.client.queue)
    && w'.requests == w.requests + [batch]
    && w'.gone == w.gone.(beaconed := w.gone.beaconed + multiset(batch))
  }

  lemma BeaconTakes(w: World, cfg: Config, sent: bool)
    requires Bounded(w.client, cfg) && !w.client.closed
    ensures var w' := OnHide(w, cfg, sent);
      if !sent || w.client.queue == [] || cfg.maxBatch <= 0 then w' == w else exists batch :: Beaconed(w, cfg, w', batch)
  {
    HeadIsOldest(w.client, cfg);
    HideCases(w, cfg, sent);
    if sent && w.client.queue != [] && cfg.maxBatch > 0 {
      assert Beaconed(w, cfg, OnHide(w, cfg, sent), Head(w.client, cfg));
    }
  }

  lemma HideHandsOver(w: World, cfg: Config, sent: bool)
    requires Bounded(w.client, cfg)
    ensures HandsOver(w, cfg, Next(w, cfg, Hide(sent)), sent)
  {
    if !w.client.closed { BeaconTakes(w, cfg, sent); }
  }

  /** The oldest batch has gone to a beacon, or there was nothing to do or no one to do it. */
  ghost predicate HandsOver(w: World, cfg: Config, w': World, sent: bool) {
    if w.client.closed || !sent || w.client.queue == [] || cfg.maxBatch <= 0 then w' == w
    else exists batch :: Beaconed(w, cfg, w', batch)
  }

  lemma RunIsBounded(cfg: Config, actions: seq<Action>)
    ensures Bounded(Run(cfg, actions).client, cfg)
  {
    RunAccounted(cfg, actions);
  }

  /** A page that goes away hands the oldest batch to a beacon; if the browser refuses, nothing has happened. */
  lemma ABeaconTakesTheOldest(cfg: Config, actions: seq<Action>, sent: bool)
    ensures HandsOver(Run(cfg, actions), cfg, Next(Run(cfg, actions), cfg, Hide(sent)), sent)
  {
    RunIsBounded(cfg, actions);
    HideHandsOver(Run(cfg, actions), cfg, sent);
  }

  // ---- a closed client --------------------------------------------------------------------------------

  lemma ClosedStays(w: World, cfg: Config, a: Action)
    requires w.client.closed
    ensures Next(w, cfg, a).client.closed && Next(w, cfg, a).tracked == w.tracked
  {
  }

  lemma {:induction false} ClosedForever(cfg: Config, before: seq<Action>, more: seq<Action>)
    requires Run(cfg, before).client.closed
    ensures var w, w' := Run(cfg, before), Run(cfg, before + more); w'.client.closed && w'.tracked == w.tracked
  {
    if more == [] {
      assert before + more == before;
    } else {
      var init := more[..|more| - 1];
      assert (before + more)[..|before + more| - 1] == before + init;
      ClosedForever(cfg, before, init);
      ClosedStays(Run(cfg, before + init), cfg, more[|more| - 1]);
    }
  }

  /** After a shutdown nothing more is tracked, whatever is called. */
  lemma ClosedTracksNothing(cfg: Config, actions: seq<Action>, now: real, more: seq<Action>)
    ensures var w, w' := Run(cfg, actions), Run(cfg, actions + [Shutdown(now)] + more);
      w'.client.closed && w'.tracked == w.tracked
  {
    var before := actions + [Shutdown(now)];
    assert before[..|before| - 1] == actions;
    ShutdownIsCloseThenFlush(Run(cfg, actions), cfg, now);
    ClosedForever(cfg, before, more);
  }
}
