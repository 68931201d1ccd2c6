/**
 * The React handle (packages/react/src/use-counted.ts): calls go to the client of the moment, wait
 * while there is none, and are replayed on the next. `told` records what each client was told.
 */
module ReactHandle {
  import opened Common
  import opened SdkClient

  datatype Call =
    | TrackCall(name: string, properties: Option<Properties>)
    | IdentifyCall(userId: string)
    | ResetCall

  /** What a client hears: a call somebody made, or the person carried over from the client before. */
  datatype Told = Made(call: Call) | CarriedOver(person: string)

  datatype Handle = Handle(live: bool, told: seq<seq<Told>>, pending: seq<Call>, person: Option<string>)

  const FRESH := Handle(false, [], [], None)

  // ---- who a track is attributed to ---------------------------------------------------------------------

  /** The person of a client after one more call. */
  function PersonAfter(person: Option<string>, heard: Told): Option<string> {
    match heard
    case Made(TrackCall(_, _)) => person
    case Made(IdentifyCall(userId)) => Trimmed(userId)
    case Made(ResetCall) => None
    case CarriedOver(who) => Trimmed(who)
  }

  /** The person of a client that started with nobody. */
  function PersonOf(heard: seq<Told>): Option<string> {
    if heard == [] then None else PersonAfter(PersonOf(heard[..|heard| - 1]), heard[|heard| - 1])
  }

  datatype Attributed = Attributed(name: string, properties: Option<Properties>, person: Option<string>)

  /** The tracks one client took, each with the person it was attributed to. */
  function Attributions(heard: seq<Told>): seq<Attributed> {
    if heard == [] then []
    else
      var init, last := heard[..|heard| - 1], heard[|heard| - 1];
      Attributions(init)
      + if last.Made? && last.call.TrackCall? then [Attributed(last.call.name, last.call.properties, PersonOf(init))] else []
  }

  function AllAttributions(told: seq<seq<Told>>): seq<Attributed> {
    if told == [] then [] else AllAttributions(told[..|told| - 1]) + Attributions(told[|told| - 1])
  }

  /** The calls a client heard, without what was carried over. */
  function CallsIn(heard: seq<Told>): seq<Call> {
    if heard == [] then []
    else CallsIn(heard[..|heard| - 1]) + if heard[|heard| - 1].Made? then [heard[|heard| - 1].call] else []
  }

  function AllCalls(told: seq<seq<Told>>): seq<Call> {
    if told == [] then [] else AllCalls(told[..|told| - 1]) + CallsIn(told[|told| - 1])
  }

  /** The same calls made on one client that is never rebuilt. */
  function OneClient(calls: seq<Call>): seq<Told> {
    seq(|calls|, i requires 0 <= i < |calls| => Made(calls[i]))
  }

  // ---- the steps ----------------------------------------------------------------------------------------

  function Tell(h: Handle, heard: Told): Handle
    requires h.told != []
  {
    h.(told := h.told[..|h.told| - 1] + [h.told[|h.told| - 1] + [heard]])
  }

  /** What `personRef` is after a call has been applied. */
  function Noted(person: Option<string>, call: Call): Option<string> {
    match call
    case TrackCall(_, _) => person
    case IdentifyCall(userId) => Trimmed(userId)
    case ResetCall => None
  }

  function Applied(h: Handle, call: Call): Handle
    requires h.told != []
  {
    Tell(h, Made(call)).(person := Noted(h.person, call))
  }

  function Sent(h: Handle, call: Call): Handle
    requires h.live ==> h.told != []
  {
    if h.live then Applied(h, call) else h.(pending := h.pending + [call])
  }

  function Cleaned(h: Handle): Handle { h.(live := false) }

  function Replayed(h: Handle, calls: seq<Call>): (r: Handle)
    requires h.told != []
    ensures |r.told| == |h.told| && r.live == h.live && r.pending == h.pending
  {
    if calls == [] then h else Applied(Replayed(h, calls[..|calls| - 1]), calls[|calls| - 1])
  }

  /** A new client, which hears of the person first. */
  function Built(h: Handle): Handle {
    var started := h.(live := true, told := h.told + [[]]);
    if h.person.None? then started else Tell(started, CarriedOver(h.person.value))
  }

  /** The effect: nothing without a window; else a new client, the person, and what was waiting. */
  function Mounted(h: Handle, window: bool): Handle {
    if !window then h else Replayed(Built(h), h.pending).(pending := [])
  }

  /** React cleans an effect up before it runs it again. */
  datatype Action = Make(call: Call) | RunEffect(window: bool) | Unmount

  function Next(h: Handle, action: Action): Handle
    requires h.live ==> h.told != []
  {
    match action
    case Make(call) => Sent(h, call)
    case RunEffect(window) => Mounted(Cleaned(h), window)
    case Unmount => Cleaned(h)
  }

  function Run(actions: seq<Action>): (h: Handle)
    ensures h.live ==> h.told != []
  {
    if actions == [] then FRESH else Next(Run(actions[..|actions| - 1]), actions[|actions| - 1])
  }

  function CallsMade(actions: seq<Action>): seq<Call> {
    if actions == [] then []
    else CallsMade(actions[..|actions| - 1]) + if actions[|actions| - 1].Make? then [actions[|actions| - 1].call] else []
  }

  // ---- invariants -----------------------------------------------------------------------------------------

  ghost predicate Consistent(h: Handle, made: seq<Call>) {
    && AllCalls(h.told) + h.pending == made
    && AllAttributions(h.told) == Attributions(OneClient(AllCalls(h.told)))
    && h.person == PersonOf(OneClient(AllCalls(h.told)))
    && (h.person.Some? ==> Trimmed(h.person.value) == h.person)
    && (h.live ==> h.pending == [] && h.told != [] && PersonOf(h.told[|h.told| - 1]) == h.person)
  }

  lemma {:induction false} TrimmedEnds(s: string)
    ensures Trim(s) != "" ==> !IsSpace(Trim(s)[0]) && !IsSpace(Trim(s)[|Trim(s)| - 1])
    decreases |s|
  {
    if s != "" {
      if IsSpace(s[0]) { TrimmedEnds(s[1..]); }
      else if IsSpace(s[|s| - 1]) { TrimmedEnds(s[..|s| - 1]); }
    }
  }

  /** Carrying a person over does not change them. */
  lemma TrimmedTwice(userId: string)
    ensures Trimmed(userId).Some? ==> Trimmed(Trimmed(userId).value) == Trimmed(userId)
  {
    TrimmedEnds(userId);
  }

  lemma TellLast(told: seq<seq<Told>>, heard: Told)
    requires told != []
    ensures var longer := told[..|told| - 1] + [told[|told| - 1] + [heard]];
      && longer[..|longer| - 1] == told[..|told| - 1] && longer[|longer| - 1] == told[|told| - 1] + [heard]
      && AllCalls(longer) == AllCalls(told) + (if heard.Made? then [heard.call] else [])
      && AllAttributions(longer) == AllAttributions(told)
         + (if heard.Made? && heard.call.TrackCall? then [Attributed(heard.call.name, heard.call.properties, PersonOf(told[|told| - 1]))] else [])
      && PersonOf(longer[|longer| - 1]) == PersonAfter(PersonOf(told[|told| - 1]), heard)
  {
    var last := told[|told| - 1];
    assert (last + [heard])[..|last|] == last;
  }

  lemma OneMore(calls: seq<Call>, call: Call)
    ensures OneClient(calls + [call]) == OneClient(calls) + [Made(call)]
    ensures PersonOf(OneClient(calls + [call])) == PersonAfter(PersonOf(OneClient(calls)), Made(call))
    ensures Attributions(OneClient(calls + [call])) == Attributions(OneClient(calls))
      + if call.TrackCall? then [Attributed(call.name, call.properties, PersonOf(OneClient(calls)))] else []
  {
    var longer := OneClient(calls) + [Made(call)];
    assert OneClient(calls + [call]) == longer;
    assert longer[..|longer| - 1] == OneClient(calls);
  }

  /** The consistency of a live handle while `waiting` calls are still to be replayed. */
  ghost predicate Replaying(h: Handle, applied: seq<Call>) {
    && h.live && h.told != [] && AllCalls(h.told) == applied
    && AllAttributions(h.told) == Attributions(OneClient(applied))
    && h.person == PersonOf(OneClient(applied)) && PersonOf(h.told[|h.told| - 1]) == h.person
    && (h.person.Some? ==> Trimmed(h.person.value) == h.person)
  }

  lemma ApplyKeeps(h: Handle, applied: seq<Call>, call: Call)
    requires Replaying(h, applied)
    ensures Replaying(Applied(h, call), applied + [call])
  {
    TellLast(h.told, Made(call));
    OneMore(applied, call);
    if call.IdentifyCall? { TrimmedTwice(call.userId); }
  }

  lemma {:induction false} ReplayKeeps(h: Handle, applied: seq<Call>, calls: seq<Call>)
    requires Replaying(h, applied)
    ensures Replaying(Replayed(h, calls), applied + calls)
  {
    if calls == [] {
      assert applied + calls == applied;
    } else {
      var init, last := calls[..|calls| - 1], calls[|calls| - 1];
      ReplayKeeps(h, applied, init);
      ApplyKeeps(Replayed(h, init), applied + init, last);
      assert applied + init + [last] == applied + calls;
    }
  }

  lemma BuildKeeps(h: Handle, made: seq<Call>)
    requires Consistent(h, made)
    ensures Replaying(Built(h), AllCalls(h.told))
  {
    var told := h.told + [[]];
    assert told[..|told| - 1] == h.told && CallsIn([]) == [] && Attributions([]) == [];
    assert AllCalls(told) == AllCalls(h.told) && AllAttributions(told) == AllAttributions(h.told);
    if h.person.Some? { TellLast(told, CarriedOver(h.person.value)); }
  }

  lemma StepKeeps(h: Handle, made: seq<Call>, action: Action)
    requires Consistent(h, made)
    ensures Consistent(Next(h, action), made + if action.Make? then [action.call] else [])
  {
    match action
    case Make(call) =>
      if h.live {
        assert AllCalls(h.told) + h.pending == AllCalls(h.told);
        ApplyKeeps(h, AllCalls(h.told), call);
      } else {
        assert AllCalls(h.told) + (h.pending + [call]) == made + [call];
      }
    case RunEffect(window) =>
      if window {
        BuildKeeps(Cleaned(h), made);
        ReplayKeeps(Built(Cleaned(h)), AllCalls(h.told), h.pending);
        assert made + [] == made;
      } else {
        assert made + [] == made;
      }
    case Unmount => assert made + [] == made;
  }

  lemma {:induction false} RunKeeps(actions: seq<Action>)
    ensures Consistent(Run(actions), CallsMade(actions))
  {
    if actions == [] {
      assert OneClient([]) == [];
    } else {
      RunKeeps(actions[..|actions| - 1]);
      StepKeeps(Run(actions[..|actions| - 1]), CallsMade(actions[..|actions| - 1]), actions[|actions| - 1]);
    }
  }

  // ---- theorems ---------------------------------------------------------------------------------------------

  /** Calls applied so far, client after client, followed by those waiting, are the calls made. */
  lemma NoCallIsLostOrRepeated(actions: seq<Action>)
    ensures var h := Run(actions); AllCalls(h.told) + h.pending == CallsMade(actions) && (h.live ==> h.pending == [])
  {
    RunKeeps(actions);
  }

  /**
   * Rebuilding refines one client: the tracks of all the clients, one client after another, with the
   * persons they were attributed to, are those of a single client that heard the applied calls.
   */
  lemma RebuildingIsInvisible(actions: seq<Action>)
    ensures var h := Run(actions);
      && |h.pending| <= |CallsMade(actions)|
      && var applied := CallsMade(actions)[..|CallsMade(actions)| - |h.pending|];
      AllAttributions(h.told) == Attributions(OneClient(applied))
    ensures Run(actions).live ==> AllAttributions(Run(actions).told) == Attributions(OneClient(CallsMade(actions)))
  {
    RunKeeps(actions);
    var h := Run(actions);
    assert |AllCalls(h.told)| + |h.pending| == |CallsMade(actions)|;
    assert (AllCalls(h.told) + h.pending)[..|AllCalls(h.told)|] == AllCalls(h.told);
    if h.live { assert AllCalls(h.told) + h.pending == AllCalls(h.told); }
  }

  /** The live client and the remembered person agree, and are the single client's. */
  lemma ThePersonSurvives(actions: seq<Action>)
    requires Run(actions).live
    ensures var h := Run(actions);
      h.told != [] && PersonOf(h.told[|h.told| - 1]) == h.person == PersonOf(OneClient(CallsMade(actions)))
  {
    RunKeeps(actions);
    var h := Run(actions);
    assert AllCalls(h.told) + h.pending == AllCalls(h.told);
  }

  // ---- the hook ---------------------------------------------------------------------------------------------

  /** What a client reads off the world when it takes a track. */
  datatype Stamp = Stamp(visitId: string, key: string, at: int, now: real)

  /** The SDK's client after a call. */
  function Taken(c: Client, cfg: Config, call: Call, stamp: Stamp): Client {
    match call
    case TrackCall(name, properties) =>
      Tracked(c, cfg, Event(name, stamp.visitId, c.person, stamp.at, stamp.key, properties), stamp.now)
    case IdentifyCall(userId) => c.(person := Trimmed(userId))
    case ResetCall => c.(person := None)
  }

  lemma ReplayOneMore(h: Handle, calls: seq<Call>, i: nat)
    requires h.told != [] && i < |calls|
    ensures Replayed(h, calls[..i]).told != []
    ensures Replayed(h, calls[..i + 1]) == Applied(Replayed(h, calls[..i]), calls[i])
  {
    assert calls[..i + 1][..i] == calls[..i];
  }

  class UseCounted {
    var instance: Counted?
    var pending: seq<Call>
    var person: Option<string>
    ghost var told: seq<seq<Told>>

    ghost predicate Valid()
      reads this, instance, if instance == null then {} else {instance.queue}
    {
      instance != null ==>
        && instance.Valid() && !instance.closed
        && told != [] && instance.person == PersonOf(told[|told| - 1])
    }

    ghost function Now(): Handle
      reads this
    {
      Handle(instance != null, told, pending, person)
    }

    constructor ()
      ensures Valid() && Now() == FRESH && instance == null
    {
      instance, pending, person, told := null, [], None, [];
    }

    method Apply(call: Call, stamp: Stamp)
      requires Valid() && instance != null
      modifies this, instance, instance.queue
      ensures Valid() && instance == old(instance) && Now() == Applied(old(Now()), call)
      ensures instance.cfg == old(instance.cfg) && instance.State() ==
        Taken(old(instance.State()), instance.cfg, call, stamp)
    {
      TellLast(told, Made(call));
      told := told[..|told| - 1] + [told[|told| - 1] + [Made(call)]];
      match call
      case TrackCall(name, properties) =>
        instance.Track(name, properties, stamp.visitId, stamp.key, stamp.at, stamp.now);
      case IdentifyCall(userId) =>
        person := Trimmed(userId);
        instance.Identify(userId);
      case ResetCall =>
        person := None;
        instance.Reset();
    }

    method Send(call: Call, stamp: Stamp)
      requires Valid()
      modifies this, instance, if instance == null then {} else {instance.queue}
      ensures Valid() && instance == old(instance) && Now() == Sent(old(Now()), call)
    {
      if instance != null {
        Apply(call, stamp);
      } else {
        pending := pending + [call];
      }
    }

    /** The first half of the effect: the new client, and the person re-applied. */
    method Build(maxBatch: int, capacity: int)
      requires Valid()
      modifies this
      ensures Valid() && Now() == Built(old(Now()))
      ensures instance != null && fresh(instance) && fresh(instance.queue)
    {
      ghost var started := told + [[]];
      assert started[|started| - 1] == [];
      instance := new Counted(maxBatch, capacity);
      told := started;
      if person.Some? {
        TellLast(started, CarriedOver(person.value));
        told := started[..|started| - 1] + [started[|started| - 1] + [CarriedOver(person.value)]];
        instance.Identify(person.value);
      }
    }

    /** The loop of the effect. */
    method Replay(stamps: seq<Stamp>)
      requires Valid() && instance != null && |stamps| >= |pending|
      modifies this, instance, instance.queue
      ensures Valid() && instance == old(instance) && Now() == Replayed(old(Now()), old(pending)).(pending := [])
    {
      var calls := pending;
      for i := 0 to |calls|
        invariant Valid() && instance == old(instance) && calls == pending
        invariant Now() == Replayed(old(Now()), calls[..i])
      {
        ReplayOneMore(old(Now()), calls, i);
        Apply(calls[i], stamps[i]);
      }
      assert calls[..|calls|] == calls;
      pending := [];
    }

    method Effect(window: bool, maxBatch: int, capacity: int, stamps: seq<Stamp>)
      requires Valid() && instance == null && |stamps| >= |pending|
      modifies this
      ensures Valid() && Now() == Mounted(old(Now()), window)
      ensures instance != null ==> fresh(instance) && fresh(instance.queue)
    {
      if !window {
        return;
      }
      Build(maxBatch, capacity);
      Replay(stamps);
    }

    method Cleanup(now: real)
      requires Valid()
      modifies this, instance, if instance == null then {} else {instance.queue}
      ensures Valid() && Now() == Cleaned(old(Now())) && instance == null
      ensures old(instance) != null ==>
        old(instance).State() == ShutDown(old(instance.State()), old(instance).cfg, now)
    {
      var last := instance;
      instance := null;
      if last != null {
        last.Shutdown(now);
      }
    }
  }
}
