/**
 * The line protocol of the conformance harness (contract/conformance/src/process-harness.ts): a
 * stream that arrives in arbitrary chunks, cut into lines, each of which answers the longest-waiting
 * command.
 */
module LineProtocol {
  import opened SdkClient
  import opened ClientSteps

  // ---- lines --------------------------------------------------------------------------------------------

  /** `indexOf("\n")`; the length where there is none. */
  function NewlineAt(text: string): (i: nat)
    ensures i <= |text| && (i < |text| ==> text[i] == '\n') && forall k :: 0 <= k < i ==> text[k] != '\n'
  {
    if text == "" || text[0] == '\n' then 0
    else
      assert text == [text[0]] + text[1..];
      NewlineAt(text[1..]) + 1
  }

  predicate HasNewline(text: string) { NewlineAt(text) < |text| }

  /** The lines that are complete, without their newlines. */
  function CompleteLines(text: string): seq<string>
    decreases |text|
  {
    var i := NewlineAt(text);
    if i == |text| then [] else [text[..i]] + CompleteLines(text[i + 1..])
  }

  function Unfinished(text: string): string
    decreases |text|
  {
    var i := NewlineAt(text);
    if i == |text| then text else Unfinished(text[i + 1..])
  }

  /** The lines anybody is told of: trimmed, the empty ones left out. */
  function Worthwhile(lines: seq<string>): seq<string> {
    if lines == [] then []
    else Worth(lines[0]) + Worthwhile(lines[1..])
  }

  function Worth(line: string): seq<string> { if Trim(line) == "" then [] else [Trim(line)] }

  function Joined(lines: seq<string>): string {
    if lines == [] then "" else lines[0] + "\n" + Joined(lines[1..])
  }

  predicate Plain(lines: seq<string>) { forall i :: 0 <= i < |lines| ==> !HasNewline(lines[i]) }

  lemma FirstNewline(line: string, rest: string)
    requires !HasNewline(line)
    ensures var text := line + "\n" + rest;
      HasNewline(text) && NewlineAt(text) == |line| && text[..|line|] == line && text[|line| + 1..] == rest
  {
    var text := line + "\n" + rest;
    assert text[|line|] == '\n';
    assert forall k :: 0 <= k < |line| ==> text[k] == line[k];
  }

  /** There is one way to cut a text into complete lines and a rest, and this is it. */
  lemma {:induction false} LinesAreUnique(text: string, lines: seq<string>, rest: string)
    requires Plain(lines) && !HasNewline(rest) && text == Joined(lines) + rest
    ensures CompleteLines(text) == lines && Unfinished(text) == rest
    decreases |lines|
  {
    if lines == [] {
      assert text == rest;
    } else {
      var more := Joined(lines[1..]) + rest;
      assert text == lines[0] + "\n" + more;
      FirstNewline(lines[0], more);
      LinesAreUnique(more, lines[1..], rest);
      assert lines == [lines[0]] + lines[1..];
    }
  }

  lemma CutOnce(text: string)
    requires HasNewline(text)
    ensures var i := NewlineAt(text); text == text[..i] + "\n" + text[i + 1..] && !HasNewline(text[..i])
  {
  }

  lemma JoinedOne(line: string, lines: seq<string>)
    ensures Joined([line] + lines) == line + "\n" + Joined(lines)
    ensures !HasNewline(line) && Plain(lines) ==> Plain([line] + lines)
  {
    assert ([line] + lines)[1..] == lines;
  }

  lemma LinesOf(text: string)
    requires HasNewline(text)
    ensures var i := NewlineAt(text);
      CompleteLines(text) == [text[..i]] + CompleteLines(text[i + 1..]) && Unfinished(text) == Unfinished(text[i + 1..])
  {
  }

  lemma {:induction false} LinesRejoin(text: string)
    ensures Plain(CompleteLines(text)) && !HasNewline(Unfinished(text))
    ensures text == Joined(CompleteLines(text)) + Unfinished(text)
    decreases |text|
  {
    if HasNewline(text) {
      var i := NewlineAt(text);
      var line, more := text[..i], text[i + 1..];
      CutOnce(text);
      LinesRejoin(more);
      LinesOf(text);
      RejoinOne(line, more, CompleteLines(more), Unfinished(more));
    }
  }

  lemma RejoinOne(line: string, more: string, lines: seq<string>, rest: string)
    requires !HasNewline(line) && Plain(lines) && more == Joined(lines) + rest
    ensures Plain([line] + lines) && line + "\n" + more == Joined([line] + lines) + rest
  {
    JoinedOne(line, lines);
  }

  lemma {:induction false} JoinedAppend(a: seq<string>, b: seq<string>)
    ensures Joined(a + b) == Joined(a) + Joined(b)
  {
    if a == [] {
      assert a + b == b;
    } else {
      JoinedAppend(a[1..], b);
      assert (a + b)[1..] == a[1..] + b;
    }
  }

  lemma PlainAppend(a: seq<string>, b: seq<string>)
    requires Plain(a) && Plain(b)
    ensures Plain(a + b)
  {
  }

  /** A chunk more is the lines it completes more. */
  lemma LinesAppend(text: string, chunk: string)
    ensures CompleteLines(text + chunk) == CompleteLines(text) + CompleteLines(Unfinished(text) + chunk)
    ensures Unfinished(text + chunk) == Unfinished(Unfinished(text) + chunk)
  {
    var later := Unfinished(text) + chunk;
    var seen, more, rest := CompleteLines(text), CompleteLines(later), Unfinished(later);
    LinesRejoin(text);
    LinesRejoin(later);
    assert Joined(seen + more) == Joined(seen) + Joined(more) by { JoinedAppend(seen, more); }
    Regroup(text, chunk, Joined(seen), Unfinished(text), Joined(more), rest);
    PlainAppend(seen, more);
    LinesAreUnique(text + chunk, seen + more, rest);
  }

  lemma Regroup(text: string, chunk: string, seen: string, left: string, more: string, rest: string)
    requires text == seen + left && left + chunk == more + rest
    ensures text + chunk == seen + more + rest
  {
    assert text + chunk == seen + (left + chunk);
  }

  lemma {:induction false} WorthwhileAppend(a: seq<string>, b: seq<string>)
    ensures Worthwhile(a + b) == Worthwhile(a) + Worthwhile(b)
  {
    if a == [] {
      assert a + b == b;
    } else {
      WorthwhileAppend(a[1..], b);
      assert (a + b)[1..] == a[1..] + b && (a + b)[0] == a[0];
      assert Worth(a[0]) + (Worthwhile(a[1..]) + Worthwhile(b)) == Worth(a[0]) + Worthwhile(a[1..]) + Worthwhile(b);
    }
  }

  lemma WorthwhileOne(line: string, lines: seq<string>)
    ensures Worthwhile([line] + lines) ==
      if Trim(line) == "" then Worthwhile(lines) else [Trim(line)] + Worthwhile(lines)
    ensures Trim(line) != "" ==> Worthwhile([line] + lines)[0] == Trim(line) && Worthwhile([line] + lines)[1..] == Worthwhile(lines)
  {
    assert ([line] + lines)[1..] == lines;
  }

  // ---- commands and their answers -----------------------------------------------------------------------

  /** How the promise of a command was settled, for good. */
  datatype Settled = Answered(line: string) | TimedOut

  /** Commands are numbered as they are sent; `delivered` are the lines that found one waiting. */
  datatype Protocol = Protocol(buffer: string, waiting: seq<nat>, sent: nat, settled: map<nat, Settled>,
      delivered: seq<string>)

  const OPEN := Protocol("", [], 0, map[], [])

  function Sent(p: Protocol): Protocol { p.(waiting := p.waiting + [p.sent], sent := p.sent + 1) }

  /** A promise settles once. */
  function Settle(settled: map<nat, Settled>, command: nat, how: Settled): map<nat, Settled> {
    if command in settled then settled else settled[command := how]
  }

  /** The timer of a command: it stays in line for its answer. */
  function Expired(p: Protocol, command: nat): Protocol {
    if command < p.sent then p.(settled := Settle(p.settled, command, TimedOut)) else p
  }

  /** One line: the first in line is answered; with nobody in line it is dropped. */
  function Delivered(p: Protocol, line: string): Protocol {
    if p.waiting == [] then p
    else
      p.(waiting := p.waiting[1..], settled := Settle(p.settled, p.waiting[0], Answered(line)), delivered := p.delivered + [line])
  }

  function DeliveredAll(p: Protocol, lines: seq<string>): Protocol
    decreases |lines|
  {
    if lines == [] then p else DeliveredAll(Delivered(p, lines[0]), lines[1..])
  }

  /** What is left to do when these lines, and then this rest, are left to read. */
  function DrainedBy(p: Protocol, lines: seq<string>, rest: string): Protocol {
    DeliveredAll(p, Worthwhile(lines)).(buffer := rest)
  }

  /** The loop from here on. */
  function Drained(p: Protocol): Protocol { DrainedBy(p, CompleteLines(p.buffer), Unfinished(p.buffer)) }

  function Consumed(p: Protocol, chunk: string): Protocol { Drained(p.(buffer := p.buffer + chunk)) }

  /** One turn of the loop: a line is cut off, and told if it is worth telling. */
  function Turn(p: Protocol, line: string, more: string): Protocol {
    if Trim(line) == "" then p.(buffer := more) else Delivered(p.(buffer := more), Trim(line))
  }

  function Turned(p: Protocol): Protocol
    requires HasNewline(p.buffer)
  {
    Turn(p, p.buffer[..NewlineAt(p.buffer)], p.buffer[NewlineAt(p.buffer) + 1..])
  }

  /** What is delivered does not depend on what is buffered. */
  lemma {:induction false} BufferAside(p: Protocol, buffer: string, lines: seq<string>)
    ensures DeliveredAll(p.(buffer := buffer), lines) == DeliveredAll(p, lines).(buffer := buffer)
    decreases |lines|
  {
    if lines != [] {
      BufferAside(Delivered(p, lines[0]), buffer, lines[1..]);
      assert Delivered(p.(buffer := buffer), lines[0]) == Delivered(p, lines[0]).(buffer := buffer);
    }
  }

  lemma TurnDrains(p: Protocol, line: string, more: string, lines: seq<string>, rest: string)
    ensures DrainedBy(Turn(p, line, more), lines, rest) == DrainedBy(p, [line] + lines, rest)
  {
    WorthwhileOne(line, lines);
    if Trim(line) == "" {
      BufferAside(p, more, Worthwhile(lines));
    } else {
      BufferAside(Delivered(p, Trim(line)), more, Worthwhile(lines));
    }
  }

  lemma TurnBuffers(p: Protocol, line: string, more: string)
    ensures Turn(p, line, more).buffer == more
  {
  }

  lemma DrainsAlike(p: Protocol, q: Protocol, line: string, lines: seq<string>, rest: string)
    requires CompleteLines(p.buffer) == [line] + lines && Unfinished(p.buffer) == rest
    requires CompleteLines(q.buffer) == lines && Unfinished(q.buffer) == rest && q == Turn(p, line, q.buffer)
    ensures Drained(q) == Drained(p)
  {
    TurnDrains(p, line, q.buffer, lines, rest);
  }

  lemma TurnShortens(p: Protocol)
    requires HasNewline(p.buffer)
    ensures |Turned(p).buffer| < |p.buffer|
  {
    TurnBuffers(p, p.buffer[..NewlineAt(p.buffer)], p.buffer[NewlineAt(p.buffer) + 1..]);
  }

  lemma TurnsDrain(p: Protocol)
    requires HasNewline(p.buffer)
    ensures Drained(Turned(p)) == Drained(p)
  {
    var line, more := p.buffer[..NewlineAt(p.buffer)], p.buffer[NewlineAt(p.buffer) + 1..];
    assert Turned(p).buffer == more by { TurnBuffers(p, line, more); }
    assert CompleteLines(p.buffer) == [line] + CompleteLines(more) && Unfinished(p.buffer) == Unfinished(more) by {
      LinesOf(p.buffer);
    }
    DrainsAlike(p, Turned(p), line, CompleteLines(more), Unfinished(more));
  }

  lemma DrainedAlready(p: Protocol)
    requires !HasNewline(p.buffer)
    ensures Drained(p) == p
  {
  }

  class LineProtocol {
    var buffer: string
    var waiting: seq<nat>
    ghost var sent: nat
    ghost var settled: map<nat, Settled>
    ghost var delivered: seq<string>

    ghost function Now(): Protocol
      reads this
    {
      Protocol(buffer, waiting, sent, settled, delivered)
    }

    constructor ()
      ensures Now() == OPEN
    {
      buffer, waiting, sent, settled, delivered := "", [], 0, map[], [];
    }

    method Send(command: nat)
      requires command == sent
      modifies this
      ensures Now() == Sent(old(Now()))
    {
      waiting := waiting + [command];
      sent := sent + 1;
    }

    /** One turn of the loop of `consume`. */
    method ConsumeLine()
      requires HasNewline(buffer)
      modifies this
      ensures Now() == Turned(old(Now()))
    {
      var index := NewlineAt(buffer);
      var line := Trim(buffer[..index]);
      buffer := buffer[index + 1..];
      if |line| > 0 && |waiting| > 0 {
        settled := Settle(settled, waiting[0], Answered(line));
        delivered := delivered + [line];
        waiting := waiting[1..];
      }
    }

    method Consume(chunk: string)
      modifies this
      ensures Now() == Consumed(old(Now()), chunk)
    {
      buffer := buffer + chunk;
      ghost var all := Drained(Now());
      while HasNewline(buffer)
        invariant Drained(Now()) == all
        decreases |buffer|
      {
        TurnsDrain(Now());
        TurnShortens(Now());
        ConsumeLine();
      }
      DrainedAlready(Now());
    }
  }

  // ---- runs ---------------------------------------------------------------------------------------------

  datatype Action = SendCommand | Chunk(text: string) | Expire(command: nat)

  function Next(p: Protocol, action: Action): Protocol {
    match action
    case SendCommand => Sent(p)
    case Chunk(text) => Consumed(p, text)
    case Expire(command) => Expired(p, command)
  }

  function Run(actions: seq<Action>): Protocol {
    if actions == [] then OPEN else Next(Run(actions[..|actions| - 1]), actions[|actions| - 1])
  }

  /** The whole stream, however it was cut. */
  function Stream(actions: seq<Action>): string {
    if actions == [] then ""
    else Stream(actions[..|actions| - 1]) + if actions[|actions| - 1].Chunk? then actions[|actions| - 1].text else ""
  }

  function Replies(actions: seq<Action>): seq<string> { Worthwhile(CompleteLines(Stream(actions))) }

  function SentBy(actions: seq<Action>): nat {
    if actions == [] then 0 else SentBy(actions[..|actions| - 1]) + if actions[|actions| - 1].SendCommand? then 1 else 0
  }

  /** No reply is ever there before its command. */
  predicate InStep(actions: seq<Action>) {
    actions == [] || (InStep(actions[..|actions| - 1]) && |Replies(actions)| <= SentBy(actions))
  }

  ghost predicate Paired(p: Protocol, replies: seq<string>, commands: nat) {
    && p.sent == commands && |p.delivered| + |p.waiting| == commands
    && (forall k :: 0 <= k < |p.waiting| ==> p.waiting[k] == |p.delivered| + k)
    && (forall c: nat :: c in p.settled ==> c < commands && (p.settled[c] == TimedOut || (c < |p.delivered| && p.settled[c] == Answered(p.delivered[c]))))
    && (forall c: nat :: c < |p.delivered| ==> c in p.settled)
    && |p.delivered| <= |replies|
  }

  lemma SameInit(a: seq<string>, b: seq<string>, x: string)
    ensures a + [x] == b + [x] <==> a == b
  {
    assert (a + [x])[..|a|] == a && (b + [x])[..|b|] == b;
  }

  lemma DeliverPairs(p: Protocol, replies: seq<string>, commands: nat, line: string)
    requires Paired(p, replies, commands)
    ensures Paired(Delivered(p, line), replies + [line], commands)
    ensures Delivered(p, line).delivered == replies + [line] <==> p.delivered == replies && |replies| < commands
  {
    SameInit(p.delivered, replies, line);
  }

  lemma {:induction false} DeliverAllPairs(p: Protocol, replies: seq<string>, commands: nat, lines: seq<string>)
    requires Paired(p, replies, commands)
    ensures Paired(DeliveredAll(p, lines), replies + lines, commands)
    ensures DeliveredAll(p, lines).delivered == replies + lines <==>
      p.delivered == replies && |replies| + |lines| <= commands
    decreases |lines|
  {
    if lines == [] {
      assert replies + lines == replies;
    } else {
      DeliverPairs(p, replies, commands, lines[0]);
      DeliverAllPairs(Delivered(p, lines[0]), replies + [lines[0]], commands, lines[1..]);
      assert replies + [lines[0]] + lines[1..] == replies + lines;
    }
  }

  /** A chunk, for a stream that has been read this far. */
  lemma ChunkPairs(p: Protocol, stream: string, commands: nat, chunk: string)
    requires p.buffer == Unfinished(stream) && Paired(p, Worthwhile(CompleteLines(stream)), commands)
    ensures Consumed(p, chunk).buffer == Unfinished(stream + chunk)
    ensures var seen, now := Worthwhile(CompleteLines(stream)), Worthwhile(CompleteLines(stream + chunk));
      && Paired(Consumed(p, chunk), now, commands)
      && (Consumed(p, chunk).delivered == now <==> p.delivered == seen && |now| <= commands)
  {
    var seen := Worthwhile(CompleteLines(stream));
    var lines := CompleteLines(p.buffer + chunk);
    LinesAppend(stream, chunk);
    WorthwhileAppend(CompleteLines(stream), lines);
    DeliverAllPairs(p, seen, commands, Worthwhile(lines));
    BufferAside(p, p.buffer + chunk, Worthwhile(lines));
  }

  /** The stream so far: what is complete in it has been seen, the rest is the buffer. */
  lemma {:induction false} RunPairs(actions: seq<Action>)
    ensures Run(actions).buffer == Unfinished(Stream(actions))
    ensures Paired(Run(actions), Replies(actions), SentBy(actions))
    ensures Run(actions).delivered == Replies(actions) <==> InStep(actions)
  {
    if actions != [] {
      var init, last := actions[..|actions| - 1], actions[|actions| - 1];
      RunPairs(init);
      if last.Chunk? {
        ChunkPairs(Run(init), Stream(init), SentBy(init), last.text);
      } else {
        assert Stream(actions) == Stream(init);
        StepPairs(Run(init), Replies(init), SentBy(init), last);
      }
    }
  }

  lemma StepPairs(p: Protocol, replies: seq<string>, commands: nat, action: Action)
    requires Paired(p, replies, commands) && !action.Chunk?
    ensures Paired(Next(p, action), replies, if action.SendCommand? then commands + 1 else commands)
    ensures Next(p, action).delivered == p.delivered && Next(p, action).buffer == p.buffer
    ensures p.delivered == replies ==> |replies| <= commands
  {
  }

  /**
   * However the stream is cut, the buffer is its unfinished line, and the lines seen are the complete ones of
   * the whole.
   */
  lemma CuttingDoesNotMatter(actions: seq<Action>, others: seq<Action>)
    requires Stream(actions) == Stream(others)
    ensures Run(actions).buffer == Run(others).buffer == Unfinished(Stream(actions))
    ensures InStep(actions) && InStep(others) ==> Run(actions).delivered == Run(others).delivered
  {
    RunPairs(actions);
    RunPairs(others);
  }

  /**
   * Every reply answers some command exactly when none is ever there before its command; and then
   * the k-th reply answers the k-th command, also after commands that timed out.
   */
  lemma TheKthReplyAnswersTheKthCommandIff(actions: seq<Action>)
    ensures Run(actions).delivered == Replies(actions) <==> InStep(actions)
    ensures InStep(actions) ==>
      forall c: nat :: c < |Replies(actions)| ==>
        c in Run(actions).settled && Run(actions).settled[c] in {Answered(Replies(actions)[c]), TimedOut}
  {
    RunPairs(actions);
  }

  /** The n-th line that found anyone waiting went to the n-th command, whatever the line was. */
  lemma FirstInFirstOut(actions: seq<Action>, command: nat)
    requires command in Run(actions).settled && Run(actions).settled[command].Answered?
    ensures command < |Run(actions).delivered| && Run(actions).settled[command].line == Run(actions).delivered[command]
  {
    RunPairs(actions);
  }

  /**
   * Let `own` be what the driver has to say to each command, in order. If it has said no more than
   * that, and nothing before it was asked, no command is answered with the reply to another.
   */
  lemma NoAnswerIsAnothers(actions: seq<Action>, own: seq<string>, command: nat)
    requires InStep(actions) && Replies(actions) <= own
    requires command in Run(actions).settled && Run(actions).settled[command].Answered?
    ensures command < |own| && Run(actions).settled[command].line == own[command]
  {
    RunPairs(actions);
  }

  /**
   * While no timer has fired and no reply came early, each command has its own reply exactly when
   * all that was said are the replies.
   */
  lemma EachHasItsOwnIff(actions: seq<Action>, own: seq<string>)
    requires InStep(actions) && |Replies(actions)| <= |own|
    requires forall c: nat :: c in Run(actions).settled ==> Run(actions).settled[c].Answered?
    ensures (forall c: nat :: c in Run(actions).settled ==> c < |own| && Run(actions).settled[c].line == own[c]) <==>
      Replies(actions) <= own
  {
    RunPairs(actions);
    var p, replies := Run(actions), Replies(actions);
    if forall c: nat :: c in p.settled ==> c < |own| && p.settled[c].line == own[c] {
      forall i | 0 <= i < |replies| ensures replies[i] == own[i] {
        assert i in p.settled && p.settled[i] == Answered(replies[i]);
      }
    }
  }

  // ---- what goes wrong otherwise -----------------------------------------------------------------------

  /** A line as it is told: trimmed, in one piece, not empty. */
  predicate IsLine(line: string) { line != "" && !HasNewline(line) && Trim(line) == line }

  /** The chunk that is one whole line. */
  function Whole(line: string): string { line + "\n" }

  lemma TwoLines(a: string, b: string)
    requires IsLine(a) && IsLine(b)
    ensures CompleteLines(Whole(a) + Whole(b)) == [a, b] && Worthwhile([a, b]) == [a, b]
  {
    assert Joined([a, b]) + "" == Whole(a) + Whole(b) by {
      JoinedOne(a, [b]);
      JoinedOne(b, []);
      assert [a] + [b] == [a, b] && [b] + [] == [b];
    }
    LinesAreUnique(Whole(a) + Whole(b), [a, b], "");
    WorthwhileOne(a, [b]);
    WorthwhileOne(b, []);
    assert [a] + [b] == [a, b] && [b] + [] == [b];
  }

  lemma OneLineAtATime(p: Protocol, line: string)
    requires p.buffer == "" && IsLine(line)
    ensures Consumed(p, Whole(line)) == Delivered(p, line)
  {
    JoinedOne(line, []);
    assert [line] + [] == [line] && Joined([line]) + "" == Whole(line);
    LinesAreUnique(Whole(line), [line], "");
    assert p.buffer + Whole(line) == Whole(line);
    WorthwhileOne(line, []);
    BufferAside(p, Whole(line), [line]);
    assert [line][1..] == [] && DeliveredAll(p, [line]) == Delivered(p, line);
  }

  lemma RunStep(before: seq<Action>, action: Action)
    ensures Run(before + [action]) == Next(Run(before), action)
    ensures Stream(before + [action]) == Stream(before) + if action.Chunk? then action.text else ""
  {
    assert (before + [action])[..|before|] == before;
  }

  lemma LineStep(before: seq<Action>, line: string)
    requires Run(before).buffer == "" && IsLine(line)
    ensures Run(before + [Chunk(Whole(line))]) == Delivered(Run(before), line)
    ensures Stream(before + [Chunk(Whole(line))]) == Stream(before) + Whole(line)
  {
    RunStep(before, Chunk(Whole(line)));
    OneLineAtATime(Run(before), line);
  }

  lemma TwoSends(before: seq<Action>)
    requires Run(before) == OPEN
    ensures Run(before + [SendCommand] + [SendCommand]) == OPEN.(waiting := [0, 1], sent := 2)
    ensures Stream(before + [SendCommand] + [SendCommand]) == Stream(before)
  {
    RunStep(before, SendCommand);
    RunStep(before + [SendCommand], SendCommand);
  }

  lemma TwoReplies(actions: seq<Action>, a: string, b: string)
    requires IsLine(a) && IsLine(b) && Stream(actions) == Whole(a) + Whole(b)
    ensures Replies(actions) == [a, b]
    ensures InStep(actions) <==> Run(actions).delivered == [a, b]
  {
    TwoLines(a, b);
    RunPairs(actions);
  }

  lemma FirstAnswer(before: seq<Action>, line: string)
    requires Run(before) == OPEN.(waiting := [0, 1], sent := 2) && IsLine(line)
    ensures Run(before + [Chunk(Whole(line))]) == Protocol("", [1], 2, map[0 := Answered(line)], [line])
    ensures Stream(before + [Chunk(Whole(line))]) == Stream(before) + Whole(line)
  {
    LineStep(before, line);
    assert [0, 1][1..] == [1] && [] + [line] == [line];
  }

  lemma SecondAnswer(before: seq<Action>, first: string, line: string)
    requires Run(before) == Protocol("", [1], 2, map[0 := Answered(first)], [first]) && IsLine(line)
    ensures Run(before + [Chunk(Whole(line))]) ==
      Protocol("", [], 2, map[0 := Answered(first), 1 := Answered(line)], [first, line])
    ensures Stream(before + [Chunk(Whole(line))]) == Stream(before) + Whole(line)
  {
    LineStep(before, line);
    assert [1][1..] == [] && [first] + [line] == [first, line];
  }

  const TWO_COMMANDS: seq<Action> := [] + [SendCommand] + [SendCommand]

  lemma TwoCommands()
    ensures Run(TWO_COMMANDS) == OPEN.(waiting := [0, 1], sent := 2) && Stream(TWO_COMMANDS) == ""
  {
    TwoSends([]);
  }

  lemma TwoAnswered(before: seq<Action>, a: string, b: string)
    requires Run(before) == OPEN.(waiting := [0, 1], sent := 2) && Stream(before) == "" && IsLine(a) && IsLine(b)
    ensures var actions := before + [Chunk(Whole(a))] + [Chunk(Whole(b))];
      Stream(actions) == Whole(a) + Whole(b) &&
      Run(actions) == Protocol("", [], 2, map[0 := Answered(a), 1 := Answered(b)], [a, b])
  {
    FirstAnswer(before, a);
    SecondAnswer(before + [Chunk(Whole(a))], a, b);
    assert "" + Whole(a) == Whole(a);
  }

  /** A driver that prints one line too many: the second command is told the reply to the first. */
  lemma AStrayLineShiftsTheAnswers(stray: string, reply: string)
    requires IsLine(stray) && IsLine(reply)
    ensures var actions := TWO_COMMANDS + [Chunk(Whole(stray))] + [Chunk(Whole(reply))];
      InStep(actions) && Replies(actions) == [stray, reply] &&
      Run(actions).settled == map[0 := Answered(stray), 1 := Answered(reply)]
  {
    TwoCommands();
    TwoAnswered(TWO_COMMANDS, stray, reply);
    TwoReplies(TWO_COMMANDS + [Chunk(Whole(stray))] + [Chunk(Whole(reply))], stray, reply);
  }

  lemma EarlyAndTwoCommands(before: seq<Action>, first: string)
    requires Run(before) == OPEN && Stream(before) == "" && IsLine(first)
    ensures var sends := before + [Chunk(Whole(first))] + [SendCommand] + [SendCommand];
      Run(sends) == OPEN.(waiting := [0, 1], sent := 2) && Stream(sends) == Whole(first)
  {
    LineStep(before, first);
    TwoSends(before + [Chunk(Whole(first))]);
    assert "" + Whole(first) == Whole(first);
  }

  lemma OneAnswered(before: seq<Action>, a: string, b: string)
    requires Run(before) == OPEN.(waiting := [0, 1], sent := 2) && Stream(before) == Whole(a) && IsLine(a) && IsLine(b)
    ensures var actions := before + [Chunk(Whole(b))];
      !InStep(actions) && Replies(actions) == [a, b] && Run(actions).settled == map[0 := Answered(b)]
  {
    FirstAnswer(before, b);
    TwoReplies(before + [Chunk(Whole(b))], a, b);
  }

  const NOTHING_YET: seq<Action> := []

  /** A driver that prints its first reply before it is asked: the first command is told the reply to the second. */
  lemma AnEarlyReplyShiftsTheAnswers(first: string, second: string)
    requires IsLine(first) && IsLine(second)
    ensures var actions := NOTHING_YET + [Chunk(Whole(first))] + [SendCommand] + [SendCommand] + [Chunk(Whole(second))];
      !InStep(actions) && Replies(actions) == [first, second] && Run(actions).settled == map[0 := Answered(second)]
  {
    assert Run(NOTHING_YET) == OPEN && Stream(NOTHING_YET) == "";
    EarlyAndTwoCommands(NOTHING_YET, first);
    OneAnswered(NOTHING_YET + [Chunk(Whole(first))] + [SendCommand] + [SendCommand], first, second);
  }

  // ---- what counts as a reply, and how long an answer holds ---------------------------------------------

  /** The replies among some lines: whatever is not blank, with the white space around it gone. */
  ghost predicate RepliesAmong(lines: seq<string>, replies: seq<string>) {
    if lines == [] then replies == []
    else if Blank(lines[0]) then RepliesAmong(lines[1..], replies)
    else replies != [] && IsStripped(lines[0], replies[0]) && RepliesAmong(lines[1..], replies[1..])
  }

  ghost predicate IsStripped(line: string, reply: string) {
    reply != "" && exists before, after :: Stripped(line, before, reply, after)
  }

  lemma BlankIs(line: string)
    ensures Trim(line) == "" <==> Blank(line)
    ensures !Blank(line) ==> IsStripped(line, Trim(line))
  {
    var before, after := TrimStrips(line);
    var reply := Trim(line);
    if reply == "" {
      assert line == before + after;
    } else {
      assert line[|before|] == reply[0];
    }
  }

  lemma {:induction false} WorthwhileIs(lines: seq<string>)
    ensures RepliesAmong(lines, Worthwhile(lines))
  {
    if lines != [] {
      WorthwhileIs(lines[1..]);
      BlankIs(lines[0]);
      WorthwhileOne(lines[0], lines[1..]);
      assert lines == [lines[0]] + lines[1..];
    }
  }

  predicate OneLine(text: string) { forall i :: 0 <= i < |text| ==> text[i] != '\n' }

  /** However a stream is written as lines, each ended by a newline, and a rest: its replies are those among the lines. */
  lemma TheRepliesAre(actions: seq<Action>, lines: seq<string>, rest: string)
    requires Stream(actions) == Joined(lines) + rest
    requires OneLine(rest) && forall i :: 0 <= i < |lines| ==> OneLine(lines[i])
    ensures RepliesAmong(lines, Replies(actions)) && Run(actions).buffer == rest
  {
    LinesAreUnique(Stream(actions), lines, rest);
    WorthwhileIs(lines);
    RunPairs(actions);
  }

  lemma {:induction false} DeliveringKeeps(p: Protocol, lines: seq<string>, command: nat)
    requires command in p.settled
    ensures command in DeliveredAll(p, lines).settled && DeliveredAll(p, lines).settled[command] == p.settled[command]
    decreases |lines|
  {
    if lines != [] { DeliveringKeeps(Delivered(p, lines[0]), lines[1..], command); }
  }

  /** A command is answered once: neither its timer nor a later line changes what it was told. */
  lemma AnAnswerHolds(actions: seq<Action>, action: Action, command: nat)
    requires command in Run(actions).settled
    ensures command in Run(actions + [action]).settled
    ensures Run(actions + [action]).settled[command] == Run(actions).settled[command]
  {
    RunStep(actions, action);
    var p := Run(actions);
    if action.Chunk? {
      var q := p.(buffer := p.buffer + action.text);
      DeliveringKeeps(q, Worthwhile(CompleteLines(q.buffer)), command);
    }
  }

  /** The timer of a command that waits for its answer ends the wait, but leaves it in the line. */
  lemma TheTimerEndsTheWait(actions: seq<Action>, command: nat)
    requires command < SentBy(actions) && command !in Run(actions).settled
    ensures var p := Run(actions + [Expire(command)]);
      command in p.settled && p.settled[command] == TimedOut && p.waiting == Run(actions).waiting
  {
    RunStep(actions, Expire(command));
    RunPairs(actions);
  }
}
