/**
 * The text of an event stream: the line rules of section 9.2.5 of the WHATWG HTML standard and the
 * field rules of section 9.2.6, and the browser's parser as a function of one character.
 */
module EventStreamText {
  import opened Wrappers
  import opened JsonText
  import opened JsonSyntax
  import opened Replica
  import opened DraftLedger

  const CR: CodePoint := 0x0D
  const LF: CodePoint := 0x0A
  const SPACE: CodePoint := 0x20

  predicate EndsLine(c: CodePoint) {
    c == CR || c == LF
  }

  predicate OneLine(t: Text) {
    forall i :: 0 <= i < |t| ==> !EndsLine(t[i])
  }

  // ---------------------------------------------------------------- lines (section 9.2.5)

  /** The complete lines of a text, and what is left: the open line, and whether a CR is held. */
  datatype Split = Split(lines: seq<Text>, rest: Text, held: bool)

  function LineEnd(t: Text): (n: nat)
    ensures n <= |t| && OneLine(t[..n])
    ensures n < |t| ==> EndsLine(t[n])
  {
    if t == [] || EndsLine(t[0]) then 0 else LineEnd(t[1..]) + 1
  }

  // The width of the line end at the start of a text
  function EndWidth(t: Text): (n: nat)
    requires t != []
    ensures 1 <= n <= |t|
  {
    if t[0] == CR && |t| > 1 && t[1] == LF then 2 else 1
  }

  // What follows the first line and its end
  function NextLine(t: Text): (rest: Text)
    requires LineEnd(t) < |t|
    ensures |rest| < |t|
  {
    t[LineEnd(t) + EndWidth(t[LineEnd(t)..])..]
  }

  function Prepend(line: Text, tail: Split): Split {
    tail.(lines := [line] + tail.lines)
  }

  // A line ends at LF, at CR LF, or at CR; a final CR may still be followed by its LF.
  function SplitLines(t: Text): Split
    decreases |t|
  {
    var n := LineEnd(t);
    if n == |t| then Split([], t, false)
    else if t[n..] == [CR] then Split([], t[..n], true)
    else Prepend(t[..n], SplitLines(NextLine(t)))
  }

  // ---------------------------------------------------------------- fields (section 9.2.6)

  datatype Frame = Frame(eventType: Text, data: Text)

  // The event that is being read
  datatype Pending = Pending(data: seq<Text>, eventType: Text, bytes: nat)

  const NO_EVENT := Pending([], [], 0)

  datatype Failure = EventTooLarge | JsonInvalid

  function IndexOf(t: Text, c: CodePoint): (n: nat)
    ensures n <= |t| && (forall i :: 0 <= i < n ==> t[i] != c) && (n < |t| ==> t[n] == c)
  {
    if t == [] || t[0] == c then 0 else IndexOf(t[1..], c) + 1
  }

  function LineField(line: Text): Text {
    line[..IndexOf(line, COLON)]
  }

  // The value after the colon, without one leading space; empty when there is no colon
  function LineValue(line: Text): Text {
    var n := IndexOf(line, COLON);
    var value := if n < |line| then line[n + 1..] else [];
    if value != [] && value[0] == SPACE then value[1..] else value
  }

  function JoinLines(lines: seq<Text>): Text {
    if lines == [] then []
    else if |lines| == 1 then lines[0]
    else JoinLines(lines[..|lines| - 1]) + [LF] + lines[|lines| - 1]
  }

  // Adds a line that is neither blank nor a comment.
  function AddField(p: Pending, line: Text): Pending {
    if LineField(line) == Ascii("data") then p.(data := p.data + [LineValue(line)])
    else if LineField(line) == Ascii("event") then p.(eventType := LineValue(line))
    else p
  }

  function TypeOr(eventType: Text): Text {
    if eventType == [] then Ascii("message") else eventType
  }

  // ---------------------------------------------------------------- the parser

  datatype State = State(line: Text, event: Pending, pendingCR: bool)

  const START := State([], NO_EVENT, false)

  datatype Outcome = Ok(s: State, frames: seq<Frame>) | Err(failure: Failure)

  // The end of the open line
  function FinishLine(s: State, frames: seq<Frame>, json: Text -> bool): Outcome {
    var p := s.event;
    if s.line == [] then
      if p.data == [] then Ok(s.(event := NO_EVENT), frames)
      else if json(JoinLines(p.data)) then Ok(s.(event := NO_EVENT),
                                              frames + [Frame(TypeOr(p.eventType), JoinLines(p.data))])
      else Err(JsonInvalid)
    else if s.line[0] == COLON then Ok(s.(line := []), frames)
    else Ok(s.(line := [], event := AddField(p, s.line)), frames)
  }

  function ReadChar(s: State, frames: seq<Frame>, c: CodePoint, json: Text -> bool, max: nat): Outcome {
    if c == CR then Ok(s.(pendingCR := true), frames)
    else if c == LF then FinishLine(s, frames, json)
    else
      var bytes := s.event.bytes + Utf8Size(c);
      if bytes > max then Err(EventTooLarge)
      else Ok(s.(line := s.line + [c], event := s.event.(bytes := bytes)), frames)
  }

  function Step(s: State, frames: seq<Frame>, c: CodePoint, json: Text -> bool, max: nat): Outcome {
    if s.pendingCR then
      match FinishLine(s.(pendingCR := false), frames, json)
      case Err(e) => Err(e)
      case Ok(s', frames') => if c == LF then Ok(s', frames') else ReadChar(s', frames', c, json, max)
    else ReadChar(s, frames, c, json, max)
  }

  function Run(o: Outcome, t: Text, json: Text -> bool, max: nat): Outcome {
    if t == [] then o
    else
      match Run(o, t[..|t| - 1], json, max)
      case Err(e) => Err(e)
      case Ok(s, frames) => Step(s, frames, t[|t| - 1], json, max)
  }

  /** Chunk independence: only the concatenation of what is fed matters. */
  lemma {:induction false} RunConcat(o: Outcome, a: Text, b: Text, json: Text -> bool, max: nat)
    ensures Run(o, a + b, json, max) == Run(Run(o, a, json, max), b, json, max)
  {
    if b == [] {
      assert a + b == a;
    } else {
      RunConcat(o, a, b[..|b| - 1], json, max);
      assert (a + b)[..|a + b| - 1] == a + b[..|b| - 1];
    }
  }

  lemma RunOne(s: State, frames: seq<Frame>, c: CodePoint, json: Text -> bool, max: nat)
    ensures Run(Ok(s, frames), [c], json, max) == Step(s, frames, c, json, max)
  {
    assert [c][..0] == [];
  }

  lemma {:induction false} RunErr(e: Failure, t: Text, json: Text -> bool, max: nat)
    ensures Run(Err(e), t, json, max) == Err(e)
  {
    if t != [] {
      RunErr(e, t[..|t| - 1], json, max);
    }
  }

  // ---------------------------------------------------------------- the meaning of lines

  // One complete line
  function ReadLine(p: Pending, frames: seq<Frame>, line: Text, json: Text -> bool, max: nat): Outcome {
    var bytes := p.bytes + TextBytes(line);
    if bytes > max then Err(EventTooLarge)
    else FinishLine(State(line, p.(bytes := bytes), false), frames, json)
  }

  function ReadLines(p: Pending, frames: seq<Frame>, lines: seq<Text>, json: Text -> bool, max: nat): Outcome
    decreases |lines|
  {
    if lines == [] then Ok(State([], p, false), frames)
    else
      match ReadLine(p, frames, lines[0], json, max)
      case Err(e) => Err(e)
      case Ok(s, frames') => ReadLines(s.event, frames', lines[1..], json, max)
  }

  // The open line
  function Open(p: Pending, frames: seq<Frame>, t: Text, held: bool, max: nat): Outcome {
    var bytes := p.bytes + TextBytes(t);
    if bytes > max then Err(EventTooLarge) else Ok(State(t, p.(bytes := bytes), held), frames)
  }

  // Complete lines, and the open one
  function Interpret(p: Pending, frames: seq<Frame>, t: Split, json: Text -> bool, max: nat): Outcome {
    match ReadLines(p, frames, t.lines, json, max)
    case Err(e) => Err(e)
    case Ok(s, frames') => Open(s.event, frames', t.rest, t.held, max)
  }

  lemma {:induction false} ReadOpen(p: Pending, frames: seq<Frame>, t: Text, json: Text -> bool, max: nat)
    requires OneLine(t) && p.bytes <= max
    ensures Run(Ok(State([], p, false), frames), t, json, max)
            == Open(p, frames, t, false, max)
  {
    hide FinishLine;
    if t != [] {
      ReadOpen(p, frames, t[..|t| - 1], json, max);
    }
  }

  lemma FinishKeeps(s: State, frames: seq<Frame>, json: Text -> bool)
    ensures var o := FinishLine(s, frames, json);
            o.Ok? ==> o.s.line == [] && o.s.pendingCR == s.pendingCR && o.s.event.bytes <= s.event.bytes
  {
  }

  // A line that ends, and the text behind it
  function Ended(o: Outcome, t: Text, json: Text -> bool, max: nat): Outcome {
    match o
    case Err(e) => Err(e)
    case Ok(s, frames) => Run(Ok(s, frames), t, json, max)
  }

  lemma RunEnded(o: Outcome, t: Text, json: Text -> bool, max: nat)
    ensures Run(o, t, json, max) == Ended(o, t, json, max)
  {
    if o.Err? {
      RunErr(o.failure, t, json, max);
    }
  }

  lemma StepLF(s: State, frames: seq<Frame>, json: Text -> bool, max: nat)
    requires !s.pendingCR
    ensures Step(s, frames, LF, json, max) == FinishLine(s, frames, json)
    ensures Step(s, frames, CR, json, max) == Ok(s.(pendingCR := true), frames)
  {
  }

  lemma StepHeld(s: State, frames: seq<Frame>, c: CodePoint, json: Text -> bool, max: nat)
    requires !s.pendingCR
    ensures Step(s.(pendingCR := true), frames, c, json, max)
            == match FinishLine(s, frames, json)
               case Err(e) => Err(e)
               case Ok(s', frames') => if c == LF then Ok(s', frames') else Step(s', frames', c, json, max)
  {
    FinishKeeps(s, frames, json);
    assert s.(pendingCR := true).(pendingCR := false) == s;
  }

  lemma RunCons(s: State, frames: seq<Frame>, t: Text, json: Text -> bool, max: nat)
    requires t != []
    ensures Run(Ok(s, frames), t, json, max) == Ended(Step(s, frames, t[0], json, max), t[1..], json, max)
  {
    assert t == [t[0]] + t[1..];
    RunConcat(Ok(s, frames), [t[0]], t[1..], json, max);
    RunOne(s, frames, t[0], json, max);
    RunEnded(Step(s, frames, t[0], json, max), t[1..], json, max);
  }

  // A line end that is complete finishes the line.
  lemma ReadEnd(s: State, frames: seq<Frame>, t: Text, json: Text -> bool, max: nat)
    requires t != [] && EndsLine(t[0]) && t != [CR] && !s.pendingCR
    ensures Run(Ok(s, frames), t, json, max) == Ended(FinishLine(s, frames, json), t[EndWidth(t)..], json, max)
  {
    hide FinishLine, Step, Run;
    RunCons(s, frames, t, json, max);
    StepLF(s, frames, json, max);
    if t[0] == CR {
      var o := FinishLine(s, frames, json);
      RunCons(s.(pendingCR := true), frames, t[1..], json, max);
      StepHeld(s, frames, t[1], json, max);
      if t[1] == LF {
        assert t[1..][1..] == t[2..];
      } else if o.Ok? {
        RunCons(o.s, o.frames, t[1..], json, max);
      }
    }
  }

  lemma ReadUpTo(p: Pending, frames: seq<Frame>, t: Text, n: nat, json: Text -> bool, max: nat)
    requires p.bytes <= max && n <= |t| && OneLine(t[..n])
    ensures Run(Ok(State([], p, false), frames), t, json, max)
            == Ended(Open(p, frames, t[..n], false, max), t[n..], json, max)
  {
    hide Step, Open;
    assert t == t[..n] + t[n..];
    RunConcat(Ok(State([], p, false), frames), t[..n], t[n..], json, max);
    ReadOpen(p, frames, t[..n], json, max);
    RunEnded(Open(p, frames, t[..n], false, max), t[n..], json, max);
  }

  // An open line and what ends it
  lemma ReadEnded(p: Pending, frames: seq<Frame>, t: Text, n: nat, json: Text -> bool, max: nat)
    requires p.bytes <= max && n == LineEnd(t) < |t| && t[n..] != [CR]
    ensures Run(Ok(State([], p, false), frames), t, json, max)
            == Ended(ReadLine(p, frames, t[..n], json, max), NextLine(t), json, max)
  {
    hide FinishLine, Run, Step;
    ReadUpTo(p, frames, t, n, json, max);
    ReadEnd(State(t[..n], p.(bytes := p.bytes + TextBytes(t[..n])), false), frames, t[n..], json, max);
    assert t[n..][EndWidth(t[n..])..] == t[n + EndWidth(t[n..])..];
  }

  lemma SplitOpen(p: Pending, frames: seq<Frame>, t: Text, json: Text -> bool, max: nat)
    requires p.bytes <= max && LineEnd(t) == |t|
    ensures Run(Ok(State([], p, false), frames), t, json, max) == Interpret(p, frames, SplitLines(t), json, max)
  {
    hide Run, LineEnd;
    assert t[..|t|] == t;
    ReadOpen(p, frames, t, json, max);
  }

  lemma SplitHeld(p: Pending, frames: seq<Frame>, t: Text, n: nat, json: Text -> bool, max: nat)
    requires p.bytes <= max && n == LineEnd(t) < |t| && t[n..] == [CR]
    ensures Run(Ok(State([], p, false), frames), t, json, max) == Interpret(p, frames, SplitLines(t), json, max)
  {
    hide Run, Step, LineEnd;
    ReadUpTo(p, frames, t, n, json, max);
    var s := State(t[..n], p.(bytes := p.bytes + TextBytes(t[..n])), false);
    RunOne(s, frames, CR, json, max);
    StepLF(s, frames, json, max);
  }

  /**
   * The parser reads exactly the lines of the standard: whatever mix of CR, LF and CR LF ends
   * them, the characters one by one give what the lines one by one give.
   */
  lemma {:induction false} LinesRead(p: Pending, frames: seq<Frame>, t: Text, json: Text -> bool, max: nat)
    requires p.bytes <= max
    ensures Run(Ok(State([], p, false), frames), t, json, max) == Interpret(p, frames, SplitLines(t), json, max)
    decreases |t|
  {
    hide FinishLine, ReadLine, Run, Step, NextLine, SplitLines, Interpret;
    var n := LineEnd(t);
    if n == |t| {
      SplitOpen(p, frames, t, json, max);
    } else if t[n..] == [CR] {
      SplitHeld(p, frames, t, n, json, max);
    } else {
      ReadEnded(p, frames, t, n, json, max);
      SplitStep(t, n);
      var o := ReadLine(p, frames, t[..n], json, max);
      if o.Ok? {
        ReadLineKeeps(p, frames, t[..n], json, max);
        LinesRead(o.s.event, o.frames, NextLine(t), json, max);
      }
      InterpretStep(p, frames, t[..n], SplitLines(NextLine(t)), json, max);
    }
  }

  lemma ReadLineKeeps(p: Pending, frames: seq<Frame>, line: Text, json: Text -> bool, max: nat)
    ensures var o := ReadLine(p, frames, line, json, max);
            o.Ok? ==> o.s.line == [] && !o.s.pendingCR && o.s.event.bytes <= max
  {
    FinishKeeps(State(line, p.(bytes := p.bytes + TextBytes(line)), false), frames, json);
  }

  lemma SplitStep(t: Text, n: nat)
    requires n == LineEnd(t) < |t| && t[n..] != [CR]
    ensures SplitLines(t) == Prepend(t[..n], SplitLines(NextLine(t)))
  {
    hide NextLine, Prepend, LineEnd;
  }

  lemma InterpretStep(p: Pending, frames: seq<Frame>, line: Text, tail: Split, json: Text -> bool, max: nat)
    ensures Interpret(p, frames, Prepend(line, tail), json, max)
            == match ReadLine(p, frames, line, json, max)
               case Err(e) => Err(e)
               case Ok(s, frames') => Interpret(s.event, frames', tail, json, max)
  {
    hide ReadLine, Open;
    assert ([line] + tail.lines)[1..] == tail.lines;
  }
}
