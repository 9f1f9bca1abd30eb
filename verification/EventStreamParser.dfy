/** The browser's event-stream parser, and the round trip with what the server prints. */
module EventStreamParser {
  import opened Wrappers
  import opened JsonText
  import opened JsonSyntax
  import opened Replica
  import opened DraftLedger
  import opened EventStreamText

  // ---------------------------------------------------------------- the parser

  datatype FeedResult = Frames(frames: seq<Frame>) | Failed(failure: Failure)

  class SSEParser {
    const maxEventBytes: nat
    const json: Text -> bool  // whether a text parses as JSON
    var line: Text
    var data: seq<Text>
    var eventType: Text
    var eventBytes: nat
    var pendingCR: bool

    function Current(): State
      reads this
    {
      State(line, Pending(data, eventType, eventBytes), pendingCR)
    }

    // What the characters read since `before` have led to; a raise is an error value, after which
    // the parser is not used again.
    ghost predicate Reached(o: Outcome, frames: seq<Frame>, failure: Option<Failure>)
      reads this
    {
      if failure.None? then o == Ok(Current(), frames) else o == Err(failure.value)
    }

    constructor (maxEventBytes: nat, json: Text -> bool)
      ensures Current() == START && this.maxEventBytes == maxEventBytes && this.json == json
    {
      this.maxEventBytes, this.json := maxEventBytes, json;
      line, data, eventType, eventBytes, pendingCR := [], [], [], 0, false;
    }

    method FinishLine(frames: seq<Frame>) returns (failure: Option<Failure>, frames': seq<Frame>)
      modifies `line, `data, `eventType, `eventBytes
      ensures Reached(EventStreamText.FinishLine(old(Current()), frames, json), frames', failure)
    {
      failure, frames' := None, frames;
      if line == [] {
        if data != [] {
          if !json(JoinLines(data)) {
            return Some(JsonInvalid), frames;
          }
          frames' := frames + [Frame(if eventType == [] then Ascii("message") else eventType, JoinLines(data))];
        }
        data, eventType, eventBytes := [], [], 0;
        return;
      }
      if line[0] != COLON {
        var separator := IndexOf(line, COLON);
        var field := line[..separator];
        var value := if separator < |line| then line[separator + 1..] else [];
        if value != [] && value[0] == SPACE {
          value := value[1..];
        }
        if field == Ascii("data") {
          data := data + [value];
        } else if field == Ascii("event") {
          eventType := value;
        }
      }
      line := [];
    }

    method ReadChar(c: CodePoint, frames: seq<Frame>) returns (failure: Option<Failure>, frames': seq<Frame>)
      requires !pendingCR
      modifies this
      ensures Reached(EventStreamText.ReadChar(old(Current()), frames, c, json, maxEventBytes), frames', failure)
    {
      failure, frames' := None, frames;
      if c == CR {
        pendingCR := true;
      } else if c == LF {
        failure, frames' := FinishLine(frames);
      } else {
        line := line + [c];
        eventBytes := eventBytes + Utf8Size(c);
        if eventBytes > maxEventBytes {
          failure := Some(EventTooLarge);
        }
      }
    }

    method Feed(text: Text) returns (r: FeedResult)
      modifies this
      ensures match Run(Ok(old(Current()), []), text, json, maxEventBytes)
              case Err(e) => r == Failed(e)
              case Ok(s, frames) => r == Frames(frames) && Current() == s
    {
      ghost var s0 := Current();
      var frames: seq<Frame> := [];
      var failure: Option<Failure>;
      for i := 0 to |text|
        invariant Run(Ok(s0, []), text[..i], json, maxEventBytes) == Ok(Current(), frames)
      {
        RunNext(s0, text, i, json, maxEventBytes);
        ghost var o := Run(Ok(s0, []), text[..i + 1], json, maxEventBytes);
        var skip := false;
        if pendingCR {
          pendingCR := false;
          failure, frames := FinishLine(frames);
          if failure.Some? {
            RunFails(s0, text, i + 1, failure.value, json, maxEventBytes);
            return Failed(failure.value);
          }
          skip := text[i] == LF;
        }
        if !skip {
          failure, frames := ReadChar(text[i], frames);
          if failure.Some? {
            RunFails(s0, text, i + 1, failure.value, json, maxEventBytes);
            return Failed(failure.value);
          }
        }
      }
      assert text[..|text|] == text;
      r := Frames(frames);
    }
  }

  lemma RunNext(s0: State, t: Text, i: nat, json: Text -> bool, max: nat)
    requires i < |t| && Run(Ok(s0, []), t[..i], json, max).Ok?
    ensures var o := Run(Ok(s0, []), t[..i], json, max);
            Run(Ok(s0, []), t[..i + 1], json, max) == Step(o.s, o.frames, t[i], json, max)
  {
    assert t[..i + 1][..i] == t[..i];
  }

  lemma RunFails(s0: State, t: Text, i: nat, e: Failure, json: Text -> bool, max: nat)
    requires i <= |t| && Run(Ok(s0, []), t[..i], json, max) == Err(e)
    ensures Run(Ok(s0, []), t, json, max) == Err(e)
  {
    assert t == t[..i] + t[i..];
    RunConcat(Ok(s0, []), t[..i], t[i..], json, max);
    RunErr(e, t[i..], json, max);
  }

  // ---------------------------------------------------------------- feeds

  // Frames that were returned before do not matter.
  lemma {:induction false} FramesShift(s: State, frames: seq<Frame>, t: Text, json: Text -> bool, max: nat)
    ensures Run(Ok(s, frames), t, json, max)
            == match Run(Ok(s, []), t, json, max)
               case Err(e) => Err(e)
               case Ok(s', frames') => Ok(s', frames + frames')
  {
    hide Step;
    if t != [] {
      FramesShift(s, frames, t[..|t| - 1], json, max);
      var o := Run(Ok(s, []), t[..|t| - 1], json, max);
      if o.Ok? {
        StepShift(o.s, frames, o.frames, t[|t| - 1], json, max);
      }
    }
  }

  lemma StepShift(s: State, frames: seq<Frame>, frames': seq<Frame>, c: CodePoint, json: Text -> bool, max: nat)
    ensures Step(s, frames + frames', c, json, max)
            == match Step(s, frames', c, json, max)
               case Err(e) => Err(e)
               case Ok(s', added) => Ok(s', frames + added)
  {
    hide ReadChar, EventStreamText.FinishLine;
    var ended := s.(pendingCR := false);
    FinishShift(ended, frames, frames', json);
    ReadShift(s, frames, frames', c, json, max);
    var o := EventStreamText.FinishLine(ended, frames', json);
    if o.Ok? {
      ReadShift(o.s, frames, o.frames, c, json, max);
    }
  }

  lemma FinishShift(s: State, frames: seq<Frame>, frames': seq<Frame>, json: Text -> bool)
    ensures EventStreamText.FinishLine(s, frames + frames', json)
            == match EventStreamText.FinishLine(s, frames', json)
               case Err(e) => Err(e)
               case Ok(s', added) => Ok(s', frames + added)
  {
    forall f: Frame
      ensures frames + frames' + [f] == frames + (frames' + [f])
    {
    }
  }

  lemma ReadShift(s: State, frames: seq<Frame>, frames': seq<Frame>, c: CodePoint, json: Text -> bool, max: nat)
    ensures ReadChar(s, frames + frames', c, json, max)
            == match ReadChar(s, frames', c, json, max)
               case Err(e) => Err(e)
               case Ok(s', added) => Ok(s', frames + added)
  {
    FinishShift(s, frames, frames', json);
  }

  /** Reads a stream that arrives in chunks, however it is cut, as the standard reads its whole text. */
  method ReadStream(chunks: seq<Text>, maxEventBytes: nat, json: Text -> bool) returns (r: FeedResult)
    ensures match Interpret(NO_EVENT, [], SplitLines(Concat(chunks)), json, maxEventBytes)
            case Err(e) => r == Failed(e)
            case Ok(_, frames) => r == Frames(frames)
  {
    hide Run, Interpret, SplitLines;
    LinesRead(NO_EVENT, [], Concat(chunks), json, maxEventBytes);
    var parser := new SSEParser(maxEventBytes, json);
    var frames: seq<Frame> := [];
    StartStream(json, maxEventBytes, chunks);
    for i := 0 to |chunks|
      invariant fresh(parser) && parser.json == json && parser.maxEventBytes == maxEventBytes
      invariant Run(Ok(START, []), Concat(chunks[..i]), json, maxEventBytes) == Ok(parser.Current(), frames)
    {
      assert chunks[..i + 1] == chunks[..i] + [chunks[i]];
      ConcatSnoc(chunks[..i], chunks[i]);
      RunConcat(Ok(START, []), Concat(chunks[..i]), chunks[i], json, maxEventBytes);
      FramesShift(parser.Current(), frames, chunks[i], json, maxEventBytes);
      var fed := parser.Feed(chunks[i]);
      if fed.Failed? {
        StreamFails(chunks, i + 1, fed.failure, json, maxEventBytes);
        return fed;
      }
      frames := frames + fed.frames;
    }
    assert chunks[..|chunks|] == chunks;
    r := Frames(frames);
  }

  lemma StartStream(json: Text -> bool, max: nat, chunks: seq<Text>)
    ensures Run(Ok(START, []), Concat(chunks[..0]), json, max) == Ok(START, [])
  {
  }

  lemma {:induction false} StreamFails(chunks: seq<Text>, i: nat, e: Failure, json: Text -> bool, max: nat)
    requires i <= |chunks| && Run(Ok(START, []), Concat(chunks[..i]), json, max) == Err(e)
    ensures Run(Ok(START, []), Concat(chunks), json, max) == Err(e)
    decreases |chunks|
  {
    if i == |chunks| {
      assert chunks[..i] == chunks;
    } else {
      var init := chunks[..|chunks| - 1];
      assert init[..i] == chunks[..i];
      StreamFails(init, i, e, json, max);
      RunConcat(Ok(START, []), Concat(init), chunks[|chunks| - 1], json, max);
      RunErr(e, chunks[|chunks| - 1], json, max);
    }
  }

  // ---------------------------------------------------------------- printing lines

  datatype Ending = EndCR | EndLF | EndCRLF

  function EndText(e: Ending): Text {
    match e
    case EndCR => [CR]
    case EndLF => [LF]
    case EndCRLF => [CR, LF]
  }

  function Lay(lines: seq<Text>, ends: seq<Ending>): Text
    requires |lines| == |ends|
    decreases |lines|
  {
    if lines == [] then [] else lines[0] + (EndText(ends[0]) + Lay(lines[1..], ends[1..]))
  }

  // A bare CR is not at the end of the text, and not in front of the LF of a blank line.
  predicate Separable(lines: seq<Text>, ends: seq<Ending>)
    requires |lines| == |ends|
  {
    forall i :: 0 <= i < |ends| && ends[i].EndCR? ==> i + 1 < |ends| && (lines[i + 1] == [] ==> !ends[i + 1].EndLF?)
  }

  lemma {:induction false} LineEndAt(line: Text, rest: Text)
    requires OneLine(line) && rest != [] && EndsLine(rest[0])
    ensures LineEnd(line + rest) == |line|
  {
    if line == [] {
      assert line + rest == rest;
    } else {
      assert (line + rest)[1..] == line[1..] + rest;
      LineEndAt(line[1..], rest);
    }
  }

  // How a laid-out text starts
  lemma LayStart(lines: seq<Text>, ends: seq<Ending>)
    requires |lines| == |ends| && lines != [] && forall i :: 0 <= i < |lines| ==> OneLine(lines[i])
    ensures Lay(lines, ends) != []
    ensures Lay(lines, ends)[0] == LF ==> lines[0] == [] && ends[0].EndLF?
  {
  }

  /** Lines come back from any mix of line ends. */
  lemma {:induction false} SplitLaid(lines: seq<Text>, ends: seq<Ending>)
    requires |lines| == |ends| && Separable(lines, ends) && forall i :: 0 <= i < |lines| ==> OneLine(lines[i])
    ensures SplitLines(Lay(lines, ends)) == Split(lines, [], false)
    decreases |lines|
  {
    hide SplitLines, LineEnd;
    if lines == [] {
      SplitNothing();
    } else {
      var rest := Lay(lines[1..], ends[1..]);
      var tail := EndText(ends[0]) + rest;
      SplitLaid(lines[1..], ends[1..]);
      if |lines| > 1 {
        LayStart(lines[1..], ends[1..]);
      }
      LineEndAt(lines[0], tail);
      assert (lines[0] + tail)[|lines[0]|..] == tail;
      assert tail[|EndText(ends[0])|..] == rest;
      SplitStep(lines[0] + tail, |lines[0]|);
      assert (lines[0] + tail)[..|lines[0]|] == lines[0];
      NextLaid(lines[0], ends[0], rest);
      assert [lines[0]] + lines[1..] == lines;
    }
  }

  lemma SplitNothing()
    ensures SplitLines([]) == Split([], [], false)
  {
  }

  lemma NextLaid(line: Text, end: Ending, rest: Text)
    requires OneLine(line) && (end.EndCR? ==> rest != [] && rest[0] != LF)
    ensures LineEnd(line + (EndText(end) + rest)) < |line + (EndText(end) + rest)|
    ensures NextLine(line + (EndText(end) + rest)) == rest
    ensures (line + (EndText(end) + rest))[|line|..] != [CR]
  {
    hide LineEnd, EndText, EndWidth;
    var tail := EndText(end) + rest;
    var t := line + tail;
    EndOf(end, rest);
    LineEndAt(line, tail);
    assert t[|line|..] == tail;
    assert t[|line| + EndWidth(tail)..] == tail[EndWidth(tail)..];
  }

  // How a line that is laid out ends
  lemma EndOf(end: Ending, rest: Text)
    requires end.EndCR? ==> rest != [] && rest[0] != LF
    ensures var tail := EndText(end) + rest;
            tail != [] && EndsLine(tail[0]) && tail[EndWidth(tail)..] == rest && tail != [CR]
  {
  }
}
