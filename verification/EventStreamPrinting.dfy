/** Printing events as an event stream, and the round trip through the parser. */
module EventStreamPrinting {
  import opened Wrappers
  import opened JsonText
  import opened JsonSyntax
  import opened Replica
  import opened DraftLedger
  import opened EventStreamText
  import opened EventStreamParser

  // Comments and other fields, an event type, and the lines of the data
  datatype Block = Block(others: seq<Text>, eventType: Option<Text>, data: seq<Text>)

  function Labelled(name: string, value: Text): Text
    requires forall i :: 0 <= i < |name| ==> name[i] as int < 0x80
  {
    Ascii(name) + ([COLON, SPACE] + value)
  }

  function DataLines(data: seq<Text>): seq<Text> {
    seq(|data|, i requires 0 <= i < |data| => Labelled("data", data[i]))
  }

  function TypeLines(eventType: Option<Text>): seq<Text> {
    if eventType.Some? then [Labelled("event", eventType.value)] else []
  }

  function FieldLines(b: Block): seq<Text> {
    b.others + TypeLines(b.eventType) + DataLines(b.data)
  }

  function BlockLines(b: Block): seq<Text> {
    FieldLines(b) + [[]]
  }

  function AllLines(blocks: seq<Block>): seq<Text> {
    if blocks == [] then [] else AllLines(blocks[..|blocks| - 1]) + BlockLines(blocks[|blocks| - 1])
  }

  // A line that adds nothing to an event
  predicate Other(line: Text) {
    line != [] && (line[0] == COLON || (LineField(line) != Ascii("data") && LineField(line) != Ascii("event")))
  }

  predicate Printable(b: Block) {
    forall i :: 0 <= i < |b.others| ==> Other(b.others[i])
  }

  /** What a reader gets of a block: its type, "message" when it has none, and its data, one line after the other. */
  function BlockFrames(b: Block): seq<Frame> {
    if b.data == [] then []
    else if b.eventType.None? || b.eventType.value == [] then [Frame(Ascii("message"), JoinLines(b.data))]
    else [Frame(b.eventType.value, JoinLines(b.data))]
  }

  // What is wrong with a block, after all of its lines
  ghost function BlockFault(b: Block, json: Text -> bool, max: nat): Option<Failure> {
    if LinesBytes(FieldLines(b)) > max then Some(EventTooLarge)
    else if b.data != [] && !json(JoinLines(b.data)) then Some(JsonInvalid)
    else None
  }

  // The fault of the first block that has one
  ghost function FirstFault(blocks: seq<Block>, json: Text -> bool, max: nat): Option<Failure> {
    if blocks == [] then None
    else
      match FirstFault(blocks[..|blocks| - 1], json, max)
      case Some(e) => Some(e)
      case None => BlockFault(blocks[|blocks| - 1], json, max)
  }

  /** A list has no fault exactly when each block fits and holds JSON; otherwise it has that of its first bad one. */
  lemma {:induction false} FaultExact(blocks: seq<Block>, json: Text -> bool, max: nat)
    ensures FirstFault(blocks, json, max).None? <==>
              forall i :: 0 <= i < |blocks| ==> BlockFault(blocks[i], json, max).None?
    ensures FirstFault(blocks, json, max).Some? ==>
              exists i :: 0 <= i < |blocks| && BlockFault(blocks[i], json, max) == FirstFault(blocks, json, max)
                          && forall k :: 0 <= k < i ==> BlockFault(blocks[k], json, max).None?
  {
    hide BlockFault;
    if blocks != [] {
      var init := blocks[..|blocks| - 1];
      FaultExact(init, json, max);
      if FirstFault(init, json, max).Some? {
        var i :| 0 <= i < |init| && BlockFault(init[i], json, max) == FirstFault(init, json, max)
                 && forall k :: 0 <= k < i ==> BlockFault(init[k], json, max).None?;
        assert forall k :: 0 <= k <= i ==> blocks[k] == init[k];
      } else {
        assert forall k :: 0 <= k < |init| ==> blocks[k] == init[k];
      }
    }
  }

  function AllFrames(blocks: seq<Block>): seq<Frame> {
    if blocks == [] then [] else AllFrames(blocks[..|blocks| - 1]) + BlockFrames(blocks[|blocks| - 1])
  }

  // ---------------------------------------------------------------- fields

  lemma {:induction false} IndexAt(a: Text, b: Text)
    requires forall i :: 0 <= i < |a| ==> a[i] != COLON
    ensures IndexOf(a + ([COLON] + b), COLON) == |a|
  {
    if a == [] {
      assert a + ([COLON] + b) == [COLON] + b;
    } else {
      assert (a + ([COLON] + b))[1..] == a[1..] + ([COLON] + b);
      IndexAt(a[1..], b);
    }
  }

  lemma LabelledField(name: string, value: Text)
    requires name != [] && forall i :: 0 <= i < |name| ==> name[i] as int < 0x80 && name[i] as int != COLON
    ensures var line := Labelled(name, value);
            line != [] && line[0] != COLON && LineField(line) == Ascii(name) && LineValue(line) == value
  {
    var line := Labelled(name, value);
    assert [COLON, SPACE] + value == [COLON] + ([SPACE] + value);
    IndexAt(Ascii(name), [SPACE] + value);
    assert line[|name| + 1..] == [SPACE] + value;
    assert line[..|name|] == Ascii(name);
  }

  /** The field of a line is what stands before its first colon, the value what follows, without one space. */
  lemma FieldExact(name: Text, value: Text)
    requires name != [] && forall i :: 0 <= i < |name| ==> name[i] != 0x3A
    ensures LineField(name + ([0x3A, 0x20] + value)) == name && LineValue(name + ([0x3A, 0x20] + value)) == value
    ensures value == [] || value[0] != 0x20 ==>
              LineField(name + ([0x3A] + value)) == name && LineValue(name + ([0x3A] + value)) == value
    ensures LineField(name) == name && LineValue(name) == []
  {
    IndexAt(name, value);
    IndexAt(name, [SPACE] + value);
    assert [COLON, SPACE] + value == [COLON] + ([SPACE] + value);
    assert (name + ([COLON] + value))[|name| + 1..] == value && (name + ([COLON] + value))[..|name|] == name;
    assert (name + ([COLON, SPACE] + value))[|name| + 1..] == [SPACE] + value;
    assert (name + ([COLON, SPACE] + value))[..|name|] == name;
    assert IndexOf(name, COLON) == |name|;
  }

  // What a line that is not blank does to the event
  function AddLine(p: Pending, line: Text): Pending
    requires line != []
  {
    if line[0] == COLON then p else AddField(p, line)
  }

  function AddLines(p: Pending, lines: seq<Text>): Pending
    requires [] !in lines
  {
    if lines == [] then p else AddLine(AddLines(p, lines[..|lines| - 1]), lines[|lines| - 1])
  }

  lemma {:induction false} AddKeepsBytes(p: Pending, lines: seq<Text>)
    requires [] !in lines
    ensures AddLines(p, lines).bytes == p.bytes
  {
    if lines != [] {
      AddKeepsBytes(p, lines[..|lines| - 1]);
    }
  }

  lemma {:induction false} AddOthers(p: Pending, lines: seq<Text>)
    requires forall i :: 0 <= i < |lines| ==> Other(lines[i])
    ensures [] !in lines && AddLines(p, lines) == p
  {
    if lines != [] {
      AddOthers(p, lines[..|lines| - 1]);
    }
  }

  lemma {:induction false} AddConcat(p: Pending, a: seq<Text>, b: seq<Text>)
    requires [] !in a && [] !in b
    ensures AddLines(p, a + b) == AddLines(AddLines(p, a), b)
  {
    if b == [] {
      assert a + b == a;
    } else {
      assert (a + b)[..|a + b| - 1] == a + b[..|b| - 1];
      AddConcat(p, a, b[..|b| - 1]);
    }
  }

  lemma {:induction false} AddData(p: Pending, data: seq<Text>)
    ensures [] !in DataLines(data) && AddLines(p, DataLines(data)) == p.(data := p.data + data)
  {
    hide LineField, LineValue;
    if data == [] {
      assert p.data + data == p.data;
    } else {
      var init, last := data[..|data| - 1], data[|data| - 1];
      AddData(p, init);
      LabelledField("data", last);
      assert DataLines(data)[..|data| - 1] == DataLines(init);
      assert p.data + data == p.data + init + [last];
    }
  }

  lemma AddType(p: Pending, eventType: Option<Text>)
    ensures [] !in TypeLines(eventType)
    ensures AddLines(p, TypeLines(eventType)) == if eventType.Some? then p.(eventType := eventType.value) else p
  {
    hide LineField, LineValue;
    if eventType.Some? {
      LabelledField("event", eventType.value);
      assert Ascii("event") != Ascii("data") by { assert |Ascii("event")| == 5; }
      var lines := TypeLines(eventType);
      assert lines[..0] == [];
    }
  }

  /** The fields of a block: its type and its data, whatever else is between them. */
  lemma AddBlock(b: Block)
    requires forall i :: 0 <= i < |b.others| ==> Other(b.others[i])
    ensures [] !in FieldLines(b)
    ensures AddLines(NO_EVENT, FieldLines(b)) == Pending(b.data, b.eventType.GetOr([]), 0)
  {
    hide AddLines, Other;
    var head := b.others + TypeLines(b.eventType);
    AddOthers(NO_EVENT, b.others);
    AddType(NO_EVENT, b.eventType);
    AddConcat(NO_EVENT, b.others, TypeLines(b.eventType));
    var p := AddLines(NO_EVENT, head);
    AddData(p, b.data);
    AddConcat(NO_EVENT, head, DataLines(b.data));
    assert [] + b.data == b.data;
  }

  // ---------------------------------------------------------------- reading a block

  lemma {:induction false} ReadConcat(p: Pending, frames: seq<Frame>, a: seq<Text>, b: seq<Text>, json: Text -> bool,
                                      max: nat)
    ensures ReadLines(p, frames, a + b, json, max)
            == match ReadLines(p, frames, a, json, max)
               case Err(e) => Err(e)
               case Ok(s, frames') => ReadLines(s.event, frames', b, json, max)
    decreases |a|
  {
    hide ReadLine;
    if a == [] {
      assert a + b == b;
    } else {
      assert (a + b)[1..] == a[1..] + b;
      var o := ReadLine(p, frames, a[0], json, max);
      if o.Ok? {
        ReadConcat(o.s.event, o.frames, a[1..], b, json, max);
      }
    }
  }

  lemma ReadOne(p: Pending, frames: seq<Frame>, line: Text, json: Text -> bool, max: nat)
    ensures ReadLines(p, frames, [line], json, max)
            == match ReadLine(p, frames, line, json, max)
               case Err(e) => Err(e)
               case Ok(s, frames') => Ok(State([], s.event, false), frames')
  {
    hide ReadLine;
    assert [line][1..] == [];
  }

  // Lines of one event, within the limit or beyond it
  lemma {:induction false} ReadFields(frames: seq<Frame>, lines: seq<Text>, json: Text -> bool, max: nat)
    requires [] !in lines
    ensures ReadLines(NO_EVENT, frames, lines, json, max)
            == if LinesBytes(lines) > max then Err(EventTooLarge)
               else Ok(State([], AddLines(NO_EVENT, lines).(bytes := LinesBytes(lines)), false), frames)
  {
    hide AddField, TextBytes;
    if lines == [] {
      assert NO_EVENT.(bytes := 0) == NO_EVENT;
    } else {
      var init, line := lines[..|lines| - 1], lines[|lines| - 1];
      assert lines == init + [line];
      ReadFields(frames, init, json, max);
      ReadConcat(NO_EVENT, frames, init, [line], json, max);
      AddKeepsBytes(NO_EVENT, init);
      var p := AddLines(NO_EVENT, init);
      var q := p.(bytes := LinesBytes(init));
      if LinesBytes(init) <= max {
        ReadOne(q, frames, line, json, max);
        AddFieldBytes(p, line, LinesBytes(lines));
        assert q.(bytes := LinesBytes(lines)) == p.(bytes := LinesBytes(lines));
      }
    }
  }

  lemma AddFieldBytes(p: Pending, line: Text, bytes: nat)
    ensures AddField(p.(bytes := bytes), line) == AddField(p, line).(bytes := bytes)
  {
    hide LineField, LineValue;
  }

  lemma ReadBlank(p: Pending, frames: seq<Frame>, json: Text -> bool, max: nat)
    requires p.bytes <= max
    ensures ReadLines(p, frames, [[]], json, max)
            == if p.data != [] && !json(JoinLines(p.data)) then Err(JsonInvalid)
               else
                 Ok(START, frames + if p.data == [] then [] else [Frame(TypeOr(p.eventType), JoinLines(p.data))])
  {
    ReadOne(p, frames, [], json, max);
    assert frames + [] == frames;
  }

  lemma ReadBlock(b: Block, frames: seq<Frame>, json: Text -> bool, max: nat)
    requires Printable(b)
    ensures ReadLines(NO_EVENT, frames, BlockLines(b), json, max)
            == match BlockFault(b, json, max)
               case Some(e) => Err(e)
               case None => Ok(START, frames + BlockFrames(b))
  {
    hide ReadLines, AddLines, FieldLines, LinesBytes;
    AddBlock(b);
    ReadFields(frames, FieldLines(b), json, max);
    ReadConcat(NO_EVENT, frames, FieldLines(b), [[]], json, max);
    if LinesBytes(FieldLines(b)) <= max {
      var p := Pending(b.data, b.eventType.GetOr([]), LinesBytes(FieldLines(b)));
      ReadBlank(p, frames, json, max);
    }
  }

  predicate AllFit(blocks: seq<Block>, max: nat) {
    forall i :: 0 <= i < |blocks| ==> LinesBytes(FieldLines(blocks[i])) <= max
  }

  ghost predicate AllPrintable(blocks: seq<Block>) {
    forall i :: 0 <= i < |blocks| ==> Printable(blocks[i])
  }

  lemma {:induction false} ReadBlocks(blocks: seq<Block>, json: Text -> bool, max: nat)
    requires AllPrintable(blocks)
    ensures ReadLines(NO_EVENT, [], AllLines(blocks), json, max)
            == match FirstFault(blocks, json, max)
               case Some(e) => Err(e)
               case None => Ok(START, AllFrames(blocks))
  {
    hide ReadLines, BlockLines, FieldLines, LinesBytes, BlockFrames, Printable, BlockFault;
    if blocks == [] {
      ReadNothing(json, max);
    } else {
      var init, b := blocks[..|blocks| - 1], blocks[|blocks| - 1];
      ReadBlocks(init, json, max);
      ReadConcat(NO_EVENT, [], AllLines(init), BlockLines(b), json, max);
      ReadBlock(b, AllFrames(init), json, max);
    }
  }

  lemma ReadNothing(json: Text -> bool, max: nat)
    ensures ReadLines(NO_EVENT, [], [], json, max) == Ok(START, [])
  {
  }

  /**
   * Round trip: a list of events printed with any comments, other fields and line ends parses
   * back to that list, or fails for what is wrong with the first event that is too large or not JSON.
   */
  lemma PrintedStream(blocks: seq<Block>, ends: seq<Ending>, json: Text -> bool, max: nat)
    requires AllPrintable(blocks) && |ends| == |AllLines(blocks)| && Separable(AllLines(blocks), ends)
    requires forall i :: 0 <= i < |AllLines(blocks)| ==> OneLine(AllLines(blocks)[i])
    ensures Run(Ok(START, []), Lay(AllLines(blocks), ends), json, max)
            == match FirstFault(blocks, json, max)
               case Some(e) => Err(e)
               case None => Ok(START, AllFrames(blocks))
  {
    hide Run, ReadLines, Lay, AllLines, SplitLines;
    var t := Lay(AllLines(blocks), ends);
    LinesRead(NO_EVENT, [], t, json, max);
    SplitLaid(AllLines(blocks), ends);
    ReadBlocks(blocks, json, max);
  }

  // Blocks of JSON can only be too large.
  lemma OnlySize(blocks: seq<Block>, json: Text -> bool, max: nat)
    requires forall i :: 0 <= i < |blocks| ==> blocks[i].data != [] ==> json(JoinLines(blocks[i].data))
    ensures FirstFault(blocks, json, max) == if AllFit(blocks, max) then None else Some(EventTooLarge)
  {
    hide FirstFault, JoinLines, FieldLines, LinesBytes;
    FaultExact(blocks, json, max);
  }

  // ---------------------------------------------------------------- the server's stream

  // An event of the server as text, or the comment that it sends while nothing happens
  datatype Sent = SentEvent(id: Text, eventType: Text, json: Text) | Heartbeat

  function EncodeSse(s: Sent): Text {
    match s
    case SentEvent(id, eventType, json) =>
      (Ascii("id: ") + id + [LF]) + (Ascii("event: ") + eventType + [LF]) + (Ascii("data: ") + json + [LF]) + [LF]
    case Heartbeat => Ascii(": heartbeat") + [LF] + [LF]
  }

  function EncodeAll(sent: seq<Sent>): Text {
    if sent == [] then [] else EncodeAll(sent[..|sent| - 1]) + EncodeSse(sent[|sent| - 1])
  }

  function BlockOf(s: Sent): Block {
    match s
    case SentEvent(id, eventType, json) => Block([Labelled("id", id)], Some(eventType), [json])
    case Heartbeat => Block([Ascii(": heartbeat")], None, [])
  }

  function BlocksOf(sent: seq<Sent>): seq<Block> {
    seq(|sent|, i requires 0 <= i < |sent| => BlockOf(sent[i]))
  }

  function Feeds(n: nat): (r: seq<Ending>)
    ensures |r| == n
  {
    seq(n, _ => EndLF)
  }

  lemma {:induction false} LayConcat(a: seq<Text>, b: seq<Text>)
    ensures Lay(a + b, Feeds(|a + b|)) == Lay(a, Feeds(|a|)) + Lay(b, Feeds(|b|))
    decreases |a|
  {
    assert forall n: nat :: n > 0 ==> Feeds(n)[1..] == Feeds(n - 1);
    if a == [] {
      assert a + b == b;
    } else {
      assert (a + b)[1..] == a[1..] + b;
      LayConcat(a[1..], b);
      assert Feeds(|a + b|)[1..] == Feeds(|a[1..] + b|) && Feeds(|a|)[1..] == Feeds(|a[1..]|);
      LayParts(a[0], Lay(a[1..], Feeds(|a[1..]|)), Lay(b, Feeds(|b|)));
    }
  }

  lemma LayParts(line: Text, x: Text, y: Text)
    ensures line + ([LF] + (x + y)) == line + ([LF] + x) + y
  {
  }

  lemma LayOne(line: Text)
    ensures Lay([line], Feeds(1)) == line + [LF]
  {
    assert [line][1..] == [] && Feeds(1)[1..] == [];
    assert [LF] + [] == [LF];
  }

  /** The data of an event is its lines, each but the last ended by LF. */
  lemma {:induction false} JoinedLaid(lines: seq<Text>)
    requires lines != []
    ensures JoinLines(lines) + [LF] == Lay(lines, Feeds(|lines|))
  {
    var init, last := lines[..|lines| - 1], lines[|lines| - 1];
    assert lines == init + [last];
    LayOne(last);
    if init == [] {
      assert lines == [last];
    } else {
      JoinedLaid(init);
      LayConcat(init, [last]);
    }
  }

  lemma LabelText(name: string, value: Text)
    requires forall i :: 0 <= i < |name| ==> name[i] as int < 0x80
    ensures Labelled(name, value) == Ascii(name + ": ") + value
  {
    assert Ascii(name + ": ") == Ascii(name) + [COLON, SPACE];
  }

  /** `encode_sse` prints the lines of an event, each ended by LF. */
  lemma EncodedBlock(s: Sent)
    ensures EncodeSse(s) == Lay(BlockLines(BlockOf(s)), Feeds(|BlockLines(BlockOf(s))|))
  {
    hide Lay, Ascii, Labelled;
    LayOne([]);
    match s
    case SentEvent(id, eventType, json) =>
      var a, b, c := Labelled("id", id), Labelled("event", eventType), Labelled("data", json);
      LabelText("id", id);
      LabelText("event", eventType);
      LabelText("data", json);
      assert "id" + ": " == "id: " && "event" + ": " == "event: " && "data" + ": " == "data: ";
      assert BlockLines(BlockOf(s)) == [a] + [b] + [c] + [[]];
      assert [] + [LF] == [LF];
      LayOne(a);
      LayOne(b);
      LayOne(c);
      LayConcat([a], [b]);
      LayConcat([a] + [b], [c]);
      LayConcat([a] + [b] + [c], [[]]);
    case Heartbeat =>
      var a := Ascii(": heartbeat");
      assert [] + [LF] == [LF];
      assert BlockLines(BlockOf(s)) == [a] + [[]];
      LayOne(a);
      LayConcat([a], [[]]);
  }

  lemma {:induction false} EncodedAll(sent: seq<Sent>)
    ensures EncodeAll(sent) == Lay(AllLines(BlocksOf(sent)), Feeds(|AllLines(BlocksOf(sent))|))
  {
    hide Lay, BlockLines, EncodeSse, BlockOf;
    if sent == [] {
      NothingLaid();
    } else {
      var init, s := sent[..|sent| - 1], sent[|sent| - 1];
      EncodedAll(init);
      EncodedBlock(s);
      BlocksSnoc(sent);
      LayConcat(AllLines(BlocksOf(init)), BlockLines(BlockOf(s)));
    }
  }

  lemma NothingLaid()
    ensures Lay([], Feeds(0)) == []
  {
  }

  lemma BlocksSnoc(sent: seq<Sent>)
    requires sent != []
    ensures var n := |sent| - 1; BlocksOf(sent)[..n] == BlocksOf(sent[..n]) && BlocksOf(sent)[n] == BlockOf(sent[n])
  {
  }

  ghost predicate Sendable(s: Sent, json: Text -> bool) {
    s.SentEvent? ==> OneLine(s.id) && OneLine(s.eventType) && OneLine(s.json) && json(s.json)
  }

  function SentFrames(sent: seq<Sent>): seq<Frame> {
    if sent == [] then []
    else
      var s := sent[|sent| - 1];
      SentFrames(sent[..|sent| - 1]) + if s.SentEvent? then [Frame(TypeOr(s.eventType), s.json)] else []
  }

  lemma {:induction false} FramesOf(sent: seq<Sent>)
    ensures AllFrames(BlocksOf(sent)) == SentFrames(sent)
  {
    if sent != [] {
      BlocksSnoc(sent);
      FramesOf(sent[..|sent| - 1]);
    }
  }

  lemma {:induction false} LinesOfBlocks(blocks: seq<Block>, line: Text)
    requires line in AllLines(blocks)
    ensures exists b :: b in blocks && line in BlockLines(b)
  {
    var init, b := blocks[..|blocks| - 1], blocks[|blocks| - 1];
    if line in AllLines(init) {
      LinesOfBlocks(init, line);
    } else {
      assert b in blocks && line in BlockLines(b);
    }
  }

  lemma LabelledOneLine(name: string, value: Text)
    requires OneLine(value) && forall i :: 0 <= i < |name| ==> name[i] as int < 0x80 && !EndsLine(name[i] as int)
    ensures OneLine(Labelled(name, value))
  {
  }

  lemma SentBlock(s: Sent, json: Text -> bool)
    requires Sendable(s, json)
    ensures Printable(BlockOf(s)) && (BlockOf(s).data != [] ==> json(JoinLines(BlockOf(s).data)))
    ensures forall line :: line in BlockLines(BlockOf(s)) ==> OneLine(line)
  {
    hide Ascii, Labelled, LineField, LineValue;
    match s
    case SentEvent(id, eventType, data) =>
      LabelledField("id", id);
      IdIsOther();
      LabelledOneLine("id", id);
      LabelledOneLine("event", eventType);
      LabelledOneLine("data", data);
      assert BlockLines(BlockOf(s)) == [Labelled("id", id), Labelled("event", eventType), Labelled("data", data), []];
    case Heartbeat =>
      Comment();
      assert BlockLines(BlockOf(s)) == [Ascii(": heartbeat"), []];
  }

  lemma IdIsOther()
    ensures Ascii("id") != Ascii("data") && Ascii("id") != Ascii("event")
  {
    assert |Ascii("id")| == 2 && |Ascii("data")| == 4 && |Ascii("event")| == 5;
  }

  lemma Comment()
    ensures Other(Ascii(": heartbeat")) && OneLine(Ascii(": heartbeat"))
  {
  }

  /**
   * What the server sends is what the browser reads: events and heartbeats, printed by
   * `encode_sse`, parse to the events alone, in order, while each stays within the byte limit.
   */
  lemma ServerStream(sent: seq<Sent>, json: Text -> bool, max: nat)
    requires forall i :: 0 <= i < |sent| ==> Sendable(sent[i], json)
    ensures Run(Ok(START, []), EncodeAll(sent), json, max)
            == if AllFit(BlocksOf(sent), max) then Ok(START, SentFrames(sent)) else Err(EventTooLarge)
  {
    hide Run, Lay, BlockLines, EncodeAll, AllLines, SentFrames, AllFrames, Printable, BlockOf, AllFit;
    var blocks := BlocksOf(sent);
    forall i | 0 <= i < |blocks|
      ensures Printable(blocks[i]) && (blocks[i].data != [] ==> json(JoinLines(blocks[i].data)))
    {
      SentBlock(sent[i], json);
    }
    forall line | line in AllLines(blocks)
      ensures OneLine(line)
    {
      LinesOfBlocks(blocks, line);
      var b :| b in blocks && line in BlockLines(b);
      var i :| 0 <= i < |blocks| && blocks[i] == b;
      SentBlock(sent[i], json);
    }
    EncodedAll(sent);
    FramesOf(sent);
    PrintedStream(blocks, Feeds(|AllLines(blocks)|), json, max);
    OnlySize(blocks, json, max);
  }
}
