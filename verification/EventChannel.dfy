/** The server's event channel of one execution: its state, its log and its bounded ring. */
module EventChannel {
  import opened Wrappers
  import opened JsonText
  import opened JsonSyntax
  import opened ExecutionEvents
  import opened Replica
  import opened DraftLedger
  import opened EventLog

  // `Rejected`: the call raised and changed nothing. `Torn`: it raised after it had changed the
  // state, so the state is ahead of the log.
  datatype CallResult = Done | Rejected | Torn

  type Entry = (Event, nat)

  function TotalSize(ring: seq<Entry>): nat {
    if ring == [] then 0 else ring[0].1 + TotalSize(ring[1..])
  }

  lemma {:induction false} TotalSizeAppend(ring: seq<Entry>, e: Entry)
    ensures TotalSize(ring + [e]) == TotalSize(ring) + e.1
  {
    if ring == [] {
      assert [] + [e] == [e];
      assert [e][1..] == [];
    } else {
      TotalSizeAppend(ring[1..], e);
      assert (ring + [e])[1..] == ring[1..] + [e];
    }
  }

  lemma SingleSize(ring: seq<Entry>)
    ensures |ring| == 1 ==> TotalSize(ring) == ring[0].1
  {
    assert |ring| == 1 ==> ring[1..] == [];
  }

  // Every event was appended to the state that the earlier ones lead to.
  ghost predicate Appendings(s0: ExecutionState, log: seq<Event>) {
    log != [] ==>
      var init := log[..|log| - 1];
      Appendings(s0, init) && Appended(Fold(s0, init), log[|log| - 1])
  }

  lemma AppendStep(s0: ExecutionState, log: seq<Event>, e: Event)
    requires Appendings(s0, log) && Appended(Fold(s0, log), e)
    ensures Appendings(s0, log + [e]) && Fold(s0, log + [e]) == Apply(Fold(s0, log), e)
  {
    assert (log + [e])[..|log|] == log;
  }

  // ---------------------------------------------------------------- splitting text

  ghost predicate GoodChunks(chunks: seq<Text>, limit: nat) {
    forall i :: 0 <= i < |chunks| ==> chunks[i] != [] && TextBytes(chunks[i]) <= limit
  }

  lemma TextBytesSnoc(t: Text, c: CodePoint)
    ensures TextBytes(t + [c]) == TextBytes(t) + Utf8Size(c)
  {
    assert (t + [c])[..|t|] == t;
  }

  // The first chunk has no room for the character after it.
  predicate NoRoom(chunk: Text, next: Text, limit: nat) {
    next != [] ==> TextBytes(chunk) + Utf8Size(next[0]) > limit
  }

  ghost predicate Full(chunks: seq<Text>, limit: nat) {
    forall i :: 0 <= i < |chunks| - 1 ==> NoRoom(chunks[i], chunks[i + 1], limit)
  }

  // The full chunks and the open one after some text: a chunk is closed when the next character does not fit.
  function Greedy(text: Text, limit: nat): (seq<Text>, Text) {
    if text == [] then ([], [])
    else
      var (parts, current) := Greedy(text[..|text| - 1], limit);
      var c := text[|text| - 1];
      if current != [] && TextBytes(current) + Utf8Size(c) > limit then (parts + [current], [c])
        else (parts, current + [c])
  }

  function Cuts(text: Text, limit: nat): Option<seq<Text>> {
    if exists i :: 0 <= i < |text| && Utf8Size(text[i]) > limit then None
    else
      var (parts, current) := Greedy(text, limit);
      Some(if current == [] then parts else parts + [current])
  }

  lemma {:induction false} GreedyFull(text: Text, limit: nat)
    ensures var (parts, current) := Greedy(text, limit);
            Full(parts + [current], limit) && (parts != [] ==> current != [])
  {
    if text != [] {
      GreedyFull(text[..|text| - 1], limit);
      var (parts, current) := Greedy(text[..|text| - 1], limit);
      FullMore(parts, current, text[|text| - 1], limit);
    }
  }

  lemma FullMore(parts: seq<Text>, current: Text, c: CodePoint, limit: nat)
    requires Full(parts + [current], limit) && (parts != [] ==> current != [])
    ensures Full(parts + [current + [c]], limit)
    ensures TextBytes(current) + Utf8Size(c) > limit ==> Full(parts + [current] + [[c]], limit)
  {
    FullGrown(parts, current, c, limit);
    if TextBytes(current) + Utf8Size(c) > limit {
      FullClosed(parts + [current], [c], limit);
    }
  }

  lemma FullGrown(parts: seq<Text>, current: Text, c: CodePoint, limit: nat)
    requires Full(parts + [current], limit) && (parts != [] ==> current != [])
    ensures Full(parts + [current + [c]], limit)
  {
    hide NoRoom;
    var a, b := parts + [current], parts + [current + [c]];
    forall i | 0 <= i < |b| - 1
      ensures NoRoom(b[i], b[i + 1], limit)
    {
      assert NoRoom(a[i], a[i + 1], limit);
      SameFirst(a[i], current, c, limit);
    }
  }

  lemma SameFirst(chunk: Text, current: Text, c: CodePoint, limit: nat)
    ensures current != [] && NoRoom(chunk, current, limit) ==> NoRoom(chunk, current + [c], limit)
  {
    assert current != [] ==> (current + [c])[0] == current[0];
  }

  lemma FullClosed(chunks: seq<Text>, next: Text, limit: nat)
    requires Full(chunks, limit) && (chunks != [] ==> NoRoom(chunks[|chunks| - 1], next, limit))
    ensures Full(chunks + [next], limit)
  {
    hide NoRoom;
    var d := chunks + [next];
    forall i | 0 <= i < |d| - 1
      ensures NoRoom(d[i], d[i + 1], limit)
    {
      assert i < |chunks| - 1 ==> NoRoom(chunks[i], chunks[i + 1], limit);
    }
  }

  lemma CutsFull(text: Text, limit: nat)
    ensures Cuts(text, limit).Some? ==> Full(Cuts(text, limit).value, limit)
  {
    hide Greedy, NoRoom;
    GreedyFull(text, limit);
    var (parts, current) := Greedy(text, limit);
    FullFront(parts, current, limit);
  }

  lemma FullFront(chunks: seq<Text>, next: Text, limit: nat)
    requires Full(chunks + [next], limit)
    ensures Full(chunks, limit)
  {
    hide NoRoom;
    var d := chunks + [next];
    forall i | 0 <= i < |chunks| - 1
      ensures NoRoom(chunks[i], chunks[i + 1], limit)
    {
      assert NoRoom(d[i], d[i + 1], limit);
    }
  }

  lemma GreedySnoc(text: Text, c: CodePoint, limit: nat)
    ensures var (parts, current) := Greedy(text, limit);
            Greedy(text + [c], limit)
            == if current != [] && TextBytes(current) + Utf8Size(c) > limit then (parts + [current], [c])
              else (parts, current + [c])
  {
    assert (text + [c])[..|text|] == text;
  }

  /** Cuts a text at code-point boundaries; `None` when a single character exceeds the limit. */
  method SplitUtf8(text: Text, limit: nat) returns (r: Option<seq<Text>>)
    ensures r.Some? <==> forall i :: 0 <= i < |text| ==> Utf8Size(text[i]) <= limit
    ensures r.Some? ==> Concat(r.value) == text && GoodChunks(r.value, limit) && Full(r.value, limit)
    ensures r == Cuts(text, limit)
  {
    hide *;
    CutsFull(text, limit);
    var parts: seq<Text> := [];
    var current: Text := [];
    var currentBytes: nat := 0;
    CutStart(text, limit);
    for i := 0 to |text|
      invariant Cut(parts, current, currentBytes, text[..i], limit)
      invariant Greedy(text[..i], limit) == (parts, current)
      invariant forall j :: 0 <= j < i ==> Utf8Size(text[j]) <= limit
    {
      if Utf8Size(text[i]) > limit {
        CutNone(text, limit, i);
        return None;
      }
      assert text[..i + 1] == text[..i] + [text[i]];
      GreedySnoc(text[..i], text[i], limit);
      parts, current, currentBytes := CutChar(parts, current, currentBytes, text[..i], limit, text[i]);
    }
    assert text[..|text|] == text;
    CutEnd(parts, current, currentBytes, text, limit);
    if current != [] {
      parts := parts + [current];
    }
    r := Some(parts);
  }

  lemma CutStart(text: Text, limit: nat)
    ensures Cut([], [], 0, text[..0], limit) && Greedy(text[..0], limit) == ([], [])
  {
  }

  lemma CutNone(text: Text, limit: nat, i: nat)
    requires i < |text| && Utf8Size(text[i]) > limit
    ensures Cuts(text, limit) == None
  {
  }

  lemma CutEnd(parts: seq<Text>, current: Text, bytes: nat, text: Text, limit: nat)
    requires Cut(parts, current, bytes, text, limit) && Greedy(text, limit) == (parts, current)
    requires forall j :: 0 <= j < |text| ==> Utf8Size(text[j]) <= limit
    ensures var all := if current == [] then parts else parts + [current];
            Cuts(text, limit) == Some(all) && Concat(all) == text && GoodChunks(all, limit)
  {
    if current != [] {
      CutFlush(parts, current, bytes, text, limit);
    }
    assert Concat(parts) + [] == Concat(parts);
    assert Concat(parts + [current]) + [] == Concat(parts + [current]);
  }

  method CutChar(parts: seq<Text>, current: Text, bytes: nat, ghost done: Text, limit: nat, c: CodePoint)
    returns (parts': seq<Text>, current': Text, bytes': nat)
    requires Cut(parts, current, bytes, done, limit) && Utf8Size(c) <= limit
    ensures Cut(parts', current', bytes', done + [c], limit)
    ensures (parts', current') == if current != []
            && TextBytes(current) + Utf8Size(c) > limit then (parts + [current], [c]) else (parts, current + [c])
  {
    parts', current', bytes' := parts, current, bytes;
    if current != [] && bytes + Utf8Size(c) > limit {
      CutFlush(parts, current, bytes, done, limit);
      parts', current', bytes' := parts + [current], [], 0;
    }
    CutNext(parts', current', bytes', done, limit, c);
    current', bytes' := current' + [c], bytes' + Utf8Size(c);
  }

  // `parts` and the open chunk `current` hold the text read so far.
  ghost predicate Cut(parts: seq<Text>, current: Text, bytes: nat, done: Text, limit: nat) {
    Concat(parts) + current == done && bytes == TextBytes(current) <= limit && GoodChunks(parts, limit)
  }

  lemma CutFlush(parts: seq<Text>, current: Text, bytes: nat, done: Text, limit: nat)
    requires Cut(parts, current, bytes, done, limit) && current != []
    ensures Cut(parts + [current], [], 0, done, limit)
  {
    ConcatSnoc(parts, current);
    assert done + [] == done;
  }

  lemma CutNext(parts: seq<Text>, current: Text, bytes: nat, done: Text, limit: nat, c: CodePoint)
    requires Cut(parts, current, bytes, done, limit) && bytes + Utf8Size(c) <= limit
    ensures Cut(parts, current + [c], bytes + Utf8Size(c), done + [c], limit)
  {
    TextBytesSnoc(current, c);
    assert Concat(parts) + (current + [c]) == Concat(parts) + current + [c];
  }

  // ---------------------------------------------------------------- the channel's values

  // The `_state` dictionary; the draft is kept in the ledger.
  datatype ChannelState = ChannelState(
    status: Status, stage: Option<Stage>, completed: nat, total: Option<nat>,
    stopReason: Option<StopReason>, generation: nat)

  function View(id: Identity, n: nat, st: ChannelState, l: Ledger, d: Draft): ExecutionState {
    ExecutionState(id, n, st.generation, st.status, st.stage, st.completed, st.total, st.stopReason,
                   if l.parts == [] then None else Some(d), None)
  }

  function EventOf(id: Identity, n: nat, generation: nat, p: Payload): Event {
    Event(id.executionId, Some(id.historyId), Some(id.turnId), n, Some(generation), p)
  }

  // The channel's values are the meaning of its log.
  ghost predicate Faithful(id: Identity, n: nat, st: ChannelState, l: Ledger, d: Draft,
                           s0: ExecutionState, log: seq<Event>)
  {
    && n == |log| && s0.sequence == 0 && s0.id == id
    && Balanced(l, d)
    && Appendings(s0, log)
    && Fold(s0, log) == View(id, n, st, l, d)
  }

  lemma FaithfulNext(id: Identity, n: nat, st: ChannelState, l: Ledger, d: Draft, s0: ExecutionState,
                     log: seq<Event>, p: Payload, st': ChannelState, l': Ledger, d': Draft)
    requires Faithful(id, n, st, l, d, s0, log) && Balanced(l', d')
    requires !p.Snapshot? && !p.AuthLost? && st'.generation == NextGeneration(View(id, n, st, l, d), p)
    requires View(id, n + 1, st', l', d') == Apply(View(id, n, st, l, d), EventOf(id, n + 1, st'.generation, p))
    ensures Faithful(id, n + 1, st', l', d', s0, log + [EventOf(id, n + 1, st'.generation, p)])
  {
    AppendStep(s0, log, EventOf(id, n + 1, st'.generation, p));
  }

  lemma EmptyBalanced()
    ensures Balanced(EMPTY_LEDGER, EMPTY_DRAFT)
  {
  }

  lemma ResetNext(id: Identity, n: nat, st: ChannelState, l: Ledger, d: Draft, s0: ExecutionState, log: seq<Event>)
    requires Faithful(id, n, st, l, d, s0, log)
    ensures var st' := st.(generation := st.generation + 1);
            Faithful(id, n + 1, st', EMPTY_LEDGER, EMPTY_DRAFT, s0,
                     log + [EventOf(id, n + 1, st'.generation, DraftReset)])
  {
    EmptyBalanced();
    FaithfulNext(id, n, st, l, d, s0, log, DraftReset, st.(generation := st.generation + 1), EMPTY_LEDGER, EMPTY_DRAFT);
  }

  lemma FinishNext(id: Identity, n: nat, st: ChannelState, l: Ledger, d: Draft, s0: ExecutionState, log: seq<Event>,
                   final: Status, error: Option<PublicError>)
    requires Faithful(id, n, st, l, d, s0, log)
    ensures Faithful(id, n + 1, st.(status := final), EMPTY_LEDGER, EMPTY_DRAFT, s0,
                     log + [EventOf(id, n + 1, st.generation, Terminal(final, error))])
  {
    EmptyBalanced();
    FaithfulNext(id, n, st, l, d, s0, log, Terminal(final, error), st.(status := final), EMPTY_LEDGER, EMPTY_DRAFT);
  }

  // The ring holds the newest events of the log, within both limits.
  ghost predicate RingOk(ring: seq<Entry>, bytes: nat, log: seq<Event>, size: Event -> nat,
                         maxEvents: nat, maxBytes: nat)
  {
    && Suffix(ring, log, size)
    && |ring| <= maxEvents && bytes == TotalSize(ring) <= maxBytes
    && (log != [] ==> ring != [])
    && Longest(ring, log, size, maxEvents, maxBytes)
  }

  // With one more event the ring would exceed a limit.
  ghost predicate Longest(ring: seq<Entry>, log: seq<Event>, size: Event -> nat, maxEvents: nat, maxBytes: nat) {
    |ring| < |log| ==>
      |ring| + 1 > maxEvents || size(log[|log| - |ring| - 1]) + TotalSize(ring) > maxBytes
  }

  ghost predicate Suffix(ring: seq<Entry>, log: seq<Event>, size: Event -> nat) {
    && |ring| <= |log|
    && forall i :: 0 <= i < |ring| ==> ring[i].0 == log[|log| - |ring| + i] && ring[i].1 == size(ring[i].0)
  }

  // The size of the newest `k` events
  function SuffixSize(log: seq<Event>, size: Event -> nat, k: nat): nat
    requires k <= |log|
  {
    if k == 0 then 0 else size(log[|log| - k]) + SuffixSize(log, size, k - 1)
  }

  lemma {:induction false} RingSize(ring: seq<Entry>, log: seq<Event>, size: Event -> nat)
    requires Suffix(ring, log, size)
    ensures TotalSize(ring) == SuffixSize(log, size, |ring|)
  {
    if ring != [] {
      var rest := ring[1..];
      assert forall i :: 0 <= i < |rest| ==> rest[i] == ring[i + 1];
      RingSize(rest, log, size);
    }
  }

  lemma {:induction false} SuffixGrows(log: seq<Event>, size: Event -> nat, j: nat, k: nat)
    requires j <= k <= |log|
    ensures SuffixSize(log, size, j) <= SuffixSize(log, size, k)
  {
    if j < k {
      SuffixGrows(log, size, j, k - 1);
    }
  }

  /** The ring holds exactly as many of the newest events as both limits allow. */
  lemma RingExact(ring: seq<Entry>, bytes: nat, log: seq<Event>, size: Event -> nat, maxEvents: nat, maxBytes: nat,
                  k: nat)
    requires RingOk(ring, bytes, log, size, maxEvents, maxBytes) && k <= |log|
    ensures k <= |ring| <==> k <= maxEvents && SuffixSize(log, size, k) <= maxBytes
  {
    RingSize(ring, log, size);
    if k <= |ring| {
      SuffixGrows(log, size, k, |ring|);
    } else {
      SuffixGrows(log, size, |ring| + 1, k);
    }
  }

  // ---------------------------------------------------------------- the events of one delta

  function DeltaEvent(id: Identity, n: nat, generation: nat, f: Field, index: Option<nat>, offset: nat,
                      chunks: seq<Text>, i: nat): Event
    requires i < |chunks|
  {
    EventOf(id, n + 1 + i, generation, TextDelta(f, index, offset + |Concat(chunks[..i])|, chunks[i]))
  }

  function DeltaLog(id: Identity, n: nat, generation: nat, f: Field, index: Option<nat>, offset: nat,
                    chunks: seq<Text>): (r: seq<Event>)
    ensures |r| == |chunks|
  {
    seq(|chunks|, i requires 0 <= i < |chunks| => DeltaEvent(id, n, generation, f, index, offset, chunks, i))
  }

  lemma DeltaLogSnoc(id: Identity, n: nat, generation: nat, f: Field, index: Option<nat>, offset: nat,
                     chunks: seq<Text>, k: nat)
    requires k < |chunks|
    ensures DeltaLog(id, n, generation, f, index, offset, chunks[..k + 1])
            == DeltaLog(id, n, generation, f, index, offset, chunks[..k])
               + [DeltaEvent(id, n, generation, f, index, offset, chunks, k)]
  {
    forall i | 0 <= i < k
      ensures DeltaEvent(id, n, generation, f, index, offset, chunks[..k + 1], i)
              == DeltaEvent(id, n, generation, f, index, offset, chunks[..k], i)
    {
      assert chunks[..k + 1][..i] == chunks[..k][..i];
    }
    assert chunks[..k + 1][..k] == chunks[..k];
  }

  // One chunk on top of the draft that the earlier chunks have built
  lemma ChunkApply(s: ExecutionState, d: Draft, id: Identity, n: nat, generation: nat,
                   f: Field, index: Option<nat>, offset: nat, c: Text, d': Draft)
    requires s.id == id && s.sequence == n && s.generation == generation && s.publicError.None?
    requires CurrentDraft(s) == d && Grow(d, f, index, offset, c) == Some(d')
    ensures var e := EventOf(id, n + 1, generation, TextDelta(f, index, offset, c));
            && Appended(s, e)
            && Apply(s, e) == s.(sequence := n + 1, draft := Some(d'))
  {
  }

  // The state and the draft after the first chunks
  ghost predicate Chunked(s: ExecutionState, d: Draft, s0: ExecutionState, log: seq<Event>, k: nat, d': Draft)
  {
    && Appendings(s0, log)
    && Fold(s0, log) == (if k == 0 then s else s.(sequence := s.sequence + k, draft := Some(d')))
    && (k == 0 ==> d' == d)
  }

  ghost predicate Delivering(s: ExecutionState, d: Draft, id: Identity) {
    s.id == id && s.publicError.None? && CurrentDraft(s) == d
  }

  lemma ChunkNext(s: ExecutionState, d: Draft, s0: ExecutionState, log: seq<Event>, k: nat, di: Draft,
                  id: Identity, f: Field, index: Option<nat>, offset: nat, c: Text, d': Draft)
    requires Chunked(s, d, s0, log, k, di) && Delivering(s, d, id)
    requires Grow(di, f, index, offset, c) == Some(d')
    ensures Chunked(s, d, s0, log + [EventOf(id, s.sequence + k + 1, s.generation, TextDelta(f, index, offset, c))],
                    k + 1, d')
  {
    ChunkApply(Fold(s0, log), di, id, s.sequence + k, s.generation, f, index, offset, c, d');
    AppendStep(s0, log, EventOf(id, s.sequence + k + 1, s.generation, TextDelta(f, index, offset, c)));
  }

  lemma NoText(offset: nat, c: Text)
    ensures Concat([]) == [] && Concat([]) + c == c && offset + |Concat([])| == offset
  {
  }

  // The draft in front of the last chunk
  lemma PrefixDraft(d: Draft, f: Field, index: Option<nat>, offset: nat, init: seq<Text>, c: Text, d': Draft)
    returns (di: Draft)
    requires Grow(d, f, index, offset, Concat(init) + c) == Some(d')
    ensures if init == [] then di == d else Grow(d, f, index, offset, Concat(init)) == Some(di)
    ensures Grow(di, f, index, offset + |Concat(init)|, c) == Some(d')
  {
    hide *;
    if init == [] {
      NoText(offset, c);
      di := d;
    } else {
      GrowSplit(d, f, index, offset, Concat(init), c);
      di := Grow(d, f, index, offset, Concat(init)).value;
    }
  }

  /** The chunks of one delta, applied one event at a time, grow the draft as the whole text does. */
  lemma {:induction false} DeltaFold(s: ExecutionState, d: Draft, s0: ExecutionState, log: seq<Event>, id: Identity,
                                     f: Field, index: Option<nat>, offset: nat, chunks: seq<Text>, d': Draft)
    requires Chunked(s, d, s0, log, 0, d) && Delivering(s, d, id)
    requires if chunks == [] then d' == d else Grow(d, f, index, offset, Concat(chunks)) == Some(d')
    ensures Chunked(s, d, s0, log + DeltaLog(id, s.sequence, s.generation, f, index, offset, chunks), |chunks|, d')
    decreases |chunks|
  {
    hide *;
    if chunks == [] {
      EmptyDelta(log, id, s.sequence, s.generation, f, index, offset);
    } else {
      var k := |chunks| - 1;
      var init, c := chunks[..k], chunks[k];
      assert chunks == init + [c];
      ConcatSnoc(init, c);
      var di := PrefixDraft(d, f, index, offset, init, c, d');
      DeltaFold(s, d, s0, log, id, f, index, offset, init, di);
      DeltaStep(s, d, s0, log, id, f, index, offset, chunks, di, d');
    }
  }

  lemma EmptyDelta(log: seq<Event>, id: Identity, n: nat, generation: nat, f: Field, index: Option<nat>, offset: nat)
    ensures log + DeltaLog(id, n, generation, f, index, offset, []) == log
  {
  }

  lemma DeltaStep(s: ExecutionState, d: Draft, s0: ExecutionState, log: seq<Event>, id: Identity,
                  f: Field, index: Option<nat>, offset: nat, chunks: seq<Text>, di: Draft, d': Draft)
    requires chunks != [] && Delivering(s, d, id)
    requires var k := |chunks| - 1;
             && Chunked(s, d, s0, log + DeltaLog(id, s.sequence, s.generation, f, index, offset, chunks[..k]), k, di)
             && Grow(di, f, index, offset + |Concat(chunks[..k])|, chunks[k]) == Some(d')
    ensures Chunked(s, d, s0, log + DeltaLog(id, s.sequence, s.generation, f, index, offset, chunks), |chunks|, d')
  {
    hide *;
    var k := |chunks| - 1;
    var events := DeltaLog(id, s.sequence, s.generation, f, index, offset, chunks[..k]);
    ChunkNext(s, d, s0, log + events, k, di, id, f, index, offset + |Concat(chunks[..k])|, chunks[k], d');
    DeltaLogLast(log, id, s.sequence, s.generation, f, index, offset, chunks);
  }

  lemma DeltaLogLast(log: seq<Event>, id: Identity, n: nat, generation: nat, f: Field, index: Option<nat>, offset: nat,
                     chunks: seq<Text>)
    requires chunks != []
    ensures var k := |chunks| - 1;
            log + DeltaLog(id, n, generation, f, index, offset, chunks)
            == log + DeltaLog(id, n, generation, f, index, offset, chunks[..k])
               + [EventOf(id, n + k + 1, generation, TextDelta(f, index, offset + |Concat(chunks[..k])|, chunks[k]))]
  {
    var k := |chunks| - 1;
    assert chunks[..k + 1] == chunks;
    DeltaLogSnoc(id, n, generation, f, index, offset, chunks, k);
    ConcatEvents(log, DeltaLog(id, n, generation, f, index, offset, chunks[..k]),
                 DeltaEvent(id, n, generation, f, index, offset, chunks, k));
  }

  lemma ConcatEvents(a: seq<Event>, b: seq<Event>, e: Event)
    ensures a + (b + [e]) == a + b + [e]
  {
  }

  ghost predicate EventsFit(events: seq<Event>, size: Event -> nat, maxBytes: nat) {
    forall i :: 0 <= i < |events| ==> size(events[i]) <= maxBytes
  }

  // `events` carry the text in order, cut at code-point boundaries into events of bounded size.
  ghost predicate CarryText(events: seq<Event>, id: Identity, n: nat, generation: nat,
                            f: Field, index: Option<nat>, offset: nat, text: Text)
  {
    exists chunks ::
      Concat(chunks) == text && GoodChunks(chunks, MAX_DELTA_BYTES)
      && events == DeltaLog(id, n, generation, f, index, offset, chunks)
  }

  function StatusPayload(s: Status, reason: Option<StopReason>): Payload {
    Progress(Some(s), if s.Stopping? then reason else None, None, None, None)
  }

  function ProgressPayload(st: ChannelState): Payload {
    Progress(None, None, Some(st.stage), Some(st.completed), Some(st.total))
  }

  // A delta that is refused whatever the channel holds
  ghost predicate Malformed(f: Field, index: Option<nat>, text: Text) {
    (IsTextField(f) != index.None?) || text == [] || !ScalarText(text)
  }

  // A delta that does not continue the draft, or that makes it or its snapshot too large
  ghost predicate Overfull(d: Draft, f: Field, index: Option<nat>, offset: nat, text: Text) {
    || Grow(d, f, index, offset, text).None?
    || DraftBytes(d) + TextBytes(text) > MAX_DRAFT_BYTES
    || JsonSize(Grow(d, f, index, offset, text).value) > MAX_DRAFT_BYTES
  }

  // The event that carries the piece from `i` to `j` as the `k`-th of this delta, at most seven
  // bytes of text, does not fit the shared buffer.
  ghost predicate PieceUnfit(id: Identity, n: nat, generation: nat, f: Field, index: Option<nat>, offset: nat,
                             text: Text,
                             size: Event -> nat, maxBytes: nat, i: nat, j: nat, k: nat)
  {
    && i < j <= |text| && 1 <= k <= i + 1 && TextBytes(text[i..j]) <= 7
    && size(EventOf(id, n + k, generation, TextDelta(f, index, offset + i, text[i..j]))) > maxBytes
  }

  // The shared buffer is too tight for this delta, however small its pieces are.
  ghost predicate Cramped(id: Identity, n: nat, generation: nat, f: Field, index: Option<nat>, offset: nat, text: Text,
                          size: Event -> nat, maxBytes: nat)
  {
    maxBytes < 4
    || exists i: nat, j: nat, k: nat :: PieceUnfit(id, n, generation, f, index, offset, text, size, maxBytes, i, j, k)
  }

  // The first cut, with the limit halved as often as need be, whose events all fit
  ghost function FitFrom(id: Identity, n: nat, generation: nat, f: Field, index: Option<nat>, offset: nat, text: Text,
                         size: Event -> nat, maxBytes: nat, limit: nat): Option<seq<Text>>
    decreases limit
  {
    match Cuts(text, limit)
    case None => None
    case Some(chunks) =>
      if EventsFit(DeltaLog(id, n, generation, f, index, offset, chunks), size, maxBytes) then Some(chunks)
      else if limit > 1 then FitFrom(id, n, generation, f, index, offset, text, size, maxBytes, Half(limit))
      else None
  }

  // The events of a delta: those of the first cut that fits
  ghost function DeltaEvents(id: Identity, n: nat, generation: nat, f: Field, index: Option<nat>, offset: nat,
                             text: Text, size: Event -> nat, maxBytes: nat): Option<seq<Event>>
  {
    match FitFrom(id, n, generation, f, index, offset, text, size, maxBytes, FirstLimit(maxBytes))
    case None => None
    case Some(chunks) => Some(DeltaLog(id, n, generation, f, index, offset, chunks))
  }

  lemma {:induction false} GreedyWhole(text: Text, limit: nat)
    requires TextBytes(text) <= limit
    ensures Greedy(text, limit) == ([], text)
  {
    hide Utf8Size, Greedy, TextBytes;
    if text == [] {
      CutStart(text, limit);
    } else {
      var init, c := text[..|text| - 1], text[|text| - 1];
      assert init + [c] == text;
      TextBytesSnoc(init, c);
      GreedyWhole(init, limit);
      GreedySnoc(init, c, limit);
    }
  }

  lemma {:induction false} CharWithin(text: Text, i: nat)
    requires i < |text|
    ensures Utf8Size(text[i]) <= TextBytes(text)
  {
    if i < |text| - 1 {
      CharWithin(text[..|text| - 1], i);
    }
  }

  /** A text of at most 16 KiB whose event fits the buffer travels whole, as one event. */
  lemma SmallDelta(id: Identity, n: nat, generation: nat, f: Field, index: Option<nat>, offset: nat, text: Text,
                   size: Event -> nat, maxBytes: nat)
    requires text != [] && TextBytes(text) <= 16384 && TextBytes(text) <= maxBytes
    requires size(EventOf(id, n + 1, generation, TextDelta(f, index, offset, text))) <= maxBytes
    ensures DeltaEvents(id, n, generation, f, index, offset, text, size, maxBytes)
            == Some([EventOf(id, n + 1, generation, TextDelta(f, index, offset, text))])
  {
    hide TextBytes, Cuts, EventsFit, DeltaLog;
    CutsWhole(text, FirstLimit(maxBytes));
    OneEvent(id, n, generation, f, index, offset, text, size, maxBytes);
  }

  lemma CutsWhole(text: Text, limit: nat)
    requires text != [] && TextBytes(text) <= limit
    ensures Cuts(text, limit) == Some([text])
  {
    hide TextBytes, Greedy;
    GreedyWhole(text, limit);
    forall i | 0 <= i < |text|
      ensures Utf8Size(text[i]) <= limit
    {
      CharWithin(text, i);
    }
    assert [] + [text] == [text];
  }

  lemma OneEvent(id: Identity, n: nat, generation: nat, f: Field, index: Option<nat>, offset: nat, text: Text,
                 size: Event -> nat, maxBytes: nat)
    ensures var e := EventOf(id, n + 1, generation, TextDelta(f, index, offset, text));
            && DeltaLog(id, n, generation, f, index, offset, [text]) == [e]
            && (size(e) <= maxBytes ==>
                  EventsFit(DeltaLog(id, n, generation, f, index, offset, [text]), size, maxBytes))
  {
    NoText(offset, text);
    assert [text][..0] == [];
  }

  function Half(limit: nat): nat {
    if limit / 2 > 1 then limit / 2 else 1
  }

  function FirstLimit(maxBytes: nat): nat {
    if MAX_DELTA_BYTES < maxBytes then MAX_DELTA_BYTES else maxBytes
  }

  lemma CrampedIntro(id: Identity, n: nat, generation: nat, f: Field, index: Option<nat>, offset: nat, text: Text,
                     size: Event -> nat, maxBytes: nat)
    requires maxBytes < 4
    ensures Cramped(id, n, generation, f, index, offset, text, size, maxBytes)
  {
  }

  class ExecutionEventChannel {
    const id: Identity
    const maxEvents: nat
    const maxBytes: nat
    const size: Event -> nat  // the length of an event as compact JSON
    var sequence: nat
    var state: ChannelState
    var ledger: Ledger
    var ring: seq<Entry>
    var ringBytes: nat
    var terminal: bool
    ghost var s0: ExecutionState  // the state in front of the first event
    ghost var log: seq<Event>     // every event so far
    ghost var draft: Draft        // the draft that the ledger describes

    ghost function Current(): ExecutionState
      reads this
    {
      View(id, sequence, state, ledger, draft)
    }

    ghost predicate Valid()
      reads this
    {
      && RingValid()
      && Faithful(id, sequence, state, ledger, draft, s0, log)
      && terminal == IsTerminal(state.status)
    }

    // What the channel refuses a delta for
    ghost predicate Refuses(f: Field, index: Option<nat>, offset: nat, text: Text)
      reads this
    {
      || Malformed(f, index, text)
      || (!terminal && (Overfull(draft, f, index, offset, text)
                        || Cramped(id, sequence, state.generation, f, index, offset, text, size, maxBytes)))
    }

    ghost predicate RingValid()
      reads `ring, `ringBytes, `log
    {
      maxEvents >= 1 && maxBytes >= 1 && RingOk(ring, ringBytes, log, size, maxEvents, maxBytes)
    }

    constructor (id: Identity, status: Status, stopReason: Option<StopReason>,
                 maxEvents: nat, maxBytes: nat, size: Event -> nat)
      requires maxEvents >= 1 && maxBytes >= 1
      ensures Valid() && log == [] && this.id == id
      ensures Current() == ExecutionState(id, 0, 0, status, None, 0, None, stopReason, None, None)
    {
      this.id, this.maxEvents, this.maxBytes, this.size := id, maxEvents, maxBytes, size;
      sequence := 0;
      state := ChannelState(status, None, 0, None, stopReason, 0);
      ledger := EMPTY_LEDGER;
      ring, ringBytes := [], 0;
      terminal := IsTerminal(status);
      s0 := ExecutionState(id, 0, 0, status, None, 0, None, stopReason, None, None);
      log := [];
      draft := EMPTY_DRAFT;
      EmptyBalanced();
    }

    method Append(p: Payload) returns (ok: bool)
      requires RingValid() && sequence == |log|
      modifies `sequence, `ring, `ringBytes, `log
      ensures RingValid() && sequence == |log|
      ensures ok <==> size(EventOf(id, |old(log)| + 1, state.generation, p)) <= maxBytes
      ensures log == if ok then old(log) + [EventOf(id, |old(log)| + 1, state.generation, p)] else old(log)
    {
      sequence := sequence + 1;
      var event := EventOf(id, sequence, state.generation, p);
      var bytes := size(event);
      if bytes > maxBytes {
        sequence := sequence - 1;
        return false;
      }
      TotalSizeAppend(ring, (event, bytes));
      ring := ring + [(event, bytes)];
      ringBytes := ringBytes + bytes;
      log := log + [event];
      Evict();
      return true;
    }

    method Evict()
      requires maxEvents >= 1 && maxBytes >= 1
      requires ring != [] && Suffix(ring, log, size) && ring[|ring| - 1].1 <= maxBytes && ringBytes == TotalSize(ring)
      requires Longest(ring, log, size, maxEvents, maxBytes)
      modifies `ring, `ringBytes
      ensures RingValid()
    {
      while |ring| > maxEvents || ringBytes > maxBytes
        invariant ring != [] && Suffix(ring, log, size)
        invariant ring[|ring| - 1].1 <= maxBytes && ringBytes == TotalSize(ring)
        invariant Longest(ring, log, size, maxEvents, maxBytes)
        decreases |ring|
      {
        SingleSize(ring);
        ringBytes := ringBytes - ring[0].1;
        ring := ring[1..];
      }
    }

    // Makes a state change and appends its event; an event that does not fit leaves the change in place.
    method Commit(p: Payload, st: ChannelState, l: Ledger, ghost d: Draft) returns (r: CallResult)
      requires Valid()
      requires Faithful(id, sequence + 1, st, l, d, s0, log + [EventOf(id, sequence + 1, st.generation, p)])
      modifies `state, `sequence, `ring, `ringBytes, `log, `ledger, `draft, `terminal
      ensures state == st && ledger == l && draft == d && terminal == IsTerminal(st.status)
      ensures s0 == old(s0) && r != Rejected
      ensures r == Done ==> Valid() && log == old(log) + [EventOf(id, |old(log)| + 1, st.generation, p)]
      ensures r == Torn ==> log == old(log) && size(EventOf(id, |old(log)| + 1, st.generation, p)) > maxBytes
    {
      hide *;
      ValidParts();
      state := st;
      ledger, draft := l, d;
      terminal := IsTerminal(st.status);
      var ok := Append(p);
      if ok {
        ValidIntro();
      }
      r := if ok then Done else Torn;
    }

    lemma ValidParts()
      requires Valid()
      ensures RingValid() && Faithful(id, sequence, state, ledger, draft, s0, log)
      ensures terminal == IsTerminal(state.status) && sequence == |log| && maxBytes >= 1
      ensures Balanced(ledger, draft)
    {
    }

    lemma ValidIntro()
      requires RingValid() && Faithful(id, sequence, state, ledger, draft, s0, log)
      requires terminal == IsTerminal(state.status)
      ensures Valid()
    {
    }

    method SetStatus(newStatus: Status, reason: Option<StopReason>) returns (r: CallResult)
      requires Valid()
      modifies `state, `sequence, `ring, `ringBytes, `log, `ledger, `draft, `terminal
      ensures r == Rejected <==> IsTerminal(newStatus)
                                 || (!old(terminal) && StatusRank(newStatus) < StatusRank(old(state.status)))
      ensures r == Done && !terminal ==>
                && Valid()
                && log == old(log) + [EventOf(id, |old(log)| + 1, state.generation, StatusPayload(newStatus, reason))]
      ensures r == Rejected || old(terminal) ==> Valid() && log == old(log) && state == old(state) && r != Torn
      ensures r != Rejected && !old(terminal) ==>
                state == old(state).(status := newStatus,
                                     stopReason := if newStatus.Stopping? && reason.Some? then reason
                                                   else old(state).stopReason)
      ensures r == Done && newStatus.Stopping? && !terminal ==> reason.Some?
      ensures r == Torn ==> (newStatus.Stopping? && reason.None? && log == old(log))
                            || (log == old(log) && size(EventOf(id, |old(log)| + 1, state.generation,
                                                                StatusPayload(newStatus, reason))) > maxBytes)
    {
      hide Balanced, Appendings, RingOk;
      if IsTerminal(newStatus) {
        return Rejected;
      }
      if terminal {
        return Done;
      }
      if StatusRank(newStatus) < StatusRank(state.status) {
        return Rejected;
      }
      var st := state.(status := newStatus);
      if newStatus.Stopping? {
        if reason.None? {
          state := st;
          return Torn;
        }
        st := st.(stopReason := reason);
      }
      FaithfulNext(id, sequence, state, ledger, draft, s0, log, StatusPayload(newStatus, reason), st, ledger, draft);
      r := Commit(StatusPayload(newStatus, reason), st, ledger, draft);
    }

    method SetStage(value: Stage) returns (r: CallResult)
      requires Valid()
      modifies `state, `sequence, `ring, `ringBytes, `log, `ledger, `draft, `terminal
      ensures r != Rejected
      ensures !old(terminal) ==> state == old(state).(stage := Some(value))
      ensures r == Done && !terminal ==>
                && Valid()
                && log == old(log) + [EventOf(id, |old(log)| + 1, state.generation, ProgressPayload(state))]
      ensures old(terminal) ==> Valid() && log == old(log) && state == old(state) && r == Done
      ensures r == Torn ==> log == old(log) && size(EventOf(id, |old(log)| + 1, state.generation,
                                                            ProgressPayload(state))) > maxBytes
    {
      if terminal {
        return Done;
      }
      var st := state.(stage := Some(value));
      FaithfulNext(id, sequence, state, ledger, draft, s0, log, ProgressPayload(st), st, ledger, draft);
      r := Commit(ProgressPayload(st), st, ledger, draft);
    }

    method SetTaskProgress(done: int, all: int) returns (r: CallResult)
      requires Valid()
      modifies `state, `sequence, `ring, `ringBytes, `log, `ledger, `draft, `terminal
      ensures r == Rejected <==> all < 1 || done < 0 || done > all
      ensures r != Rejected && !old(terminal) ==> state == old(state).(completed := done, total := Some(all))
      ensures r == Done && !terminal ==>
                && Valid()
                && log == old(log) + [EventOf(id, |old(log)| + 1, state.generation, ProgressPayload(state))]
      ensures r == Rejected || old(terminal) ==> Valid() && log == old(log) && state == old(state) && r != Torn
      ensures r == Torn ==> log == old(log) && size(EventOf(id, |old(log)| + 1, state.generation,
                                                            ProgressPayload(state))) > maxBytes
    {
      if all < 1 || done < 0 || done > all {
        return Rejected;
      }
      if terminal {
        return Done;
      }
      var st := state.(completed := done, total := Some(all));
      FaithfulNext(id, sequence, state, ledger, draft, s0, log, ProgressPayload(st), st, ledger, draft);
      r := Commit(ProgressPayload(st), st, ledger, draft);
    }

    method Reset() returns (r: CallResult)
      requires Valid()
      modifies `state, `sequence, `ring, `ringBytes, `log, `ledger, `draft, `terminal
      ensures r != Rejected && terminal == old(terminal) && old(log) <= log && (r == Done ==> Valid())
      ensures r == Done && !terminal ==>
                draft == EMPTY_DRAFT && state == old(state).(generation := old(state).generation + 1) && Valid()
                  && log == old(log) + [EventOf(id, |old(log)| + 1, state.generation, DraftReset)]
      ensures !old(terminal) ==> state == old(state).(generation := old(state).generation + 1)
      ensures old(terminal) ==> Valid() && log == old(log) && state == old(state) && r == Done
      ensures !old(terminal) ==> draft == EMPTY_DRAFT && ledger == EMPTY_LEDGER
      ensures r == Torn ==> log == old(log) && size(EventOf(id, |old(log)| + 1, state.generation,
                                                            DraftReset)) > maxBytes
    {
      hide *;
      ValidParts();
      if terminal {
        return Done;
      }
      ResetNext(id, sequence, state, ledger, draft, s0, log);
      r := Commit(DraftReset, state.(generation := state.generation + 1), EMPTY_LEDGER, EMPTY_DRAFT);
    }

    method Finish(final: Status, error: Option<PublicError>) returns (r: CallResult)
      requires Valid()
      modifies `state, `sequence, `ring, `ringBytes, `log, `ledger, `draft, `terminal
      ensures r == Rejected <==> !IsTerminal(final)
      ensures r == Done && !old(terminal) ==>
                draft == EMPTY_DRAFT && state == old(state).(status := final) && Valid()
                  && log == old(log) + [EventOf(id, |old(log)| + 1, state.generation, Terminal(final, error))]
      ensures r == Rejected || old(terminal) ==> Valid() && log == old(log) && state == old(state) && r != Torn
      ensures r != Rejected && !old(terminal) ==>
                state == old(state).(status := final) && draft == EMPTY_DRAFT && ledger == EMPTY_LEDGER
      ensures r == Torn ==> log == old(log) && size(EventOf(id, |old(log)| + 1, state.generation,
                                                            Terminal(final, error))) > maxBytes
    {
      hide *;
      ValidParts();
      if !IsTerminal(final) {
        return Rejected;
      }
      if terminal {
        return Done;
      }
      FinishNext(id, sequence, state, ledger, draft, s0, log, final, error);
      r := Commit(Terminal(final, error), state.(status := final), EMPTY_LEDGER, EMPTY_DRAFT);
    }

    // The draft that a snapshot carries: the writers in insertion order
    method CurrentDraft() returns (r: Option<Draft>)
      requires Valid()
      ensures r == Current().draft
    {
      if ledger.parts == [] {
        return None;
      }
      ghost var d := draft;
      var built := EMPTY_DRAFT;
      for i := 0 to |ledger.parts|
        invariant Collect(ledger.parts[..i]) == Some(built)
      {
        assert ledger.parts[..i + 1][..i] == ledger.parts[..i];
        CollectPrefix(ledger.parts, i + 1);
        // The source raises here when a list is not contiguous; that does not happen.
        built := AddPart(built, ledger.parts[i]).value;
      }
      assert ledger.parts[..|ledger.parts|] == ledger.parts;
      return Some(built);
    }

    method TakeSnapshot() returns (e: Event)
      requires Valid()
      ensures e == SnapshotOf(Current())
    {
      var d := CurrentDraft();
      e := EventOf(id, sequence, state.generation,
                   Snapshot(state.status, state.stage, state.completed, state.total, state.stopReason, d));
    }

    /** What a subscriber that has seen `after` events reads next. */
    method ReadAfter(after: nat) returns (events: seq<Event>, next: nat)
      requires Valid() && after <= |log|
      ensures next == |log|
      ensures events == if |log| - |ring| <= after then log[after..] else [SnapshotOf(Current())]
    {
      hide Fold, Appendings, Balanced;
      if ring == [] {
        return [], after;
      }
      var oldest := ring[0].0.sequence;
      Numbered(s0, log, |log| - |ring|);
      if after < oldest - 1 {
        var e := TakeSnapshot();
        return [e], e.sequence;
      }
      events := [];
      next := after;
      for i := 0 to |ring|
        invariant events == if |log| - |ring| + i <= after then [] else log[after..|log| - |ring| + i]
      {
        Numbered(s0, log, |log| - |ring| + i);
        if ring[i].0.sequence > after {
          events := events + [ring[i].0];
        }
      }
      if events != [] {
        next := events[|events| - 1].sequence;
        Numbered(s0, log, |log| - 1);
      }
    }

    // Whether every chunk's event fits the shared buffer
    method DeltaEventsFit(f: Field, index: Option<nat>, offset: nat, chunks: seq<Text>) returns (fit: bool)
      ensures fit <==> EventsFit(DeltaLog(id, sequence, state.generation, f, index, offset, chunks), size, maxBytes)
    {
      ghost var events := DeltaLog(id, sequence, state.generation, f, index, offset, chunks);
      var nextOffset := offset;
      for i := 0 to |chunks|
        invariant nextOffset == offset + |Concat(chunks[..i])|
        invariant EventsFit(events[..i], size, maxBytes)
      {
        assert chunks[..i + 1] == chunks[..i] + [chunks[i]];
        ConcatSnoc(chunks[..i], chunks[i]);
        var event := EventOf(id, sequence + 1 + i, state.generation,
                             ExecutionEvents.TextDelta(f, index, nextOffset, chunks[i]));
        assert event == events[i];
        if size(event) > maxBytes {
          return false;
        }
        nextOffset := nextOffset + |chunks[i]|;
      }
      assert events[..|chunks|] == events;
      return true;
    }

    // Halves the chunk limit until all events fit.
    method FitChunks(f: Field, index: Option<nat>, offset: nat, text: Text) returns (r: Option<seq<Text>>)
      requires maxBytes >= 1
      ensures r.Some? ==>
                && Concat(r.value) == text && GoodChunks(r.value, MAX_DELTA_BYTES)
                && EventsFit(DeltaLog(id, sequence, state.generation, f, index, offset, r.value), size, maxBytes)
      ensures r.None? ==> Cramped(id, sequence, state.generation, f, index, offset, text, size, maxBytes)
      ensures r == FitFrom(id, sequence, state.generation, f, index, offset, text, size, maxBytes,
                           FirstLimit(maxBytes))
    {
      hide *;
      var limit: nat := if MAX_DELTA_BYTES < maxBytes then MAX_DELTA_BYTES else maxBytes;
      r := SplitUtf8(text, limit);
      StartHalving(id, sequence, state.generation, f, index, offset, text, size, maxBytes, limit, r);
      while r.Some?
        invariant Halving(id, sequence, state.generation, f, index, offset, text, size, maxBytes, limit, r)
        decreases r.Some?, limit
      {
        var fit := DeltaEventsFit(f, index, offset, r.value);
        HalvingParts(id, sequence, state.generation, f, index, offset, text, size, maxBytes, limit, r);
        if fit {
          return;
        }
        if limit == 1 {
          return None;
        }
        ghost var before := r;
        ghost var last: nat := limit;
        limit := if limit / 2 > 1 then limit / 2 else 1;
        r := SplitUtf8(text, limit);
        NextHalving(id, sequence, state.generation, f, index, offset, text, size, maxBytes, last, before, limit, r);
      }
      HalvingParts(id, sequence, state.generation, f, index, offset, text, size, maxBytes, limit, r);
    }

    method AppendChunk(f: Field, index: Option<nat>, nextOffset: nat, chunk: Text)
      requires RingValid() && sequence == |log|
      requires size(EventOf(id, |log| + 1, state.generation,
                            ExecutionEvents.TextDelta(f, index, nextOffset, chunk))) <= maxBytes
      modifies `sequence, `ring, `ringBytes, `log
      ensures RingValid() && sequence == |log|
      ensures log == old(log) + [EventOf(id, |old(log)| + 1, state.generation,
                                         ExecutionEvents.TextDelta(f, index, nextOffset, chunk))]
    {
      var ok := Append(ExecutionEvents.TextDelta(f, index, nextOffset, chunk));
      assert ok;
    }

    method AppendChunks(f: Field, index: Option<nat>, offset: nat, chunks: seq<Text>)
      requires RingValid() && sequence == |log|
      requires EventsFit(DeltaLog(id, sequence, state.generation, f, index, offset, chunks), size, maxBytes)
      modifies `sequence, `ring, `ringBytes, `log
      ensures RingValid() && sequence == |log|
      ensures log == old(log) + DeltaLog(id, |old(log)|, state.generation, f, index, offset, chunks)
    {
      hide *;
      ghost var before, n := log, sequence;
      ghost var events := DeltaLog(id, n, state.generation, f, index, offset, chunks);
      var nextOffset := offset;
      EmptyPrefix(chunks, before, events);
      for i := 0 to |chunks|
        invariant RingValid() && sequence == |log| == n + i
        invariant nextOffset == offset + |Concat(chunks[..i])|
        invariant log == before + events[..i]
      {
        ChunkEvent(id, n, state.generation, f, index, offset, chunks, i, before, size, maxBytes);
        AppendChunk(f, index, nextOffset, chunks[i]);
        nextOffset := nextOffset + |chunks[i]|;
      }
      assert events[..|chunks|] == events;
    }

    method RecordDelta(f: Field, index: Option<nat>, text: Text, increment: nat)
      requires increment == SnapshotIncrement(f, index, f in ledger.fields, ledger.fields != {},
                                              ListLength(ledger.listLengths, f), text)
      modifies `ledger
      ensures ledger == Record(old(ledger), f, index, text)
    {
      hide WritePart, SnapshotIncrement, TextBytes;
      var slot := (f, index);
      var parts := WritePart(ledger.parts, slot, text);
      var lengths := ledger.lengths[slot := LengthAt(ledger.lengths, slot) + |text|];
      var fields := ledger.fields;
      if f !in fields {
        fields := fields + {f};
      }
      assert fields == ledger.fields + {f};
      var listLengths := ledger.listLengths;
      if index.Some? && index.value == ListLength(listLengths, f) {
        listLengths := listLengths[f := index.value + 1];
      }
      ledger := Ledger(parts, lengths, listLengths, fields,
                       ledger.bytes + TextBytes(text), ledger.jsonBytes + increment);
    }

    // The checks of a delta: the increment of the JSON size, when all of them pass
    method CheckDelta(f: Field, index: Option<nat>, offset: nat, text: Text) returns (r: Option<nat>)
      requires Balanced(ledger, draft) && ScalarText(text) && (IsTextField(f) <==> index.None?)
      ensures r.Some? ==>
                && r.value == SnapshotIncrement(f, index, f in ledger.fields, ledger.fields != {},
                                                ListLength(ledger.listLengths, f), text)
                && Grow(draft, f, index, offset, text).Some?
                && Balanced(Record(ledger, f, index, text), Grow(draft, f, index, offset, text).value)
      ensures r.None? <==> Overfull(draft, f, index, offset, text)
    {
      hide *;
      CheckFacts(ledger, draft, f, index, offset, text);
      if index.Some? && index.value > ListLength(ledger.listLengths, f) {
        return None;
      }
      if LengthAt(ledger.lengths, (f, index)) != offset {
        return None;
      }
      if ledger.bytes + TextBytes(text) > MAX_DRAFT_BYTES {
        return None;
      }
      var increment := SnapshotIncrement(f, index, f in ledger.fields, ledger.fields != {},
                                         ListLength(ledger.listLengths, f), text);
      if ledger.jsonBytes + increment > MAX_DRAFT_BYTES {
        return None;
      }
      r := Some(increment);
    }

    method TextDelta(f: Field, index: Option<nat>, offset: nat, text: Text) returns (r: CallResult)
      requires Valid()
      modifies `sequence, `ring, `ringBytes, `log, `ledger, `draft
      ensures Valid() && s0 == old(s0) && r != Torn
      ensures r == Rejected || terminal ==> log == old(log) && draft == old(draft)
      ensures r == Rejected ==> Refuses(f, index, offset, text)
      ensures r == Rejected <==>
                || Malformed(f, index, text)
                || (!terminal && (Overfull(old(draft), f, index, offset, text)
                                  || FitFrom(id, |old(log)|, state.generation, f, index, offset, text, size, maxBytes,
                                             FirstLimit(maxBytes)).None?))
      ensures |log| <= |old(log)| + if r == Done then |text| else 0
      ensures r == Done && !terminal ==>
                && text != [] && ScalarText(text) && (IsTextField(f) <==> index.None?)
                && Grow(old(draft), f, index, offset, text) == Some(draft)
                && old(log) <= log
                && CarryText(log[|old(log)|..], id, |old(log)|, state.generation, f, index, offset, text)
                && Some(log[|old(log)|..])
                   == DeltaEvents(id, |old(log)|, state.generation, f, index, offset, text, size, maxBytes)
                && DraftBytes(draft) <= MAX_DRAFT_BYTES && JsonSize(draft) <= MAX_DRAFT_BYTES
    {
      hide *;
      ValidParts();
      MalformedIs(f, index, text);
      RefusesIs(f, index, offset, text);
      var scalar := IsScalarText(text);
      if (IsTextField(f) != index.None?) || text == [] || !scalar {
        return Rejected;
      }
      if terminal {
        return Done;
      }
      var increment := CheckDelta(f, index, offset, text);
      if increment.None? {
        return Rejected;
      }
      var chunks := FitChunks(f, index, offset, text);
      if chunks.None? {
        return Rejected;
      }
      ghost var d' := Grow(draft, f, index, offset, text).value;
      ChunkCount(chunks.value);
      BalancedSizes(Record(ledger, f, index, text), d');
      Deliver(f, index, offset, text, increment.value, chunks.value, d');
      DeltaEventsAre(id, |old(log)|, state.generation, f, index, offset, text, size, maxBytes, chunks.value);
      CarryIntro(log[|old(log)|..], id, |old(log)|, state.generation, f, index, offset, text, chunks.value);
      r := Done;
    }

    lemma RefusesIs(f: Field, index: Option<nat>, offset: nat, text: Text)
      ensures Refuses(f, index, offset, text) <==>
                || Malformed(f, index, text)
                || (!terminal && (Overfull(draft, f, index, offset, text)
                                  || Cramped(id, sequence, state.generation, f, index, offset, text, size, maxBytes)))
    {
    }

    // Records a delta that has passed its checks, and appends its events.
    method Deliver(f: Field, index: Option<nat>, offset: nat, text: Text, increment: nat, chunks: seq<Text>,
                   ghost d': Draft)
      requires Valid() && text != [] && Concat(chunks) == text
      requires increment == SnapshotIncrement(f, index, f in ledger.fields, ledger.fields != {},
                                              ListLength(ledger.listLengths, f), text)
      requires Grow(draft, f, index, offset, text) == Some(d') && Balanced(Record(ledger, f, index, text), d')
      requires EventsFit(DeltaLog(id, sequence, state.generation, f, index, offset, chunks), size, maxBytes)
      modifies `sequence, `ring, `ringBytes, `log, `ledger, `draft
      ensures Valid() && draft == d'
      ensures log == old(log) + DeltaLog(id, |old(log)|, state.generation, f, index, offset, chunks)
    {
      hide *;
      ValidParts();
      ChunksNonEmpty(chunks);
      RecordNonEmpty(ledger, f, index, text);
      DeltaNext(id, sequence, state, ledger, draft, s0, log, f, index, offset, chunks,
                Record(ledger, f, index, text), d');
      RecordDelta(f, index, text, increment);
      draft := d';
      AppendChunks(f, index, offset, chunks);
      ValidIntro();
    }
  }

  lemma EmptyPrefix(chunks: seq<Text>, log: seq<Event>, events: seq<Event>)
    ensures |Concat(chunks[..0])| == 0 && log + events[..0] == log
  {
  }

  // The event of one chunk, and where the next one starts
  lemma ChunkEvent(id: Identity, n: nat, generation: nat, f: Field, index: Option<nat>, offset: nat, chunks: seq<Text>,
                   i: nat, log: seq<Event>, size: Event -> nat, maxBytes: nat)
    requires i < |chunks|
    requires EventsFit(DeltaLog(id, n, generation, f, index, offset, chunks), size, maxBytes)
    ensures var events := DeltaLog(id, n, generation, f, index, offset, chunks);
            var e := EventOf(id, n + i + 1, generation, TextDelta(f, index, offset + |Concat(chunks[..i])|, chunks[i]));
            && size(e) <= maxBytes
            && log + events[..i + 1] == log + events[..i] + [e]
    ensures |Concat(chunks[..i + 1])| == |Concat(chunks[..i])| + |chunks[i]|
  {
    var events := DeltaLog(id, n, generation, f, index, offset, chunks);
    FitAt(events, size, maxBytes, i);
    assert chunks[..i + 1] == chunks[..i] + [chunks[i]];
    ConcatSnoc(chunks[..i], chunks[i]);
    assert events[..i + 1] == events[..i] + [events[i]];
  }

  // No chunk is empty.
  lemma {:induction false} ChunkCount(chunks: seq<Text>)
    requires exists limit: nat :: GoodChunks(chunks, limit)
    ensures |chunks| <= |Concat(chunks)|
  {
    if chunks != [] {
      var init := chunks[..|chunks| - 1];
      var limit: nat :| GoodChunks(chunks, limit);
      assert GoodChunks(init, limit);
      ChunkCount(init);
      assert chunks == init + [chunks[|chunks| - 1]];
      ConcatSnoc(init, chunks[|chunks| - 1]);
    }
  }

  // Where a chunk stands in the text
  lemma {:induction false} ChunkAt(chunks: seq<Text>, x: nat)
    requires x < |chunks|
    ensures var i := |Concat(chunks[..x])|;
            i + |chunks[x]| <= |Concat(chunks)| && Concat(chunks)[i..i + |chunks[x]|] == chunks[x]
    decreases |chunks|
  {
    var init, last := chunks[..|chunks| - 1], chunks[|chunks| - 1];
    assert chunks == init + [last];
    ConcatSnoc(init, last);
    if x == |init| {
      assert chunks[..x] == init;
    } else {
      ChunkAt(init, x);
      assert init[..x] == chunks[..x];
    }
  }

  // A chunk is a piece of the text, behind at least as many characters as there are chunks before it.
  lemma PieceOf(chunks: seq<Text>, limit: nat, x: nat)
    requires GoodChunks(chunks, limit) && x < |chunks|
    ensures var i := |Concat(chunks[..x])|;
            && chunks[x] != [] && TextBytes(chunks[x]) <= limit && x <= i
            && i + |chunks[x]| <= |Concat(chunks)| && Concat(chunks)[i..i + |chunks[x]|] == chunks[x]
  {
    hide Concat, TextBytes;
    assert GoodChunks(chunks[..x], limit);
    ChunkCount(chunks[..x]);
    ChunkAt(chunks, x);
  }

  lemma UnfitPiece(id: Identity, n: nat, generation: nat, f: Field, index: Option<nat>, offset: nat, text: Text,
                   chunks: seq<Text>, limit: nat, size: Event -> nat, maxBytes: nat)
    requires GoodChunks(chunks, limit) && limit <= 7 && Concat(chunks) == text
    requires !EventsFit(DeltaLog(id, n, generation, f, index, offset, chunks), size, maxBytes)
    ensures Cramped(id, n, generation, f, index, offset, text, size, maxBytes)
  {
    hide Concat, TextBytes, GoodChunks;
    var events := DeltaLog(id, n, generation, f, index, offset, chunks);
    var x :| 0 <= x < |events| && size(events[x]) > maxBytes;
    PieceOf(chunks, limit, x);
    var i := |Concat(chunks[..x])|;
    assert PieceUnfit(id, n, generation, f, index, offset, text, size, maxBytes, i, i + |chunks[x]|, x + 1);
  }

  // The search for a limit, at some limit and with its cut
  ghost predicate Halving(id: Identity, n: nat, generation: nat, f: Field, index: Option<nat>, offset: nat, text: Text,
                          size: Event -> nat, maxBytes: nat, limit: nat, r: Option<seq<Text>>)
  {
    && 1 <= limit <= MAX_DELTA_BYTES && r == Cuts(text, limit)
    && (r.Some? ==> Concat(r.value) == text && GoodChunks(r.value, limit))
    && (r.None? ==> limit < 4)
    && (limit < 4 ==> Cramped(id, n, generation, f, index, offset, text, size, maxBytes))
    && FitFrom(id, n, generation, f, index, offset, text, size, maxBytes, FirstLimit(maxBytes))
       == FitFrom(id, n, generation, f, index, offset, text, size, maxBytes, limit)
  }

  lemma StartHalving(id: Identity, n: nat, generation: nat, f: Field, index: Option<nat>, offset: nat, text: Text,
                     size: Event -> nat, maxBytes: nat, limit: nat, r: Option<seq<Text>>)
    requires maxBytes >= 1 && limit == (if MAX_DELTA_BYTES < maxBytes then MAX_DELTA_BYTES else maxBytes)
    requires r == Cuts(text, limit) && (r.Some? ==> Concat(r.value) == text && GoodChunks(r.value, limit))
    requires r.None? ==> exists i :: 0 <= i < |text| && Utf8Size(text[i]) > limit
    ensures Halving(id, n, generation, f, index, offset, text, size, maxBytes, limit, r)
  {
    hide Cuts, Concat, GoodChunks, FitFrom, Cramped;
    if maxBytes < 4 {
      CrampedIntro(id, n, generation, f, index, offset, text, size, maxBytes);
    }
  }

  lemma HalvingParts(id: Identity, n: nat, generation: nat, f: Field, index: Option<nat>, offset: nat, text: Text,
                     size: Event -> nat, maxBytes: nat, limit: nat, r: Option<seq<Text>>)
    requires Halving(id, n, generation, f, index, offset, text, size, maxBytes, limit, r)
    ensures 1 <= limit <= MAX_DELTA_BYTES
    ensures r.Some? ==> Concat(r.value) == text && GoodChunks(r.value, MAX_DELTA_BYTES)
    ensures r.None? ==> Cramped(id, n, generation, f, index, offset, text, size, maxBytes)
    ensures var found := FitFrom(id, n, generation, f, index, offset, text, size, maxBytes, FirstLimit(maxBytes));
            if r.None? || EventsFit(DeltaLog(id, n, generation, f, index, offset, r.value), size, maxBytes)
            then found == r
            else limit == 1 ==> found.None? && Cramped(id, n, generation, f, index, offset, text, size, maxBytes)
  {
    hide Cuts, Concat, EventsFit, DeltaLog, Cramped;
  }

  lemma NextHalving(id: Identity, n: nat, generation: nat, f: Field, index: Option<nat>, offset: nat, text: Text,
                    size: Event -> nat, maxBytes: nat, limit: nat, r: Option<seq<Text>>,
                    limit': nat, r': Option<seq<Text>>)
    requires Halving(id, n, generation, f, index, offset, text, size, maxBytes, limit, r) && r.Some? && limit > 1
    requires !EventsFit(DeltaLog(id, n, generation, f, index, offset, r.value), size, maxBytes)
    requires limit' == (if limit / 2 > 1 then limit / 2 else 1)
    requires r' == Cuts(text, limit') && (r'.Some? ==> Concat(r'.value) == text && GoodChunks(r'.value, limit'))
    requires r'.None? ==> exists i :: 0 <= i < |text| && Utf8Size(text[i]) > limit'
    ensures Halving(id, n, generation, f, index, offset, text, size, maxBytes, limit', r')
  {
    hide Cuts, Concat, EventsFit, DeltaLog, Cramped, GoodChunks;
    if limit < 8 {
      UnfitPiece(id, n, generation, f, index, offset, text, r.value, limit, size, maxBytes);
    }
  }

  lemma MalformedIs(f: Field, index: Option<nat>, text: Text)
    ensures Malformed(f, index, text) <==> (IsTextField(f) != index.None?) || text == [] || !ScalarText(text)
  {
  }

  lemma BalancedSizes(l: Ledger, d: Draft)
    ensures Balanced(l, d) ==> DraftBytes(d) <= MAX_DRAFT_BYTES && JsonSize(d) <= MAX_DRAFT_BYTES
  {
  }

  lemma FitAt(events: seq<Event>, size: Event -> nat, maxBytes: nat, i: nat)
    requires EventsFit(events, size, maxBytes) && i < |events|
    ensures size(events[i]) <= maxBytes
  {
  }

  lemma CarryIntro(events: seq<Event>, id: Identity, n: nat, generation: nat, f: Field, index: Option<nat>,
                   offset: nat, text: Text, chunks: seq<Text>)
    requires Concat(chunks) == text && GoodChunks(chunks, MAX_DELTA_BYTES)
    requires events == DeltaLog(id, n, generation, f, index, offset, chunks)
    ensures CarryText(events, id, n, generation, f, index, offset, text)
  {
  }

  lemma DeltaEventsAre(id: Identity, n: nat, generation: nat, f: Field, index: Option<nat>, offset: nat, text: Text,
                       size: Event -> nat, maxBytes: nat, chunks: seq<Text>)
    requires FitFrom(id, n, generation, f, index, offset, text, size, maxBytes, FirstLimit(maxBytes)) == Some(chunks)
    ensures DeltaEvents(id, n, generation, f, index, offset, text, size, maxBytes)
            == Some(DeltaLog(id, n, generation, f, index, offset, chunks))
  {
    hide FitFrom;
  }

  lemma ChunksNonEmpty(chunks: seq<Text>)
    requires Concat(chunks) != []
    ensures chunks != []
  {
  }

  lemma RecordNonEmpty(l: Ledger, f: Field, index: Option<nat>, text: Text)
    ensures Record(l, f, index, text).parts != []
  {
  }

  lemma {:induction false} CollectPrefix(parts: seq<Part>, k: nat)
    requires Collect(parts).Some? && k <= |parts|
    ensures Collect(parts[..k]).Some?
    decreases |parts| - k
  {
    if k < |parts| {
      CollectPrefix(parts, k + 1);
      assert parts[..k + 1][..k] == parts[..k];
    } else {
      assert parts[..k] == parts;
    }
  }

  // Events are numbered from 1 in order.
  lemma {:induction false} Numbered(s0: ExecutionState, log: seq<Event>, i: nat)
    requires Appendings(s0, log) && s0.sequence == 0
    ensures Fold(s0, log).sequence == |log|
    ensures i < |log| ==> log[i].sequence == i + 1
  {
    if log != [] {
      var init := log[..|log| - 1];
      Numbered(s0, init, if i < |init| then i else 0);
      assert i < |init| ==> init[i] == log[i];
    }
  }

  // What the running values say about one delta
  lemma CheckFacts(l: Ledger, d: Draft, f: Field, index: Option<nat>, offset: nat, text: Text)
    requires Balanced(l, d) && ScalarText(text) && (IsTextField(f) <==> index.None?)
    ensures var increment := SnapshotIncrement(f, index, f in l.fields, l.fields != {}, ListLength(l.listLengths, f),
                                               text);
            var placed := (index.Some? ==> index.value <= ListLength(l.listLengths, f))
              && LengthAt(l.lengths, (f, index)) == offset;
            var fits := placed && l.bytes + TextBytes(text) <= MAX_DRAFT_BYTES
              && l.jsonBytes + increment <= MAX_DRAFT_BYTES;
            && (Overfull(d, f, index, offset, text) <==> !fits)
            && (fits ==> && Grow(d, f, index, offset, text).Some?
                         && Balanced(Record(l, f, index, text), Grow(d, f, index, offset, text).value))
  {
    hide Balanced, TextBytes, JsonSize, DraftBytes, SnapshotIncrement, Record;
    LedgerFacts(l, d, f, index, text);
    RecordJson(l, f, index, text);
    if Grow(d, f, index, offset, text).Some? {
      BalancedGrow(l, d, f, index, offset, text);
      if l.bytes + TextBytes(text) <= MAX_DRAFT_BYTES && Record(l, f, index, text).jsonBytes <= MAX_DRAFT_BYTES {
        RecordBalanced(l, d, f, index, text);
      }
    }
  }

  lemma RecordJson(l: Ledger, f: Field, index: Option<nat>, text: Text)
    ensures Record(l, f, index, text).jsonBytes
            == l.jsonBytes + SnapshotIncrement(f, index, f in l.fields, l.fields != {}, ListLength(l.listLengths, f),
                                               text)
  {
  }

  lemma BalancedGrow(l: Ledger, d: Draft, f: Field, index: Option<nat>, offset: nat, text: Text)
    requires Balanced(l, d) && (IsTextField(f) <==> index.None?) && Grow(d, f, index, offset, text).Some?
    ensures JsonSize(Grow(d, f, index, offset, text).value) == Record(l, f, index, text).jsonBytes
  {
    hide TextBytes, JsonSize, DraftBytes, SnapshotIncrement, Grow, Collect, Distinct;
    GrowCounts(d, f, index, offset, text);
    IncrementArguments(l, d, f, index, text);
  }

  lemma LedgerFacts(l: Ledger, d: Draft, f: Field, index: Option<nat>, text: Text)
    requires Balanced(l, d)
    ensures LengthAt(l.lengths, (f, index)) == |SlotOf(d, (f, index))|
    ensures ListLength(l.listLengths, f) == |LinesOf(d, f)|
    ensures l.bytes == DraftBytes(d)
  {
  }

  lemma DeltaNext(id: Identity, n: nat, st: ChannelState, l: Ledger, d: Draft, s0: ExecutionState, log: seq<Event>,
                  f: Field, index: Option<nat>, offset: nat, chunks: seq<Text>, l': Ledger, d': Draft)
    requires Faithful(id, n, st, l, d, s0, log) && chunks != []
    requires Grow(d, f, index, offset, Concat(chunks)) == Some(d')
    requires Balanced(l', d') && l'.parts != []
    ensures Faithful(id, n + |chunks|, st, l', d', s0, log + DeltaLog(id, n, st.generation, f, index, offset, chunks))
  {
    hide *;
    var s := View(id, n, st, l, d);
    DeltaStart(id, n, st, l, d, s0, log);
    ViewFields(id, n, st, l, d);
    DeltaFold(s, d, s0, log, id, f, index, offset, chunks, d');
    DeltaEnd(id, n, st, l, d, s0, log, DeltaLog(id, n, st.generation, f, index, offset, chunks), l', d');
  }

  lemma ViewFields(id: Identity, n: nat, st: ChannelState, l: Ledger, d: Draft)
    ensures View(id, n, st, l, d).sequence == n && View(id, n, st, l, d).generation == st.generation
  {
  }

  lemma DeltaEnd(id: Identity, n: nat, st: ChannelState, l: Ledger, d: Draft, s0: ExecutionState, log: seq<Event>,
                 events: seq<Event>, l': Ledger, d': Draft)
    requires Faithful(id, n, st, l, d, s0, log) && events != []
    requires Chunked(View(id, n, st, l, d), d, s0, log + events, |events|, d')
    requires Balanced(l', d') && l'.parts != []
    ensures Faithful(id, n + |events|, st, l', d', s0, log + events)
  {
  }

  lemma DeltaStart(id: Identity, n: nat, st: ChannelState, l: Ledger, d: Draft, s0: ExecutionState, log: seq<Event>)
    requires Faithful(id, n, st, l, d, s0, log)
    ensures Delivering(View(id, n, st, l, d), d, id)
    ensures Chunked(View(id, n, st, l, d), d, s0, log, 0, d)
  {
  }

  method IsScalarText(t: Text) returns (ok: bool)
    ensures ok <==> ScalarText(t)
  {
    for i := 0 to |t|
      invariant forall j :: 0 <= j < i ==> IsScalar(t[j])
    {
      if !IsScalar(t[i]) {
        return false;
      }
    }
    return true;
  }
}
