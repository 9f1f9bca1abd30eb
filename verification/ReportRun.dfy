/** The streamed report: two attempts at the provider, one decoder each, published as it arrives. */
module ReportRun {
  import opened Wrappers
  import opened JsonText
  import opened JsonSyntax
  import opened ExecutionEvents
  import opened Replica
  import opened DraftLedger
  import opened EventLog
  import opened EventChannel
  import opened ChannelDelivery
  import opened DecoderMachine
  import opened DecoderRoles
  import opened DecoderLanguage
  import opened ReportStream
  import opened ReportDraft
  import opened ReportCandidate

  const MAX_REPORT_JSON_BYTES: nat := 5 * 1024 * 1024

  // What one call of the provider delivers: `None` is a chunk whose content is not text. The
  // provider fails after the last chunk or, with no chunks, on opening the stream.
  datatype Attempt = Attempt(chunks: seq<Option<Text>>, fails: bool)

  datatype Failure = ProviderCallFailed | ResponseNotText | ResponseTooLarge | ResponseNotJson | ObserverRaised

  datatype StreamResult = Streamed(text: Text) | Unreported(failure: Failure)

  datatype AttemptResult = Complete(text: Text) | Interrupted | Stopped(failure: Failure)

  function Joined(chunks: seq<Option<Text>>): Text {
    if chunks == [] then [] else Joined(chunks[..|chunks| - 1]) + chunks[|chunks| - 1].GetOr([])
  }

  lemma JoinedNext(chunks: seq<Option<Text>>, i: nat)
    requires i < |chunks|
    ensures Joined(chunks[..i + 1]) == Joined(chunks[..i]) + chunks[i].GetOr([])
  {
    assert chunks[..i + 1][..i] == chunks[..i];
  }

  lemma {:induction false} JoinedPrefix(chunks: seq<Option<Text>>, i: nat) returns (rest: Text)
    requires i <= |chunks|
    ensures Joined(chunks) == Joined(chunks[..i]) + rest
  {
    if i == |chunks| {
      assert chunks[..i] == chunks;
      assert Joined(chunks) + [] == Joined(chunks);
      rest := [];
    } else {
      var init := chunks[..|chunks| - 1];
      var r := JoinedPrefix(init, i);
      assert init[..i] == chunks[..i];
      rest := r + chunks[|chunks| - 1].GetOr([]);
    }
  }

  lemma FinishOut(s: State)
    ensures DecoderMachine.Finish(s).Ok? ==> DecoderMachine.Finish(s).s.out == s.out
  {
  }

  // ---------------------------------------------------------------- publishing

  // The channel and its log, fit for a subscriber
  ghost predicate InService(ch: ExecutionEventChannel)
    reads ch
  {
    Start(ch.s0) && LegalLog(ch.s0, ch.log)
  }

  lemma Service(ch: ExecutionEventChannel)
    ensures InService(ch) <==> Start(ch.s0) && LegalLog(ch.s0, ch.log)
  {
  }

  /** Hands one delta to the channel. */
  method Publish(ch: ExecutionEventChannel, x: Delta) returns (ok: bool)
    requires ch.Valid()
    modifies ch
    ensures ch.Valid() && ch.terminal == old(ch.terminal) && ch.state == old(ch.state) && ch.s0 == old(ch.s0)
    ensures old(ch.log) <= ch.log && (old(InService(ch)) ==> InService(ch))
    ensures !ok ==> ch.draft == old(ch.draft)
                    && ch.Refuses(x.field, x.index, x.offset, x.text)
    ensures |ch.log| <= |old(ch.log)| + |x.text|
    ensures ok && !ch.terminal ==> Grow(old(ch.draft), x.field, x.index, x.offset, x.text) == Some(ch.draft)
  {
    hide *;
    Service(ch);
    ch.ValidParts();
    ghost var before, d, l := ch.log, ch.draft, ch.ledger;
    var r := ch.TextDelta(x.field, x.index, x.offset, x.text);
    ok := r == Done;
    Service(ch);
    ch.ValidParts();
    if ok && !ch.terminal {
      ghost var events := ch.log[|before|..];
      assert ch.log == before + events;
      if Start(ch.s0) && LegalLog(ch.s0, before) {
        TakenDeltaLegal(ch.id, |before|, ch.state, l, d, ch.s0, before, x.field, x.index, x.offset, x.text, events,
                        ch.ledger, ch.draft);
      }
    }
  }

  // The deltas before the `k`-th were taken, and the channel stops there when it refuses it.
  ghost predicate StoppedAt(ds: seq<Delta>, k: nat, d: Draft, ch: ExecutionEventChannel)
    requires k < |ds|
    reads ch
  {
    && ApplyDeltas(d, ds[..k]) == Some(ch.draft)
    && ch.Refuses(ds[k].field, ds[k].index, ds[k].offset, ds[k].text)
    && ch.Valid()
  }

  // The number of characters in some deltas
  function TextTotal(ds: seq<Delta>): nat {
    if ds == [] then 0 else TextTotal(ds[..|ds| - 1]) + |ds[|ds| - 1].text|
  }

  lemma {:induction false} TotalPrefix(ds: seq<Delta>, k: nat)
    requires k <= |ds|
    ensures TextTotal(ds[..k]) <= TextTotal(ds)
    ensures k < |ds| ==> TextTotal(ds[..k + 1]) == TextTotal(ds[..k]) + |ds[k].text|
    decreases |ds| - k
  {
    if k < |ds| {
      assert ds[..k + 1][..k] == ds[..k];
      TotalPrefix(ds, k + 1);
    } else {
      assert ds[..k] == ds;
    }
  }

  /** The deltas of a feed carry the characters that it publishes, each once. */
  lemma {:induction false} DeltasTotal(out: seq<Emit>, from: nat)
    requires from <= |out|
    ensures TextTotal(DeltasOf(out, from)) == |out| - from
  {
    hide SlotText;
    if from < |out| {
      var before, e := out[..|out| - 1], out[|out| - 1];
      var ds, offset := DeltasOf(before, from), |SlotText(before, (e.field, e.index))|;
      DeltasTotal(before, from);
      AddTotal(ds, e, offset);
    }
  }

  lemma AddTotal(ds: seq<Delta>, e: Emit, offset: nat)
    ensures TextTotal(AddChar(ds, e, offset)) == TextTotal(ds) + 1
  {
    var ds' := AddChar(ds, e, offset);
    assert |ds'| == |ds| + 1 ==> ds'[..|ds|] == ds;
    assert |ds'| == |ds| ==> ds'[..|ds| - 1] == ds[..|ds| - 1];
  }

  method PublishAll(ch: ExecutionEventChannel, ds: seq<Delta>) returns (ok: bool)
    requires ch.Valid()
    modifies ch
    ensures ch.Valid() && ch.terminal == old(ch.terminal) && ch.state == old(ch.state) && ch.s0 == old(ch.s0)
    ensures old(ch.log) <= ch.log && (old(InService(ch)) ==> InService(ch))
    ensures |ch.log| <= |old(ch.log)| + TextTotal(ds)
    ensures ok && !ch.terminal ==> ApplyDeltas(old(ch.draft), ds) == Some(ch.draft)
    ensures !ok && !ch.terminal ==> exists k :: 0 <= k < |ds| && StoppedAt(ds, k, old(ch.draft), ch)
  {
    hide *;
    NoDeltas(ch.draft);
    TotalPrefix(ds, 0);
    for i := 0 to |ds|
      invariant ch.Valid() && ch.terminal == old(ch.terminal) && ch.state == old(ch.state) && ch.s0 == old(ch.s0)
      invariant old(ch.log) <= ch.log && (old(InService(ch)) ==> InService(ch))
      invariant |ch.log| <= |old(ch.log)| + TextTotal(ds[..i])
      invariant !ch.terminal ==> ApplyDeltas(old(ch.draft), ds[..i]) == Some(ch.draft)
    {
      TotalPrefix(ds, i);
      TotalPrefix(ds, i + 1);
      ok := Publish(ch, ds[i]);
      if !ok {
        StopIntro(ds, i, old(ch.draft), ch);
        return;
      }
      ApplySnoc(old(ch.draft), ds[..i], ds[i]);
      assert ds[..i + 1] == ds[..i] + [ds[i]];
    }
    assert ds[..|ds|] == ds;
    ok := true;
  }

  lemma NoDeltas(d: Draft)
    ensures forall ds: seq<Delta> :: |ds| == 0 ==> ApplyDeltas(d, ds) == Some(d)
  {
  }

  lemma StopIntro(ds: seq<Delta>, k: nat, d: Draft, ch: ExecutionEventChannel)
    requires k < |ds|
    ensures StoppedAt(ds, k, d, ch)
            <==> && ApplyDeltas(d, ds[..k]) == Some(ch.draft)
                 && ch.Refuses(ds[k].field, ds[k].index, ds[k].offset, ds[k].text)
                 && ch.Valid()
  {
  }

  // ---------------------------------------------------------------- one attempt

  // The decoder after a text
  ghost function After(t: Text): Outcome {
    Run(Ok(Initial(MAX_DRAFT_BYTES)), t)
  }

  // What is wrong with a chunk, on top of the chunks before it
  ghost function FaultAt(a: Attempt, i: nat): Option<Failure>
    requires i < |a.chunks|
  {
    var raw := Joined(a.chunks[..i + 1]);
    if a.chunks[i].None? || !ScalarText(a.chunks[i].value) then Some(ResponseNotText)
    else if TextBytes(raw) > MAX_REPORT_JSON_BYTES then Some(ResponseTooLarge)
    else if After(raw).Err? then Some(ResponseNotJson)
    else None
  }

  // Nothing is wrong with the first `n` chunks.
  ghost predicate Clear(a: Attempt, n: nat) {
    n <= |a.chunks| && forall i :: 0 <= i < n ==> FaultAt(a, i).None?
  }

  ghost predicate FirstFault(a: Attempt, i: nat, f: Failure) {
    i < |a.chunks| && Clear(a, i) && FaultAt(a, i) == Some(f)
  }

  /** What is wrong with an attempt: its first chunk that cannot be read, or the text as a whole. */
  ghost predicate Faulty(a: Attempt, f: Failure) {
    || (exists i: nat :: FirstFault(a, i, f))
    || (f == ResponseNotJson && Clear(a, |a.chunks|) && !a.fails && Decode(MAX_DRAFT_BYTES, Joined(a.chunks)).Err?)
  }

  /** The attempt delivers a whole document that can be read. */
  ghost predicate Sane(a: Attempt) {
    Clear(a, |a.chunks|) && !a.fails && Decode(MAX_DRAFT_BYTES, Joined(a.chunks)).Ok?
  }

  // An attempt ends in one way.
  lemma OneFault(a: Attempt, f: Failure, g: Failure)
    requires Faulty(a, f)
    ensures !Sane(a) && !(Clear(a, |a.chunks|) && a.fails) && (Faulty(a, g) ==> f == g)
    ensures f in {ResponseNotText, ResponseTooLarge, ResponseNotJson}
  {
    hide After, TextBytes, ScalarText, Joined;
  }

  lemma SomeEnd(a: Attempt) returns (f: Failure)
    ensures Sane(a) || (Clear(a, |a.chunks|) && a.fails) || Faulty(a, f)
  {
    hide FaultAt;
    f := ResponseNotJson;
    if !Clear(a, |a.chunks|) {
      var n := FirstFaultAt(a, |a.chunks|);
      f := FaultAt(a, n).value;
      assert FirstFault(a, n, f);
    }
  }

  lemma {:induction false} FirstFaultAt(a: Attempt, n: nat) returns (i: nat)
    requires n <= |a.chunks| && !Clear(a, n)
    ensures i < n && Clear(a, i) && FaultAt(a, i).Some?
  {
    hide FaultAt;
    if Clear(a, n - 1) {
      i := n - 1;
    } else {
      i := FirstFaultAt(a, n - 1);
    }
  }

  // A text that can be read is within the limit.
  lemma ClearBytes(a: Attempt)
    requires Clear(a, |a.chunks|)
    ensures TextBytes(Joined(a.chunks)) <= MAX_REPORT_JSON_BYTES
  {
    assert a.chunks[..|a.chunks|] == a.chunks;
    if a.chunks != [] {
      assert FaultAt(a, |a.chunks| - 1).None?;
    }
  }

  lemma ClearNone(a: Attempt)
    ensures Clear(a, 0)
  {
  }

  lemma ClearNext(a: Attempt, i: nat)
    requires i < |a.chunks| && Clear(a, i) && a.chunks[i].Some? && ScalarText(a.chunks[i].value)
    requires TextBytes(Joined(a.chunks[..i + 1])) <= MAX_REPORT_JSON_BYTES && After(Joined(a.chunks[..i + 1])).Ok?
    ensures Clear(a, i + 1)
  {
  }

  lemma {:induction false} OutLength(out: seq<Emit>)
    ensures |out| <= Bytes(out)
  {
    if out != [] {
      OutLength(out[..|out| - 1]);
    }
  }

  // No more characters are published than the cap has bytes.
  lemma AfterLength(raw: Text)
    ensures After(raw).Ok? ==> |After(raw).s.out| <= MAX_DRAFT_BYTES
  {
    if After(raw).Ok? {
      Publishing(Initial(MAX_DRAFT_BYTES), raw);
      OutLength(After(raw).s.out);
    }
  }

  lemma SpecOut(decoder: IncrementalReportJSONDecoder)
    requires decoder.Valid()
    ensures decoder.Spec().out == decoder.emitted
  {
  }

  lemma AfterNext(decoder: IncrementalReportJSONDecoder, raw: Text, piece: Text)
    requires decoder.Valid() && After(raw) == Ok(decoder.Spec())
    ensures After(raw + piece) == Run(Ok(decoder.Spec()), piece)
  {
    RunConcat(Ok(Initial(MAX_DRAFT_BYTES)), raw, piece);
  }

  lemma AfterTyped(raw: Text)
    ensures After(raw).Ok? ==> TypedOut(After(raw).s.out)
  {
    RunTyped(Initial(MAX_DRAFT_BYTES), raw);
  }

  lemma DrawFeed(raw: Text, from: seq<Emit>, d: Draft)
    requires After(raw).Ok? && from <= After(raw).s.out && Draw(from) == Some(d)
    ensures ApplyDeltas(d, DeltasOf(After(raw).s.out, |from|)) == Draw(After(raw).s.out)
  {
    hide *;
    var out := After(raw).s.out;
    assert out[..|from|] == from;
    AfterTyped(raw);
    DeltasDraw(out, |from|);
  }

  // Nothing is wrong up to the `i`-th chunk, but the channel refused a delta of its feed.
  ghost predicate Blocked(a: Attempt, i: nat, k: nat, ch: ExecutionEventChannel)
    reads ch
  {
    i < |a.chunks| && Clear(a, i + 1)
    && var x, y := After(Joined(a.chunks[..i])), After(Joined(a.chunks[..i + 1]));
       && x.Ok? && y.Ok? && Draw(x.s.out).Some? && x.s.out <= y.s.out
       && var ds := DeltasOf(y.s.out, |x.s.out|);
          k < |ds| && StoppedAt(ds, k, Draw(x.s.out).value, ch)
  }

  // The state of an attempt between two chunks
  ghost predicate Reading(decoder: IncrementalReportJSONDecoder, raw: Text, rawBytes: nat, chunks: seq<Option<Text>>,
                          i: nat)
    requires i <= |chunks|
    reads decoder
  {
    && decoder.Valid() && !decoder.finished
    && raw == Joined(chunks[..i]) && rawBytes == TextBytes(raw)
    && After(raw) == Ok(decoder.Spec())
  }

  lemma StartReading(decoder: IncrementalReportJSONDecoder, chunks: seq<Option<Text>>)
    requires decoder.Valid() && !decoder.finished && decoder.Spec() == Initial(MAX_DRAFT_BYTES)
    ensures Reading(decoder, [], 0, chunks, 0) && Draw(decoder.emitted) == Some(EMPTY_DRAFT)
  {
    assert decoder.Spec().out == decoder.emitted;
  }

  lemma NothingOut(decoder: IncrementalReportJSONDecoder)
    requires decoder.Valid() && decoder.Spec() == Initial(MAX_DRAFT_BYTES)
    ensures |decoder.emitted| == 0
  {
    assert decoder.Spec().out == decoder.emitted;
  }

  lemma ReadingParts(decoder: IncrementalReportJSONDecoder, raw: Text, rawBytes: nat, chunks: seq<Option<Text>>, i: nat)
    requires i <= |chunks|
    ensures Reading(decoder, raw, rawBytes, chunks, i) <==>
              && decoder.Valid() && !decoder.finished
              && raw == Joined(chunks[..i]) && rawBytes == TextBytes(raw)
              && After(raw) == Ok(decoder.Spec())
  {
  }

  lemma FaultIs(a: Attempt, i: nat, f: Failure)
    requires i < |a.chunks| && Clear(a, i)
    ensures f == ResponseNotText && (a.chunks[i].None? || !ScalarText(a.chunks[i].value)) ==> Faulty(a, f)
    ensures a.chunks[i].Some? && ScalarText(a.chunks[i].value) ==>
              && (f == ResponseTooLarge && TextBytes(Joined(a.chunks[..i + 1])) > MAX_REPORT_JSON_BYTES ==>
                    Faulty(a, f))
              && (f == ResponseNotJson && After(Joined(a.chunks[..i + 1])).Err?
                    && TextBytes(Joined(a.chunks[..i + 1])) <= MAX_REPORT_JSON_BYTES ==>
                    Faulty(a, f))
  {
    hide After, TextBytes, ScalarText, Joined;
    assert FaultAt(a, i) == Some(f) ==> FirstFault(a, i, f);
  }

  lemma BlockIntro(a: Attempt, i: nat, ds: seq<Delta>, k: nat, from: seq<Emit>, d: Draft, ch: ExecutionEventChannel)
    requires i < |a.chunks| && Clear(a, i + 1)
    requires After(Joined(a.chunks[..i])).Ok? && After(Joined(a.chunks[..i])).s.out == from
    requires After(Joined(a.chunks[..i + 1])).Ok? && from <= After(Joined(a.chunks[..i + 1])).s.out
    requires Draw(from) == Some(d) && ds == DeltasOf(After(Joined(a.chunks[..i + 1])).s.out, |from|)
    requires k < |ds| && StoppedAt(ds, k, d, ch)
    ensures Blocked(a, i, k, ch)
  {
  }

  // Feeds one chunk and publishes its deltas.
  method ReadChunk(ch: ExecutionEventChannel, decoder: IncrementalReportJSONDecoder, ghost a: Attempt, ghost i: nat,
                   chunk: Option<Text>, raw: Text, rawBytes: nat)
    returns (failure: Option<Failure>, raw': Text, rawBytes': nat)
    requires ch.Valid() && i < |a.chunks| && chunk == a.chunks[i]
    requires Reading(decoder, raw, rawBytes, a.chunks, i) && Clear(a, i)
    modifies ch, decoder
    ensures ch.Valid() && ch.terminal == old(ch.terminal) && ch.state == old(ch.state) && ch.s0 == old(ch.s0)
    ensures old(ch.log) <= ch.log && (old(InService(ch)) ==> InService(ch))
    ensures failure.None? ==> Reading(decoder, raw', rawBytes', a.chunks, i + 1) && Clear(a, i + 1)
    ensures failure.Some? ==> if failure.value == ObserverRaised then Clear(a, i + 1) else Faulty(a, failure.value)
    ensures failure.None? ==> |ch.log| + |old(decoder.emitted)| <= |old(ch.log)| + |decoder.emitted|
    ensures failure.Some? ==> |ch.log| + |old(decoder.emitted)| <= |old(ch.log)| + MAX_DRAFT_BYTES
    ensures failure.None? && !ch.terminal && Draw(old(decoder.emitted)) == Some(old(ch.draft)) ==>
              Draw(decoder.emitted) == Some(ch.draft)
    ensures failure == Some(ObserverRaised) && !ch.terminal && Draw(old(decoder.emitted)) == Some(old(ch.draft)) ==>
              exists k: nat :: Blocked(a, i, k, ch)
  {
    hide *;
    ReadingParts(decoder, raw, rawBytes, a.chunks, i);
    SpecOut(decoder);
    AfterLength(raw);
    failure, raw', rawBytes' := None, raw, rawBytes;
    if chunk.None? {
      FaultIs(a, i, ResponseNotText);
      failure := Some(ResponseNotText);
      return;
    }
    var scalar := IsScalarText(chunk.value);
    if !scalar {
      FaultIs(a, i, ResponseNotText);
      failure := Some(ResponseNotText);
      return;
    }
    JoinedNext(a.chunks, i);
    assert chunk.GetOr([]) == chunk.value by { SomeValue(chunk); }
    TextBytesConcat(raw, chunk.value);
    rawBytes' := rawBytes + TextBytes(chunk.value);
    raw' := raw + chunk.value;
    if rawBytes' > MAX_REPORT_JSON_BYTES {
      FaultIs(a, i, ResponseTooLarge);
      failure := Some(ResponseTooLarge);
      return;
    }
    SpecOut(decoder);
    AfterNext(decoder, raw, chunk.value);
    ghost var from := decoder.emitted;
    var fed := decoder.Feed(chunk.value);
    if fed.Failed? {
      FaultIs(a, i, ResponseNotJson);
      failure := Some(ResponseNotJson);
      return;
    }
    SpecOut(decoder);
    ReadingParts(decoder, raw', rawBytes', a.chunks, i + 1);
    ClearNext(a, i);
    AfterLength(raw');
    DeltasTotal(decoder.emitted, |from|);
    ghost var d := ch.draft;
    if Draw(from) == Some(d) {
      DrawFeed(raw', from, d);
    }
    var ok := PublishAll(ch, fed.deltas);
    if !ok {
      failure := Some(ObserverRaised);
      if !ch.terminal && Draw(from) == Some(d) {
        var k :| 0 <= k < |fed.deltas| && StoppedAt(fed.deltas, k, d, ch);
        BlockIntro(a, i, fed.deltas, k, from, d, ch);
      }
    }
  }

  lemma SomeValue(chunk: Option<Text>)
    ensures chunk.Some? ==> chunk.GetOr([]) == chunk.value
  {
  }

  method RunAttempt(ch: ExecutionEventChannel, a: Attempt) returns (r: AttemptResult)
    requires ch.Valid()
    modifies ch
    ensures ch.Valid() && ch.terminal == old(ch.terminal) && ch.state == old(ch.state) && ch.s0 == old(ch.s0)
    ensures old(ch.log) <= ch.log && (old(InService(ch)) ==> InService(ch))
    ensures |ch.log| <= |old(ch.log)| + MAX_DRAFT_BYTES
    ensures r.Complete? ==>
              && Sane(a) && r.text == Joined(a.chunks) && TextBytes(r.text) <= MAX_REPORT_JSON_BYTES
              && Decode(MAX_DRAFT_BYTES, r.text).Ok?
              && (old(ch.draft) == EMPTY_DRAFT && !ch.terminal ==>
                    Draw(Decode(MAX_DRAFT_BYTES, r.text).s.out) == Some(ch.draft))
    ensures r.Interrupted? ==> a.fails && Clear(a, |a.chunks|)
    ensures r.Stopped? && r.failure != ObserverRaised ==> Faulty(a, r.failure)
    ensures r == Stopped(ObserverRaised) ==> exists n :: 0 < n <= |a.chunks| && Clear(a, n)
    ensures r == Stopped(ObserverRaised) && old(ch.draft) == EMPTY_DRAFT && !ch.terminal ==>
              exists i: nat, k: nat :: Blocked(a, i, k, ch)
  {
    hide *;
    Positive();
    var decoder := new IncrementalReportJSONDecoder(MAX_DRAFT_BYTES);
    StartReading(decoder, a.chunks);
    ClearNone(a);
    NothingOut(decoder);
    var raw: Text := [];
    var rawBytes := 0;
    ghost var clean := ch.draft == EMPTY_DRAFT && !ch.terminal;
    for i := 0 to |a.chunks|
      invariant ch.Valid() && ch.terminal == old(ch.terminal) && ch.state == old(ch.state) && ch.s0 == old(ch.s0)
      invariant old(ch.log) <= ch.log && (old(InService(ch)) ==> InService(ch))
      invariant fresh(decoder) && Reading(decoder, raw, rawBytes, a.chunks, i) && Clear(a, i)
      invariant clean ==> Draw(decoder.emitted) == Some(ch.draft)
      invariant |ch.log| <= |old(ch.log)| + |decoder.emitted| <= |old(ch.log)| + MAX_DRAFT_BYTES
    {
      var failure: Option<Failure>;
      failure, raw, rawBytes := ReadChunk(ch, decoder, a, i, a.chunks[i], raw, rawBytes);
      if failure.Some? {
        return Stopped(failure.value);
      }
      ReadingParts(decoder, raw, rawBytes, a.chunks, i + 1);
      SpecOut(decoder);
      AfterLength(raw);
    }
    if a.fails {
      return Interrupted;
    }
    ReadingParts(decoder, raw, rawBytes, a.chunks, |a.chunks|);
    assert a.chunks[..|a.chunks|] == a.chunks;
    SpecOut(decoder);
    FinishReading(decoder, a, raw);
    ClearBytes(a);
    WholeText(a);
    var error := decoder.Finish();
    ReachedParts(decoder, error);
    if error.Some? {
      return Stopped(ResponseNotJson);
    }
    r := Complete(raw);
  }

  // How the attempt ends, whatever `finish` says
  lemma FinishReading(decoder: IncrementalReportJSONDecoder, a: Attempt, raw: Text)
    requires decoder.Valid() && After(raw) == Ok(decoder.Spec()) && raw == Joined(a.chunks) && !a.fails
    ensures Decode(MAX_DRAFT_BYTES, raw) == DecoderMachine.Finish(decoder.Spec())
    ensures DecoderMachine.Finish(decoder.Spec()).Ok? ==>
              DecoderMachine.Finish(decoder.Spec()).s.out == decoder.emitted
  {
    FinishOut(decoder.Spec());
  }

  lemma WholeText(a: Attempt)
    requires Clear(a, |a.chunks|) && !a.fails
    ensures if Decode(MAX_DRAFT_BYTES, Joined(a.chunks)).Ok? then Sane(a) else Faulty(a, ResponseNotJson)
  {
  }

  lemma Positive()
    ensures MAX_DRAFT_BYTES >= 1
  {
  }

  lemma ReachedParts(decoder: IncrementalReportJSONDecoder, error: Option<Error>)
    ensures forall o :: decoder.Reached(o, error) ==> (error.None? <==> o.Ok?)
  {
  }

  // ---------------------------------------------------------------- both attempts

  /** The attempt that yields the text */
  function Used(provider: seq<Attempt>): Attempt
    requires |provider| == 2
  {
    if provider[0].fails then provider[1] else provider[0]
  }

  lemma ResetService(ch: ExecutionEventChannel, id: Identity, n: nat, st: ChannelState, l: Ledger, d: Draft,
                     s0: ExecutionState, log: seq<Event>)
    requires Faithful(id, n, st, l, d, s0, log) && !IsTerminal(st.status) && n == |log|
    requires ch.s0 == s0 && ch.log == log + [EventOf(id, |log| + 1, st.generation + 1, DraftReset)]
    ensures Start(s0) && LegalLog(s0, log) ==> InService(ch)
  {
    if Start(s0) && LegalLog(s0, log) {
      ResetLegal(id, n, st, l, d, s0, log);
    }
  }

  // Not even a reset event fits the shared buffer.
  ghost predicate ResetTooLarge(ch: ExecutionEventChannel)
    reads ch
  {
    ch.size(EventOf(ch.id, |ch.log| + 1, ch.state.generation, DraftReset)) > ch.maxBytes
  }

  /** Why the channel can stop a stream: it refused a delta of an attempt, or its reset did not fit. */
  ghost predicate Obstructed(ch: ExecutionEventChannel, provider: seq<Attempt>)
    reads ch
  {
    || ResetTooLarge(ch)
    || exists j: nat, i: nat, k: nat ::
         j < |provider| && (j > 0 ==> provider[0].fails) && Blocked(provider[j], i, k, ch)
  }

  /** How a stream ends when the channel takes everything: it follows from what the provider delivers. */
  ghost predicate Fated(r: StreamResult, provider: seq<Attempt>) {
    && |provider| == 2
    && var a, b := provider[0], provider[1];
       var retried := Clear(a, |a.chunks|) && a.fails;
       match r
       case Streamed(text) =>
         || (Sane(a) && text == Joined(a.chunks))
         || (retried && Sane(b) && text == Joined(b.chunks))
       case Unreported(ProviderCallFailed) => retried && Clear(b, |b.chunks|) && b.fails
       case Unreported(f) => Faulty(a, f) || (retried && Faulty(b, f))
  }

  /** What the provider delivers has exactly one such end. */
  lemma OneFate(provider: seq<Attempt>) returns (r: StreamResult)
    requires |provider| == 2
    ensures Fated(r, provider) && forall x :: Fated(x, provider) ==> x == r
  {
    hide Clear, Faulty;
    var a, b := provider[0], provider[1];
    var f := SomeEnd(a);
    var g := SomeEnd(b);
    SaneOnly(a);
    SaneOnly(b);
    r := if Sane(a) then Streamed(Joined(a.chunks))
    else if Faulty(a, f) then Unreported(f)
    else if Sane(b) then Streamed(Joined(b.chunks))
    else if Faulty(b, g) then Unreported(g)
    else Unreported(ProviderCallFailed);
    forall x | Fated(x, provider)
      ensures x == r
    {
      if x.Unreported? {
        if Faulty(a, x.failure) {
          OneFault(a, x.failure, f);
        } else if Faulty(b, x.failure) {
          OneFault(b, x.failure, g);
        }
      }
      if Faulty(a, f) {
        OneFault(a, f, f);
      }
      if Faulty(b, g) {
        OneFault(b, g, g);
      }
    }
    if Faulty(a, f) {
      OneFault(a, f, f);
    }
    if Faulty(b, g) {
      OneFault(b, g, g);
    }
  }

  lemma SaneOnly(a: Attempt)
    ensures Sane(a) ==> !a.fails
  {
  }

  /** The stream ends as the provider has it, or the channel stopped it for a cause. */
  ghost predicate Accounted(r: StreamResult, ch: ExecutionEventChannel, provider: seq<Attempt>)
    requires |provider| == 2
    reads ch
  {
    if r == Unreported(ObserverRaised) then Obstructed(ch, provider) else Fated(r, provider)
  }

  lemma AccountedIs(r: StreamResult, ch: ExecutionEventChannel, provider: seq<Attempt>)
    requires |provider| == 2
    ensures Accounted(r, ch, provider)
            <==> if r == Unreported(ObserverRaised) then Obstructed(ch, provider) else Fated(r, provider)
  {
    hide Obstructed, Fated;
  }

  // The end of the stream after one more attempt
  lemma FatedEnd(provider: seq<Attempt>, attempt: nat, r: StreamResult)
    requires |provider| == 2 && attempt < 2
    requires attempt == 1 ==> Clear(provider[0], |provider[0].chunks|) && provider[0].fails
    requires var a := provider[attempt];
             match r
             case Streamed(text) => Sane(a) && text == Joined(a.chunks)
             case Unreported(ProviderCallFailed) => attempt == 1 && Clear(a, |a.chunks|) && a.fails
             case Unreported(f) => Faulty(a, f)
    ensures Fated(r, provider)
  {
    hide Clear, Sane, Faulty;
  }

  lemma ObstructedAttempt(ch: ExecutionEventChannel, provider: seq<Attempt>, j: nat)
    requires j < |provider| && (j > 0 ==> provider[0].fails)
    ensures (exists i: nat, k: nat :: Blocked(provider[j], i, k, ch)) ==> Obstructed(ch, provider)
  {
  }

  lemma ObstructedReset(ch: ExecutionEventChannel, provider: seq<Attempt>)
    requires ResetTooLarge(ch)
    ensures Obstructed(ch, provider)
  {
  }

  lemma ResetSize(ch: ExecutionEventChannel, log: seq<Event>)
    requires ch.log == log && ch.size(EventOf(ch.id, |log| + 1, ch.state.generation, DraftReset)) > ch.maxBytes
    ensures ResetTooLarge(ch)
  {
  }

  // Clears the draft of an attempt that the provider broke off.
  method ResetDraft(ch: ExecutionEventChannel) returns (ok: bool)
    requires ch.Valid()
    modifies ch
    ensures ch.terminal == old(ch.terminal) && ch.s0 == old(ch.s0) && old(ch.log) <= ch.log
    ensures |ch.log| <= |old(ch.log)| + 1
    ensures !old(ch.terminal) ==> ch.state.generation == old(ch.state.generation) + 1
    ensures ok ==> ch.Valid() && (old(InService(ch)) ==> InService(ch))
    ensures !ok ==> ResetTooLarge(ch)
    ensures ok && !ch.terminal ==>
              ch.draft == EMPTY_DRAFT && ch.state == old(ch.state).(generation := old(ch.state).generation + 1)
  {
    hide *;
    ch.ValidParts();
    Service(ch);
    ghost var log, d, l, st := ch.log, ch.draft, ch.ledger, ch.state;
    var r := ch.Reset();
    ok := r == Done;
    if !ok {
      ResetSize(ch, log);
    } else {
      Service(ch);
      ch.ValidParts();
      if !ch.terminal {
        ResetService(ch, ch.id, |log|, st, l, d, ch.s0, log);
      }
    }
  }

  lemma StopsFated(provider: seq<Attempt>, attempt: nat, f: Failure)
    requires |provider| == 2 && attempt < 2 && Faulty(provider[attempt], f)
    requires attempt == 1 ==> Clear(provider[0], |provider[0].chunks|) && provider[0].fails
    ensures Fated(Unreported(f), provider)
  {
    hide Clear, Sane, Faulty;
    OneFault(provider[attempt], f, f);
    FatedEnd(provider, attempt, Unreported(f));
  }

  lemma SaneParts(a: Attempt)
    ensures Sane(a) <==> Clear(a, |a.chunks|) && !a.fails && Decode(MAX_DRAFT_BYTES, Joined(a.chunks)).Ok?
  {
  }

  /**
   * Streams a report through at most two attempts. Text comes from one complete attempt, whose
   * decoding is what the channel's draft shows; the deltas of an interrupted attempt are gone, and
   * every log event on the way is one that a subscriber can follow. Unless the channel stops the
   * stream, it ends in the one way that what the provider delivers has.
   */
  method StreamJson(ch: ExecutionEventChannel, provider: seq<Attempt>) returns (r: StreamResult)
    requires ch.Valid() && |provider| == 2
    modifies ch
    ensures ch.s0 == old(ch.s0) && old(ch.log) <= ch.log
    ensures r != Unreported(ObserverRaised) ==> ch.Valid() && (old(InService(ch)) ==> InService(ch))
    ensures r.Streamed? ==>
              && !Used(provider).fails && r.text == Joined(Used(provider).chunks)
              && Decode(MAX_DRAFT_BYTES, r.text).Ok? && TextBytes(r.text) <= MAX_REPORT_JSON_BYTES
    ensures r.Streamed? && old(ch.draft) == EMPTY_DRAFT && !old(ch.terminal) ==>
              && !ch.terminal && Draw(Decode(MAX_DRAFT_BYTES, r.text).s.out) == Some(ch.draft)
              && ch.state == old(ch.state).(generation := old(ch.state).generation + if provider[0].fails then 1 else 0)
    ensures old(ch.draft) == EMPTY_DRAFT && !old(ch.terminal) ==> Accounted(r, ch, provider)
    ensures |ch.log| <= |old(ch.log)| + 2 * MAX_DRAFT_BYTES + 1
    ensures !old(ch.terminal) ==> ch.state.generation <= old(ch.state.generation) + 1
    ensures r != Unreported(ObserverRaised) ==> Fated(r, provider)
  {
    hide *;
    UsedIs(provider);
    for attempt := 0 to 2
      invariant ch.Valid() && ch.s0 == old(ch.s0) && ch.terminal == old(ch.terminal) && old(ch.log) <= ch.log
      invariant old(InService(ch)) ==> InService(ch)
      invariant |ch.log| <= |old(ch.log)| + attempt * (MAX_DRAFT_BYTES + 1)
      invariant !ch.terminal ==> ch.state.generation == old(ch.state.generation) + attempt
      invariant attempt > 0 ==> provider[0].fails && Clear(provider[0], |provider[0].chunks|)
      invariant attempt > 1 ==> Fated(Unreported(ProviderCallFailed), provider)
      invariant old(ch.draft) == EMPTY_DRAFT && !ch.terminal ==>
                  && ch.draft == EMPTY_DRAFT
                  && ch.state == old(ch.state).(generation := old(ch.state).generation + attempt)
    {
      var result := RunAttempt(ch, provider[attempt]);
      match result
      case Complete(text) =>
        SaneParts(provider[attempt]);
        FatedEnd(provider, attempt, Streamed(text));
        AccountedIs(Streamed(text), ch, provider);
        return Streamed(text);
      case Stopped(failure) =>
        ObstructedAttempt(ch, provider, attempt);
        if failure != ObserverRaised {
          StopsFated(provider, attempt, failure);
        }
        AccountedIs(Unreported(failure), ch, provider);
        return Unreported(failure);
      case Interrupted =>
      if attempt == 1 {
        FatedEnd(provider, 1, Unreported(ProviderCallFailed));
        AccountedIs(Unreported(ProviderCallFailed), ch, provider);
        return Unreported(ProviderCallFailed);
      }
      var ok := ResetDraft(ch);
      if !ok {
        ObstructedReset(ch, provider);
        AccountedIs(Unreported(ObserverRaised), ch, provider);
        return Unreported(ObserverRaised);
      }
    }
    r := Unreported(ProviderCallFailed);
  }

  lemma UsedIs(provider: seq<Attempt>)
    ensures |provider| == 2 ==> Used(provider) == if provider[0].fails then provider[1] else provider[0]
  {
  }
}
