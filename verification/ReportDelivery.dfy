/** End to end: from the provider's text to the draft in the browser and the stored report. */
module ReportDelivery {
  import opened Wrappers
  import opened JsonText
  import opened JsonSyntax
  import opened ExecutionEvents
  import opened Replica
  import opened DraftLedger
  import opened EventLog
  import opened EventChannel
  import opened ChannelDelivery
  import opened DecoderMachine
  import opened DecoderComplete
  import opened DecoderRoles
  import opened DecoderLanguage
  import opened ReportStream
  import opened ReportDraft
  import opened ReportCandidate
  import opened ReportRun
  import opened DraftSize

  // ---------------------------------------------------------------- what a finished stream shows

  /**
   * The draft of a finished stream holds exactly the strings of the six root fields of the text,
   * and a report that passes the candidate check is that draft, stripped.
   */
  lemma ShownReport(t: Text, draft: Draft) returns (d: Doc)
    requires Decode(MAX_DRAFT_BYTES, t).Ok? && Draw(Decode(MAX_DRAFT_BYTES, t).s.out) == Some(draft)
    ensures IsDocument(t, d) && Draw(DocOut(d)) == Some(draft)
    ensures forall slot :: SlotOf(draft, slot) == RootString(d, slot)
    ensures Reportable(Parsed(d.root.members)) ==> forall f :: Reports(Parsed(d.root.members), draft, f)
  {
    hide *;
    d := Sound(MAX_DRAFT_BYTES, t);
    AfterDocOut(d);
    WfDocOf(t, d);
    forall slot
      ensures SlotOf(draft, slot) == RootString(d, slot)
    {
      DocumentDraft(d, slot);
    }
    if Reportable(Parsed(d.root.members)) {
      forall f
        ensures Reports(Parsed(d.root.members), draft, f)
      {
        ReportIsDraft(d, f);
      }
    }
  }

  lemma AfterDocOut(d: Doc)
    ensures WfDoc(d) ==> AfterDoc(MAX_DRAFT_BYTES, d).out == DocOut(d)
  {
  }

  lemma WfDocOf(t: Text, d: Doc)
    requires IsDocument(t, d)
    ensures WfDoc(d) && DocText(d) == t && d.root.Obj? && WfMembers(d.root.members)
  {
  }

  /** A subscriber in step with the channel that reads what comes next shows the channel's draft. */
  lemma DraftReachesClient(ch: ExecutionEventChannel, c: ExecutionState, after: nat, events: seq<Event>)
    requires ch.Valid() && InService(ch) && after <= |ch.log| && Bare(c) == At(ch.s0, ch.log, after)
    requires events == ch.log[after..] || events == [SnapshotOf(ch.Current())]
    ensures var r := Receive(c, events);
            r.Some? && Replica.CurrentDraft(r.value) == ch.draft && Bare(r.value) == ch.Current()
  {
    hide Receive, LegalLog, Start, At;
    Service(ch);
    ch.ValidParts();
    SubscriberInStep(c, after, events, ch.s0, ch.log);
    var r := Receive(c, events).value;
    assert Replica.CurrentDraft(r) == Replica.CurrentDraft(Bare(r));
  }

  // ---------------------------------------------------------------- when the channel refuses

  lemma {:induction false} DrawnSizes(out: seq<Emit>)
    requires TypedOut(out) && Draw(out).Some?
    ensures Shaped(Draw(out).value) && DraftBytes(Draw(out).value) == Bytes(out)
  {
    hide Grow, SlotOf, DraftBytes, JsonSize;
    if out == [] {
      NoBytes();
    } else {
      var init, e := out[..|out| - 1], out[|out| - 1];
      DrawnSizes(init);
      CharSizes(Draw(init).value, e);
    }
  }

  lemma NoBytes()
    ensures Shaped(EMPTY_DRAFT) && DraftBytes(EMPTY_DRAFT) == 0
  {
  }

  lemma CharSizes(d: Draft, e: Emit)
    requires Shaped(d) && DrawChar(d, e).Some? && (IsTextField(e.field) <==> e.index.None?)
    ensures var d' := DrawChar(d, e).value;
            && Shaped(d') && DraftBytes(d') == DraftBytes(d) + Utf8Size(e.c) && JsonSize(d) <= JsonSize(d')
  {
    hide Grow, SlotOf, DraftBytes, JsonSize;
    var offset := |SlotOf(d, (e.field, e.index))|;
    GrowCounts(d, e.field, e.index, offset, [e.c]);
    GrowShape(d, e.field, e.index, offset, [e.c]);
    TextBytesOne(e.c);
  }

  lemma {:induction false} DrawnMonotone(a: seq<Emit>, out: seq<Emit>)
    requires a <= out && TypedOut(out) && Draw(out).Some?
    ensures Draw(a).Some? && JsonSize(Draw(a).value) <= JsonSize(Draw(out).value)
    decreases |out|
  {
    hide Grow, SlotOf, DraftBytes, JsonSize, DrawChar;
    if a == out {
    } else {
      var init := out[..|out| - 1];
      assert a <= init;
      DrawnMonotone(a, init);
      DrawnSizes(init);
      CharSizes(Draw(init).value, out[|out| - 1]);
    }
  }

  // A delta of the decoder: some text, all of it scalar values, for a slot of the right kind
  ghost predicate GoodDelta(x: Delta) {
    x.text != [] && ScalarText(x.text) && (IsTextField(x.field) <==> x.index.None?)
  }

  ghost predicate GoodDeltas(ds: seq<Delta>) {
    forall i :: 0 <= i < |ds| ==> GoodDelta(ds[i])
  }

  lemma AddGood(ds: seq<Delta>, e: Emit, offset: nat)
    requires GoodDeltas(ds) && IsScalar(e.c) && (IsTextField(e.field) <==> e.index.None?)
    ensures GoodDeltas(AddChar(ds, e, offset))
  {
    if ds != [] {
      var x := ds[|ds| - 1];
      assert GoodDelta(x);
      assert ScalarText(x.text + [e.c]);
    }
    assert ScalarText([e.c]);
  }

  /** Every delta of the decoder is one that the channel takes when there is room. */
  lemma {:induction false} DecoderDeltas(out: seq<Emit>, from: nat)
    requires from <= |out| && TypedOut(out) && AllScalar(out)
    ensures GoodDeltas(DeltasOf(out, from))
  {
    hide AddChar, SlotText, GoodDelta;
    if from < |out| {
      var before, e := out[..|out| - 1], out[|out| - 1];
      DecoderDeltas(before, from);
      AddGood(DeltasOf(before, from), e, |SlotText(before, (e.field, e.index))|);
    }
  }

  // Up to the `k`-th delta the draft exists and is no larger than at the end.
  lemma {:induction false} AppliedMonotone(d: Draft, ds: seq<Delta>, k: nat)
    requires Shaped(d) && GoodDeltas(ds) && ApplyDeltas(d, ds).Some? && k <= |ds|
    ensures ApplyDeltas(d, ds[..k]).Some?
    ensures var m, end := ApplyDeltas(d, ds[..k]).value, ApplyDeltas(d, ds).value;
            Shaped(m) && Shaped(end) && JsonSize(m) <= JsonSize(end) && DraftBytes(m) <= DraftBytes(end)
    decreases |ds|
  {
    hide Grow, DraftBytes, JsonSize, Shaped;
    if ds == [] {
      assert ds[..k] == ds;
    } else {
      var init, x := ds[..|ds| - 1], ds[|ds| - 1];
      AppliedMonotone(d, init, if k < |ds| then k else |init|);
      assert k < |ds| ==> init[..k] == ds[..k];
      assert init[..|init|] == init;
      assert ds[..|ds|] == ds;
      assert GoodDelta(x);
      GrownSizes(ApplyDeltas(d, init).value, x);
    }
  }

  lemma GrownSizes(d: Draft, x: Delta)
    requires Shaped(d) && GoodDelta(x) && Grow(d, x.field, x.index, x.offset, x.text).Some?
    ensures var d' := Grow(d, x.field, x.index, x.offset, x.text).value;
            && Shaped(d') && JsonSize(d) <= JsonSize(d') && DraftBytes(d') == DraftBytes(d) + TextBytes(x.text)
  {
    hide Grow, DraftBytes, JsonSize;
    GrowCounts(d, x.field, x.index, x.offset, x.text);
    GrowShape(d, x.field, x.index, x.offset, x.text);
  }

  // What a channel can refuse a delta for that is well formed
  lemma RefusedForSpace(ch: ExecutionEventChannel, x: Delta)
    requires ch.Refuses(x.field, x.index, x.offset, x.text) && GoodDelta(x)
    requires !Overfull(ch.draft, x.field, x.index, x.offset, x.text)
    ensures TooTight(ch, x)
  {
    ch.RefusesIs(x.field, x.index, x.offset, x.text);
    hide Overfull, Cramped;
  }

  // A piece of this very delta, of at most seven bytes, does not fit the channel's buffer as an event.
  ghost predicate TooTight(ch: ExecutionEventChannel, x: Delta)
    reads ch
  {
    Cramped(ch.id, ch.sequence, ch.state.generation, x.field, x.index, x.offset, x.text, ch.size, ch.maxBytes)
  }

  // A delta on the way to a small enough draft does not overfill the draft in front of it.
  lemma RoomForDelta(d: Draft, ds: seq<Delta>, k: nat, m: Draft)
    requires Shaped(d) && GoodDeltas(ds) && ApplyDeltas(d, ds).Some? && k < |ds|
    requires JsonSize(ApplyDeltas(d, ds).value) <= MAX_DRAFT_BYTES
             && DraftBytes(ApplyDeltas(d, ds).value) <= MAX_DRAFT_BYTES
    requires ApplyDeltas(d, ds[..k]) == Some(m)
    ensures !Overfull(m, ds[k].field, ds[k].index, ds[k].offset, ds[k].text)
    ensures GoodDelta(ds[k]) && JsonSize(m) <= MAX_DRAFT_BYTES && Shaped(m)
  {
    hide Grow, DraftBytes, JsonSize, Shaped;
    var x := ds[k];
    assert ds[..k + 1] == ds[..k] + [x];
    ApplySnoc(d, ds[..k], x);
    AppliedMonotone(d, ds, k);
    AppliedMonotone(d, ds, k + 1);
    assert GoodDelta(x);
    GrownSizes(m, x);
  }

  // What the decoder has published after the front of a document
  lemma FrontOut(t: Text, rest: Text, d: Doc)
    requires WfDoc(d) && DocText(d) == t + rest && Bytes(DocOut(d)) <= MAX_DRAFT_BYTES
    ensures After(t).Ok? && After(t).s.out <= DocOut(d) && AllScalar(After(t).s.out) && TypedOut(After(t).s.out)
  {
    hide Step, WfDoc, DocText, DocOut;
    var s0 := Initial(MAX_DRAFT_BYTES);
    RoundTrip(MAX_DRAFT_BYTES, d);
    RunConcat(Ok(s0), t, rest);
    if After(t).Err? {
      RunErr(After(t).error, rest);
    }
    Publishing(s0, t);
    Publishing(After(t).s, rest);
    AfterTyped(t);
  }

  lemma RestOf(t: Text, more: Text, text: Text) returns (rest: Text)
    requires t + more <= text
    ensures text == t + rest
  {
    rest := text[|t|..];
    assert text[..|t|] == (t + more)[..|t|] == t;
  }

  lemma ChunkOut(chunks: seq<Option<Text>>, i: nat, d: Doc)
    requires i <= |chunks| && WfDoc(d) && Joined(chunks) <= DocText(d) && Bytes(DocOut(d)) <= MAX_DRAFT_BYTES
    ensures var a := After(Joined(chunks[..i]));
            a.Ok? && a.s.out <= DocOut(d) && AllScalar(a.s.out) && TypedOut(a.s.out)
  {
    hide *;
    var more := JoinedPrefix(chunks, i);
    var rest := RestOf(Joined(chunks[..i]), more, DocText(d));
    FrontOut(Joined(chunks[..i]), rest, d);
  }

  // A report of bounded size without gaps in its lists
  ghost predicate GoodReport(d: Doc) {
    WfDoc(d) && SolidLists(d) && TextBytes(DocText(d)) <= MAX_REPORT_JSON_BYTES
  }

  lemma ReportFits(d: Doc)
    requires GoodReport(d)
    ensures Draw(DocOut(d)).Some? && Bytes(DocOut(d)) <= MAX_DRAFT_BYTES && TypedOut(DocOut(d))
    ensures JsonSize(Draw(DocOut(d)).value) <= MAX_DRAFT_BYTES && DraftBytes(Draw(DocOut(d)).value) <= MAX_DRAFT_BYTES
  {
    hide Draw, DocOut, DocText, WfDoc, JsonSize, DraftBytes, SolidLists;
    DocumentDrawn(d);
    SnapshotFits(d);
    DrawnSizes(DocOut(d));
    JsonCovers(Draw(DocOut(d)).value);
  }

  /**
   * While the front of a good report arrives, the channel refuses a delta for want of buffer
   * space only: a piece of that very delta, of at most seven bytes, does not fit as an event.
   */
  lemma RefusedOnlyForSpace(a: Attempt, i: nat, k: nat, ch: ExecutionEventChannel, d: Doc) returns (x: Delta)
    requires Blocked(a, i, k, ch)
    requires GoodReport(d) && Joined(a.chunks) <= DocText(d)
    ensures ch.Valid() && TooTight(ch, x) && GoodDelta(x)
    ensures Grow(ch.draft, x.field, x.index, x.offset, x.text).Some? && JsonSize(ch.draft) <= MAX_DRAFT_BYTES
            && Shaped(ch.draft)
    ensures x.offset + |x.text| <= MAX_DRAFT_BYTES
  {
    hide *;
    GoodParts(d);
    ReportFits(d);
    var out0, out1, m;
    out0, out1, x, m := BlockedAt(a, i, k, ch);
    ChunkOut(a.chunks, i, d);
    ChunkOut(a.chunks, i + 1, d);
    DrawnMonotone(out1, DocOut(d));
    DrawnSizes(out1);
    DrawnSizes(out0);
    assert out1[..|out0|] == out0;
    DeltasDraw(out1, |out0|);
    DecoderDeltas(out1, |out0|);
    OutBytes(out1, DocOut(d));
    RoomForDelta(m, DeltasOf(out1, |out0|), k, ch.draft);
    RefusedForSpace(ch, x);
    OverfullParts(ch.draft, x);
    DeltaEnds(out1, |out0|, k);
    OutLength(out1);
  }

  lemma GoodParts(d: Doc)
    ensures GoodReport(d) ==> WfDoc(d) && SolidLists(d) && TextBytes(DocText(d)) <= MAX_REPORT_JSON_BYTES
  {
  }

  lemma OverfullParts(d: Draft, x: Delta)
    ensures !Overfull(d, x.field, x.index, x.offset, x.text) ==> Grow(d, x.field, x.index, x.offset, x.text).Some?
  {
  }

  // The delta that was refused, and what was published before and with it
  lemma BlockedAt(a: Attempt, i: nat, k: nat, ch: ExecutionEventChannel)
    returns (out0: seq<Emit>, out1: seq<Emit>, x: Delta, m: Draft)
    requires Blocked(a, i, k, ch)
    ensures i < |a.chunks| && After(Joined(a.chunks[..i])).Ok? && After(Joined(a.chunks[..i + 1])).Ok?
    ensures out0 == After(Joined(a.chunks[..i])).s.out && out1 == After(Joined(a.chunks[..i + 1])).s.out
    ensures out0 <= out1 && Draw(out0) == Some(m) && k < |DeltasOf(out1, |out0|)| && x == DeltasOf(out1, |out0|)[k]
    ensures ApplyDeltas(m, DeltasOf(out1, |out0|)[..k]) == Some(ch.draft)
    ensures ch.Refuses(x.field, x.index, x.offset, x.text) && ch.Valid()
  {
    hide After, Draw, DeltasOf, ApplyDeltas, Joined;
    out0, out1 := After(Joined(a.chunks[..i])).s.out, After(Joined(a.chunks[..i + 1])).s.out;
    x := DeltasOf(out1, |out0|)[k];
    m := Draw(out0).value;
  }

  lemma {:induction false} SlotLength(out: seq<Emit>, slot: Slot)
    ensures |SlotText(out, slot)| <= |out|
  {
    if out != [] {
      SlotLength(out[..|out| - 1], slot);
    }
  }

  // A delta ends within what has been published.
  lemma {:induction false} DeltaEnds(out: seq<Emit>, from: nat, k: nat)
    requires from <= |out| && k < |DeltasOf(out, from)|
    ensures var x := DeltasOf(out, from)[k]; x.offset + |x.text| <= |out|
    decreases |out|
  {
    hide SlotText;
    var before, e := out[..|out| - 1], out[|out| - 1];
    var ds := DeltasOf(before, from);
    SlotLength(before, (e.field, e.index));
    if k < |ds| {
      DeltaEnds(before, from, k);
    }
  }

  lemma {:induction false} OutBytes(a: seq<Emit>, out: seq<Emit>)
    requires a <= out
    ensures Bytes(a) <= Bytes(out)
  {
    assert out == a + out[|a|..];
    BytesConcat(a, out[|a|..]);
  }
}
