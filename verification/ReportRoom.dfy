/** A good report, or one after a broken-off attempt, is always streamed when the buffer has room. */
module ReportRoom {
  import opened Wrappers
  import opened JsonText
  import opened JsonSyntax
  import opened ExecutionEvents
  import opened Replica
  import opened DraftLedger
  import opened EventLog
  import opened EventChannel
  import opened DecoderMachine
  import opened DecoderComplete
  import opened DecoderLanguage
  import opened ReportStream
  import opened ReportDraft
  import opened ReportCandidate
  import opened ReportRun
  import opened DraftSize
  import opened ReportDelivery

  // ---------------------------------------------------------------- room in the buffer

  // An event of a stream on this execution: a reset, or at most seven bytes of text at a place within the caps
  ghost predicate Expected(e: Event, id: Identity, n: nat, g: nat) {
    && e.generation.Some? && e == EventOf(id, e.sequence, e.generation.value, e.payload)
    && e.sequence <= n && e.generation.value <= g
    && match e.payload
       case TextDelta(_, index, offset, text) =>
         1 <= TextBytes(text) <= 7 && offset <= MAX_DRAFT_BYTES && (index.Some? ==> index.value <= MAX_DRAFT_BYTES)
       case DraftReset => true
       case _ => false
  }

  /** Every small event of the execution, up to a sequence number and a generation, fits the buffer. */
  ghost predicate Roomy(size: Event -> nat, maxBytes: nat, id: Identity, n: nat, g: nat) {
    maxBytes >= 4 && forall e :: Expected(e, id, n, g) ==> size(e) <= maxBytes
  }

  lemma {:induction false} LineCount(lines: seq<Text>)
    ensures |lines| <= LinesJson(lines)
  {
    if lines != [] {
      LineCount(lines[..|lines| - 1]);
    }
  }

  lemma {:induction false} FieldWithin(d: Draft, f: Field, k: nat)
    requires FieldIndex(f) < k <= 6
    ensures FieldJson(d, f) <= JsonUpTo(d, k)
  {
    hide FieldJson;
    if FieldIndex(f) < k - 1 {
      FieldWithin(d, f, k - 1);
    }
  }

  // A draft has no more lines than its JSON has bytes.
  lemma LinesWithin(d: Draft, f: Field)
    requires TypedDraft(d) && !IsTextField(f)
    ensures |LinesOf(d, f)| <= JsonSize(d)
  {
    LineCount(LinesOf(d, f));
    FieldWithin(d, f, 6);
    hide JsonUpTo, FieldCount, LinesJson, FieldIndex;
    assert f !in d.texts;
  }

  lemma IndexWithin(d: Draft, x: Delta)
    requires Shaped(d) && GoodDelta(x) && Grow(d, x.field, x.index, x.offset, x.text).Some?
    ensures x.index.Some? ==> x.index.value <= JsonSize(d)
  {
    hide JsonSize;
    if x.index.Some? {
      LinesWithin(d, x.field);
    }
  }

  lemma PieceBytes(t: Text, i: nat, j: nat)
    requires i < j <= |t|
    ensures 1 <= TextBytes(t[i..j])
  {
    LengthBytes(t[i..j]);
  }

  // What a channel and a delta must be for its pieces to be expected
  ghost predicate Within(ch: ExecutionEventChannel, x: Delta, n: nat, g: nat)
    reads ch
  {
    && ch.sequence + |x.text| <= n && ch.state.generation <= g
    && x.offset + |x.text| <= MAX_DRAFT_BYTES && (x.index.Some? ==> x.index.value <= MAX_DRAFT_BYTES)
  }

  lemma PieceFits(ch: ExecutionEventChannel, x: Delta, n: nat, g: nat, i: nat, j: nat, k: nat)
    requires Roomy(ch.size, ch.maxBytes, ch.id, n, g) && Within(ch, x, n, g)
    ensures !PieceUnfit(ch.id, ch.sequence, ch.state.generation, x.field, x.index, x.offset, x.text, ch.size,
                        ch.maxBytes, i, j, k)
  {
    hide TextBytes;
    if i < j <= |x.text| && 1 <= k <= i + 1 && TextBytes(x.text[i..j]) <= 7 {
      PieceBytes(x.text, i, j);
      assert Expected(EventOf(ch.id, ch.sequence + k, ch.state.generation,
                              TextDelta(x.field, x.index, x.offset + i, x.text[i..j])), ch.id, n, g);
    }
  }

  /** With room in the buffer no delta within the caps finds it too tight. */
  lemma RoomForPieces(ch: ExecutionEventChannel, x: Delta, n: nat, g: nat)
    requires Roomy(ch.size, ch.maxBytes, ch.id, n, g) && Within(ch, x, n, g)
    ensures !TooTight(ch, x)
  {
    hide PieceUnfit, Within;
    forall i: nat, j: nat, k: nat
      ensures !PieceUnfit(ch.id, ch.sequence, ch.state.generation, x.field, x.index, x.offset, x.text, ch.size,
                          ch.maxBytes, i, j, k)
    {
      PieceFits(ch, x, n, g, i, j, k);
    }
  }

  /** With room in the buffer the channel refuses a delta exactly when it is malformed, out of place or too large. */
  lemma RefusedExactly(ch: ExecutionEventChannel, x: Delta, n: nat, g: nat)
    requires Roomy(ch.size, ch.maxBytes, ch.id, n, g) && Within(ch, x, n, g)
    ensures ch.Refuses(x.field, x.index, x.offset, x.text) <==>
              Malformed(x.field, x.index, x.text)
                || (!ch.terminal && Overfull(ch.draft, x.field, x.index, x.offset, x.text))
  {
    hide Roomy, Within, Malformed, Overfull, Cramped;
    RoomForPieces(ch, x, n, g);
    ch.RefusesIs(x.field, x.index, x.offset, x.text);
  }

  // ---------------------------------------------------------------- no failure

  /** The attempt delivers the whole report as text, or breaks off inside it. */
  ghost predicate Delivers(a: Attempt, d: Doc) {
    && (forall i :: 0 <= i < |a.chunks| ==> a.chunks[i].Some? && ScalarText(a.chunks[i].value))
    && (if a.fails then Joined(a.chunks) <= DocText(d) else Joined(a.chunks) == DocText(d))
  }

  lemma FrontBytes(t: Text, all: Text)
    requires t <= all
    ensures TextBytes(t) <= TextBytes(all)
  {
    assert all == t + all[|t|..];
    TextBytesConcat(t, all[|t|..]);
  }

  // The front of a good report can be read.
  lemma GoodFront(t: Text, d: Doc)
    requires GoodReport(d) && t <= DocText(d)
    ensures TextBytes(t) <= MAX_REPORT_JSON_BYTES && After(t).Ok?
  {
    hide WfDoc, DocText, DocOut, SolidLists, TextBytes;
    ReportFits(d);
    FrontBytes(t, DocText(d));
    RoundTrip(MAX_DRAFT_BYTES, d);
    assert DocText(d) == t + DocText(d)[|t|..];
    FrontOut(t, DocText(d)[|t|..], d);
  }

  lemma JoinedFront(chunks: seq<Option<Text>>, i: nat)
    requires i <= |chunks|
    ensures Joined(chunks[..i]) <= Joined(chunks)
  {
    var rest := JoinedPrefix(chunks, i);
  }

  // Nothing about the text can stop the attempt.
  lemma NothingWrong(a: Attempt, d: Doc)
    requires GoodReport(d) && Delivers(a, d)
    ensures Clear(a, |a.chunks|) && (!a.fails ==> Sane(a))
  {
    hide WfDoc, DocText, DocOut, SolidLists, TextBytes, ScalarText, Joined, GoodReport, After;
    forall i | 0 <= i < |a.chunks|
      ensures FaultAt(a, i).None?
    {
      JoinedFront(a.chunks, i + 1);
      GoodFront(Joined(a.chunks[..i + 1]), d);
    }
    if !a.fails {
      GoodText(d);
    }
  }

  lemma GoodText(d: Doc)
    requires GoodReport(d)
    ensures Decode(MAX_DRAFT_BYTES, DocText(d)).Ok?
  {
    hide WfDoc, DocText, DocOut, SolidLists, TextBytes;
    ReportFits(d);
    RoundTrip(MAX_DRAFT_BYTES, d);
  }

  lemma NeverBlocked(a: Attempt, d: Doc, i: nat, k: nat, ch: ExecutionEventChannel, n: nat, g: nat)
    requires GoodReport(d) && Joined(a.chunks) <= DocText(d)
    requires Roomy(ch.size, ch.maxBytes, ch.id, n, g) && |ch.log| + MAX_DRAFT_BYTES + 1 <= n && ch.state.generation <= g
    ensures !Blocked(a, i, k, ch)
  {
    hide *;
    if Blocked(a, i, k, ch) {
      var x := RefusedOnlyForSpace(a, i, k, ch, d);
      ch.ValidParts();
      IndexWithin(ch.draft, x);
      WithinIs(ch, x, n, g);
      RoomForPieces(ch, x, n, g);
    }
  }

  lemma WithinIs(ch: ExecutionEventChannel, x: Delta, n: nat, g: nat)
    ensures Within(ch, x, n, g) <==>
              && ch.sequence + |x.text| <= n && ch.state.generation <= g
              && x.offset + |x.text| <= MAX_DRAFT_BYTES && (x.index.Some? ==> x.index.value <= MAX_DRAFT_BYTES)
  {
  }

  lemma ResetFits(ch: ExecutionEventChannel, n: nat, g: nat)
    requires Roomy(ch.size, ch.maxBytes, ch.id, n, g) && |ch.log| + 1 <= n && ch.state.generation <= g
    ensures !ResetTooLarge(ch)
  {
    assert Expected(EventOf(ch.id, |ch.log| + 1, ch.state.generation, DraftReset), ch.id, n, g);
  }

  // The provider delivers a good report, at once or after one attempt that breaks off inside a good report.
  ghost predicate GoodProvider(provider: seq<Attempt>, d0: Doc, d1: Doc) {
    && |provider| == 2
    && GoodReport(d0) && Delivers(provider[0], d0)
    && (provider[0].fails ==> GoodReport(d1) && Delivers(provider[1], d1) && !provider[1].fails)
  }

  lemma DeliversFront(a: Attempt, d: Doc)
    ensures Delivers(a, d) ==> Joined(a.chunks) <= DocText(d)
  {
  }

  lemma ProviderParts(provider: seq<Attempt>, d0: Doc, d1: Doc)
    requires GoodProvider(provider, d0, d1)
    ensures |provider| == 2
    ensures GoodReport(d0) && Delivers(provider[0], d0)
    ensures provider[0].fails ==> GoodReport(d1) && Delivers(provider[1], d1) && !provider[1].fails
  {
    hide GoodReport, Delivers;
  }

  /** With room in the buffer nothing is left that could end the stream without its text. */
  lemma NothingFails(r: StreamResult, ch: ExecutionEventChannel, provider: seq<Attempt>, d0: Doc, d1: Doc, n: nat,
                     g: nat)
    requires GoodProvider(provider, d0, d1) && Accounted(r, ch, provider)
    requires Roomy(ch.size, ch.maxBytes, ch.id, n, g) && |ch.log| + MAX_DRAFT_BYTES + 1 <= n && ch.state.generation <= g
    ensures r.Streamed?
  {
    hide *;
    ProviderParts(provider, d0, d1);
    AccountedIs(r, ch, provider);
    DeliversFront(provider[0], d0);
    DeliversFront(provider[1], d1);
    if r.Unreported? {
      if r.failure == ObserverRaised {
        var reset, j, i, k := Obstacle(ch, provider);
        if reset {
          ResetFits(ch, n, g);
        } else {
          NeverBlocked(provider[j], if j == 0 then d0 else d1, i, k, ch, n, g);
        }
      } else {
        GoodFate(r, provider, d0, d1);
      }
    }
  }

  lemma GoodFate(r: StreamResult, provider: seq<Attempt>, d0: Doc, d1: Doc)
    requires GoodProvider(provider, d0, d1) && Fated(r, provider)
    ensures r.Streamed?
  {
    hide GoodReport, Delivers, Clear, Faulty, Sane;
    NothingWrong(provider[0], d0);
    SaneOnly(provider[1]);
    if provider[0].fails {
      NothingWrong(provider[1], d1);
    }
    if r.Unreported? {
      if Faulty(provider[0], r.failure) {
        OneFault(provider[0], r.failure, r.failure);
      } else if Faulty(provider[1], r.failure) {
        OneFault(provider[1], r.failure, r.failure);
      }
    }
  }

  lemma Obstacle(ch: ExecutionEventChannel, provider: seq<Attempt>) returns (reset: bool, j: nat, i: nat, k: nat)
    requires |provider| == 2 && Obstructed(ch, provider)
    ensures if reset then ResetTooLarge(ch)
            else j < 2 && (j > 0 ==> provider[0].fails) && Blocked(provider[j], i, k, ch)
  {
    reset, j, i, k := ResetTooLarge(ch), 0, 0, 0;
    hide ResetTooLarge, Blocked;
    if !reset {
      j, i, k :| j < |provider| && (j > 0 ==> provider[0].fails) && Blocked(provider[j], i, k, ch);
    }
  }

  /** A report of bounded size that the candidate check accepts is a good one. */
  lemma AcceptedIsGood(d: Doc)
    requires WfDoc(d) && Reportable(Parsed(d.root.members)) && TextBytes(DocText(d)) <= MAX_REPORT_JSON_BYTES
    ensures GoodReport(d)
  {
    hide SolidLists, TextBytes, DocText, Draw, Reportable;
    ReportableDrawn(d);
    DocumentDrawn(d);
  }

  /**
   * A good report reaches the channel's draft whole: with room for small events, at most one broken-off
   * attempt and a channel that has no draft yet, the stream ends with the report's text, and the draft
   * is the one of the report.
   */
  method StreamGoodReport(ch: ExecutionEventChannel, provider: seq<Attempt>, ghost d0: Doc, ghost d1: Doc)
    returns (r: StreamResult)
    requires ch.Valid() && InService(ch) && !ch.terminal && ch.draft == EMPTY_DRAFT
    requires GoodProvider(provider, d0, d1)
    requires Roomy(ch.size, ch.maxBytes, ch.id, |ch.log| + 3 * MAX_DRAFT_BYTES + 2, ch.state.generation + 1)
    modifies ch
    ensures ch.Valid() && InService(ch)
    ensures var d := if provider[0].fails then d1 else d0;
            r == Streamed(DocText(d)) && Draw(DocOut(d)) == Some(ch.draft)
  {
    hide *;
    ProviderParts(provider, d0, d1);
    ghost var n, g := |ch.log| + 3 * MAX_DRAFT_BYTES + 2, ch.state.generation + 1;
    r := StreamJson(ch, provider);
    NothingFails(r, ch, provider, d0, d1, n, g);
    UsedIs(provider);
    StreamedDoc(Used(provider), if provider[0].fails then d1 else d0);
  }

  lemma StreamedDoc(a: Attempt, d: Doc)
    requires GoodReport(d) && Delivers(a, d) && !a.fails
    ensures Joined(a.chunks) == DocText(d)
    ensures Decode(MAX_DRAFT_BYTES, DocText(d)).Ok? ==> Decode(MAX_DRAFT_BYTES, DocText(d)).s.out == DocOut(d)
  {
    hide WfDoc, DocText, DocOut, SolidLists, TextBytes, ScalarText, Joined;
    ReportFits(d);
    RoundTrip(MAX_DRAFT_BYTES, d);
    AfterDocOut(d);
  }
}
