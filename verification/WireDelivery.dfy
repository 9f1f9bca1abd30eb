/** Everything the channel sends passes the browser's checks. */
module WireDelivery {
  import opened Wrappers
  import opened JsonText
  import opened JsonSyntax
  import opened ExecutionEvents
  import opened Replica
  import opened EventLog
  import EventChannel
  import ChannelDelivery
  import EventDecoding
  import EventEncoding

  // A state whose snapshot the browser accepts
  ghost predicate Showable(s: ExecutionState) {
    && Proper(s)
    && (s.status.Stopping? ==> s.stopReason.Some?)
    && (IsTerminal(s.status) ==> s.draft.None?)
  }

  lemma ShowableNext(s: ExecutionState, e: Event)
    requires Showable(s) && Legal(s, e) && PayloadChecked(e.payload)
    ensures Showable(Apply(s, e))
  {
    hide DraftAccepted;
    LegalKeepsProper(s, e);
  }

  ghost predicate CheckedLog(log: seq<Event>) {
    forall i :: 0 <= i < |log| ==> PayloadChecked(log[i].payload)
  }

  lemma {:induction false} ShowableFold(s0: ExecutionState, log: seq<Event>)
    requires Start(s0) && Showable(s0) && LegalLog(s0, log) && CheckedLog(log)
    ensures Showable(Fold(s0, log))
  {
    if log != [] {
      var init, e := log[..|log| - 1], log[|log| - 1];
      hide Showable, Legal, PayloadChecked, Start;
      ShowableFold(s0, init);
      ShowableNext(Fold(s0, init), e);
    }
  }

  // The browser reads the event back from what the server wrote, under the event's own type.
  ghost predicate Arrives(e: Event, id: Identity) {
    && EventEncoding.Complete(e)
    && EventDecoding.DecodeEvent(EventEncoding.EncodeEvent(e), id,
                                 EventDecoding.Codes(EventDecoding.TypeName(e.payload))) == Some(e)
  }

  lemma SnapshotChecked(s: ExecutionState)
    requires Showable(s)
    ensures EventEncoding.Complete(SnapshotOf(s)) && WireChecked(SnapshotOf(s), s.id)
  {
    hide DraftAccepted;
  }

  lemma AppendedChecked(s: ExecutionState, e: Event)
    requires Appended(s, e) && PayloadChecked(e.payload)
    ensures EventEncoding.Complete(e) && WireChecked(e, s.id)
  {
    hide PayloadChecked;
  }

  lemma FitsOwnType(e: Event)
    ensures EventEncoding.TypeFits(EventDecoding.Codes(EventDecoding.TypeName(e.payload)), e.payload)
  {
  }

  lemma ArrivesIntro(e: Event, id: Identity)
    requires EventEncoding.Complete(e) && WireChecked(e, id)
    ensures Arrives(e, id) <==> EventEncoding.SafeEvent(e)
  {
    hide WireChecked, EventEncoding.SafeEvent, EventEncoding.Complete, EventEncoding.EncodeEvent,
      EventDecoding.DecodeEvent,
         EventEncoding.TypeFits;
    var t := EventDecoding.Codes(EventDecoding.TypeName(e.payload));
    FitsOwnType(e);
    EventEncoding.EncodingExact(EventEncoding.EncodeEvent(e), id, t, e);
  }

  /**
   * Every event of a legal log of checked payloads, and the snapshot at every point of it, reaches
   * the client unchanged exactly when its counts are safe JavaScript integers.
   */
  lemma LogArrives(s0: ExecutionState, log: seq<Event>, n: nat)
    requires Start(s0) && Showable(s0) && LegalLog(s0, log) && CheckedLog(log) && n <= |log|
    ensures Arrives(SnapshotOf(At(s0, log, n)), s0.id) <==> EventEncoding.SafeEvent(SnapshotOf(At(s0, log, n)))
    ensures n < |log| ==> (Arrives(log[n], s0.id) <==> EventEncoding.SafeEvent(log[n]))
  {
    hide Arrives, Showable, EventEncoding.SafeEvent, Start, Legal, PayloadChecked, EventEncoding.Complete, WireChecked,
      Appended;
    AtFacts(s0, log, n);
    LegalPrefix(s0, log, n);
    ShowableFold(s0, log[..n]);
    SnapshotChecked(At(s0, log, n));
    ArrivesIntro(SnapshotOf(At(s0, log, n)), s0.id);
    if n < |log| {
      AtNext(s0, log, n);
      LegalAppended(At(s0, log, n), log[n]);
      AppendedChecked(At(s0, log, n), log[n]);
      ArrivesIntro(log[n], s0.id);
    }
  }

  /**
   * The same holds of every message of the channel, whichever of them are lost, repeated or
   * reordered: events, snapshots, the persisted outcome, and the loss of access.
   */
  lemma MessageArrives(m: Message, s0: ExecutionState, log: seq<Event>)
    requires Start(s0) && Showable(s0) && LegalLog(s0, log) && CheckedLog(log) && Sendable(m, s0, log)
    ensures Arrives(Wire(m, s0, log), s0.id) <==> EventEncoding.SafeEvent(Wire(m, s0, log))
  {
    hide Arrives, Showable, EventEncoding.SafeEvent, Start, LegalLog, PayloadChecked, CheckedLog, At;
    match m
    case Live(i) => LogArrives(s0, log, i);
    case Snap(n) => LogArrives(s0, log, n);
    case Persisted(reason) =>
      PersistedChecked(s0.id, Fold(s0, log).status, reason);
      ArrivesIntro(Wire(m, s0, log), s0.id);
    case LostAuth(after) =>
      LossChecked(s0.id, after);
      ArrivesIntro(Wire(m, s0, log), s0.id);
  }

  lemma PersistedChecked(id: Identity, status: Status, reason: Option<StopReason>)
    requires IsTerminal(status)
    ensures EventEncoding.Complete(PersistedEvent(id, status, reason))
            && WireChecked(PersistedEvent(id, status, reason), id)
  {
  }

  lemma LossChecked(id: Identity, after: nat)
    ensures var e := Event(id.executionId, None, None, after, None, AuthLost);
            EventEncoding.Complete(e) && WireChecked(e, id)
  {
  }

  lemma LegalAppended(s: ExecutionState, e: Event)
    requires Legal(s, e)
    ensures Appended(s, e)
  {
  }

  // ---------------------------------------------------------------- the channel's payloads

  /** The payloads of the channel's status, stage and count events are checked ones. */
  lemma StateChecked(st: EventChannel.ChannelState, status: Status, reason: Option<StopReason>, final: Status,
                     error: Option<PublicError>)
    requires !IsTerminal(status) && (status.Stopping? ==> reason.Some?) && IsTerminal(final)
    requires st.total != Some(0) && CountsFit(st.completed, st.total)
    ensures PayloadChecked(EventChannel.StatusPayload(status, reason))
    ensures PayloadChecked(EventChannel.ProgressPayload(st))
    ensures PayloadChecked(DraftReset) && PayloadChecked(Terminal(final, error))
  {
  }

  lemma {:induction false} PartScalar(chunks: seq<Text>, i: nat)
    requires ScalarText(Concat(chunks)) && i < |chunks|
    ensures ScalarText(chunks[i])
  {
    var k := |chunks| - 1;
    assert chunks == chunks[..k] + [chunks[k]];
    ConcatSnoc(chunks[..k], chunks[k]);
    assert Concat(chunks) == Concat(chunks[..k]) + chunks[k];
    ChannelDelivery.ScalarParts(Concat(chunks[..k]), chunks[k]);
    if i < k {
      PartScalar(chunks[..k], i);
    }
  }

  /** So are the events of a delta that the channel has taken. */
  lemma DeltaChecked(events: seq<Event>, id: Identity, n: nat, generation: nat, f: Field, index: Option<nat>,
                     offset: nat, text: Text, i: nat)
    requires EventChannel.CarryText(events, id, n, generation, f, index, offset, text)
    requires ScalarText(text) && (IsTextField(f) <==> index.None?) && i < |events|
    ensures PayloadChecked(events[i].payload)
  {
    var chunks :| Concat(chunks) == text && EventChannel.GoodChunks(chunks, MAX_DELTA_BYTES)
                  && events == EventChannel.DeltaLog(id, n, generation, f, index, offset, chunks);
    PartScalar(chunks, i);
    hide ScalarText, Concat, IsTextField, TextBytes;
    assert events[i] == EventChannel.DeltaEvent(id, n, generation, f, index, offset, chunks, i);
  }
}
