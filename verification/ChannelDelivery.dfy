/** From the server's calls to the client's state: which calls keep the log legal, and what a subscriber sees. */
module ChannelDelivery {
  import opened Wrappers
  import opened JsonText
  import opened JsonSyntax
  import opened ExecutionEvents
  import opened Replica
  import opened DraftLedger
  import opened EventLog
  import opened EventChannel

  // ---------------------------------------------------------------- legal calls

  lemma LegalAppend(s0: ExecutionState, log: seq<Event>, e: Event)
    ensures LegalLog(s0, log + [e]) <==> LegalLog(s0, log) && Legal(Fold(s0, log), e)
  {
    assert (log + [e])[..|log|] == log;
  }

  // Whether one more event keeps the log legal depends on the channel's values alone.
  lemma LegalView(id: Identity, n: nat, st: ChannelState, l: Ledger, d: Draft, s0: ExecutionState, log: seq<Event>,
                  e: Event)
    requires Faithful(id, n, st, l, d, s0, log) && LegalLog(s0, log) && Start(s0)
    ensures Proper(View(id, n, st, l, d))
    ensures LegalLog(s0, log + [e]) <==> Legal(View(id, n, st, l, d), e)
  {
    hide Balanced, Appendings, Legal;
    FoldFacts(s0, log);
    LegalAppend(s0, log, e);
  }

  /** A stage change keeps the log legal exactly when the stage does not move back. */
  lemma StageLegal(id: Identity, n: nat, st: ChannelState, l: Ledger, d: Draft, s0: ExecutionState,
                   log: seq<Event>, value: Stage)
    requires Faithful(id, n, st, l, d, s0, log) && !IsTerminal(st.status)
    requires LegalLog(s0, log) && Start(s0)
    ensures var st' := st.(stage := Some(value));
            LegalLog(s0, log + [EventOf(id, n + 1, st.generation, ProgressPayload(st'))])
            <==> !StageBack(st.stage, Some(value))
  {
    hide LegalLog, Faithful, DraftAccepted;
    LegalView(id, n, st, l, d, s0, log, EventOf(id, n + 1, st.generation, ProgressPayload(st.(stage := Some(value)))));
  }

  /** A task count keeps the log legal exactly when it does not decrease and the total stays. */
  lemma ProgressLegal(id: Identity, n: nat, st: ChannelState, l: Ledger, d: Draft, s0: ExecutionState,
                      log: seq<Event>, done: nat, all: nat)
    requires Faithful(id, n, st, l, d, s0, log) && !IsTerminal(st.status)
    requires LegalLog(s0, log) && Start(s0) && done <= all && all >= 1
    ensures var st' := st.(completed := done, total := Some(all));
            LegalLog(s0, log + [EventOf(id, n + 1, st.generation, ProgressPayload(st'))])
            <==> st.completed <= done && (st.total.Some? ==> st.total.value == all)
  {
    hide LegalLog, Faithful, DraftAccepted;
    LegalView(id, n, st, l, d, s0, log, EventOf(id, n + 1, st.generation,
                                                ProgressPayload(st.(completed := done, total := Some(all)))));
  }

  /** A status change in rank order keeps the log legal; the channel refuses every other one. */
  lemma StatusLegal(id: Identity, n: nat, st: ChannelState, l: Ledger, d: Draft, s0: ExecutionState, log: seq<Event>,
                    status: Status, reason: Option<StopReason>)
    requires Faithful(id, n, st, l, d, s0, log) && !IsTerminal(st.status) && !IsTerminal(status)
    requires LegalLog(s0, log) && Start(s0)
    ensures LegalLog(s0, log + [EventOf(id, n + 1, st.generation, StatusPayload(status, reason))])
            <==> StatusRank(st.status) <= StatusRank(status)
  {
    hide LegalLog, Faithful, DraftAccepted;
    LegalView(id, n, st, l, d, s0, log, EventOf(id, n + 1, st.generation, StatusPayload(status, reason)));
  }

  /** A draft reset keeps the log legal. */
  lemma ResetLegal(id: Identity, n: nat, st: ChannelState, l: Ledger, d: Draft, s0: ExecutionState, log: seq<Event>)
    requires Faithful(id, n, st, l, d, s0, log) && !IsTerminal(st.status)
    requires LegalLog(s0, log) && Start(s0)
    ensures LegalLog(s0, log + [EventOf(id, n + 1, st.generation + 1, DraftReset)])
  {
    hide LegalLog, Faithful, ScalarDraft, TypedDraft;
    LegalView(id, n, st, l, d, s0, log, EventOf(id, n + 1, st.generation + 1, DraftReset));
  }

  /** The final event keeps the log legal, and it is the last one that can. */
  lemma FinishLegal(id: Identity, n: nat, st: ChannelState, l: Ledger, d: Draft, s0: ExecutionState, log: seq<Event>,
                    final: Status, error: Option<PublicError>, after: Event)
    requires Faithful(id, n, st, l, d, s0, log) && !IsTerminal(st.status) && IsTerminal(final)
    requires LegalLog(s0, log) && Start(s0)
    ensures var ended := log + [EventOf(id, n + 1, st.generation, Terminal(final, error))];
            LegalLog(s0, ended) && !LegalLog(s0, ended + [after])
  {
    hide LegalLog, ScalarDraft, TypedDraft, Balanced, Appendings;
    var e := EventOf(id, n + 1, st.generation, Terminal(final, error));
    LegalView(id, n, st, l, d, s0, log, e);
    LegalAppend(s0, log + [e], after);
    FoldAppend(s0, log, e);
  }

  lemma FoldAppend(s0: ExecutionState, log: seq<Event>, e: Event)
    ensures Fold(s0, log + [e]) == Apply(Fold(s0, log), e)
  {
    assert (log + [e])[..|log|] == log;
  }

  // ---------------------------------------------------------------- legal deltas

  ghost predicate GoodDraft(d: Draft) {
    TypedDraft(d) && ScalarDraft(d) && NoEmptyLists(d) && DraftBytes(d) <= MAX_DRAFT_BYTES
  }

  lemma GrowGood(d: Draft, f: Field, index: Option<nat>, offset: nat, text: Text)
    requires Grow(d, f, index, offset, text).Some? && GoodDraft(d) && ScalarText(text)
    requires IsTextField(f) <==> index.None?
    requires DraftBytes(d) + TextBytes(text) <= MAX_DRAFT_BYTES
    ensures GoodDraft(Grow(d, f, index, offset, text).value)
    ensures DraftBytes(Grow(d, f, index, offset, text).value) == DraftBytes(d) + TextBytes(text)
  {
    GrowCounts(d, f, index, offset, text);
    GrowShape(d, f, index, offset, text);
    GrowScalar(d, f, index, offset, text);
  }

  lemma ScalarParts(a: Text, b: Text)
    requires ScalarText(a + b)
    ensures ScalarText(a) && ScalarText(b)
  {
    forall i | 0 <= i < |a|
      ensures IsScalar(a[i])
    {
      assert a[i] == (a + b)[i];
    }
    forall i | 0 <= i < |b|
      ensures IsScalar(b[i])
    {
      assert b[i] == (a + b)[|a| + i];
    }
  }

  // A chunk on top of a state whose draft is good
  lemma ChunkLegal(s: ExecutionState, di: Draft, id: Identity, f: Field, index: Option<nat>, offset: nat, c: Text)
    requires Proper(s) && s.id == id && !IsTerminal(s.status) && CurrentDraft(s) == di
    requires GoodDraft(di) && ScalarText(c) && (IsTextField(f) <==> index.None?)
    requires DraftBytes(di) + TextBytes(c) <= MAX_DRAFT_BYTES && Grow(di, f, index, offset, c).Some?
    ensures Legal(s, EventOf(id, s.sequence + 1, s.generation, TextDelta(f, index, offset, c)))
  {
    GrowGood(di, f, index, offset, c);
  }

  /** The events of a delta that fits under the cap keep the log legal. */
  lemma {:induction false} DeltaLegal(s: ExecutionState, d: Draft, s0: ExecutionState, log: seq<Event>, id: Identity,
                                      f: Field, index: Option<nat>, offset: nat, chunks: seq<Text>, d': Draft)
    requires Start(s0) && LegalLog(s0, log) && Chunked(s, d, s0, log, 0, d) && Delivering(s, d, id)
    requires !IsTerminal(s.status) && GoodDraft(d) && (IsTextField(f) <==> index.None?)
    requires ScalarText(Concat(chunks)) && DraftBytes(d) + TextBytes(Concat(chunks)) <= MAX_DRAFT_BYTES
    requires if chunks == [] then d' == d else Grow(d, f, index, offset, Concat(chunks)) == Some(d')
    ensures LegalLog(s0, log + DeltaLog(id, s.sequence, s.generation, f, index, offset, chunks))
    decreases |chunks|
  {
    hide *;
    if chunks == [] {
      EmptyDelta(log, id, s.sequence, s.generation, f, index, offset);
    } else {
      var k := |chunks| - 1;
      var init, c := chunks[..k], chunks[k];
      assert chunks == init + [c];
      ConcatSnoc(init, c);
      ScalarParts(Concat(init), c);
      TextBytesConcat(Concat(init), c);
      var di := PrefixDraft(d, f, index, offset, init, c, d');
      DeltaLegal(s, d, s0, log, id, f, index, offset, init, di);
      DeltaFold(s, d, s0, log, id, f, index, offset, init, di);
      PrefixGood(d, f, index, offset, init, di);
      var before := log + DeltaLog(id, s.sequence, s.generation, f, index, offset, init);
      FoldFacts(s0, before);
      PrefixState(s, d, s0, before, k, di, id);
      ChunkLegal(Fold(s0, before), di, id, f, index, offset + |Concat(init)|, c);
      LegalAppend(s0, before, EventOf(id, s.sequence + k + 1, s.generation,
                                      TextDelta(f, index, offset + |Concat(init)|, c)));
      DeltaLogLast(log, id, s.sequence, s.generation, f, index, offset, chunks);
    }
  }

  /** A delta that the channel takes keeps the log legal. */
  lemma TakenDeltaLegal(id: Identity, n: nat, st: ChannelState, l: Ledger, d: Draft, s0: ExecutionState,
                        log: seq<Event>,
                        f: Field, index: Option<nat>, offset: nat, text: Text, events: seq<Event>, l': Ledger,
                          d': Draft)
    requires Faithful(id, n, st, l, d, s0, log) && LegalLog(s0, log) && Start(s0) && !IsTerminal(st.status)
    requires text != [] && ScalarText(text) && (IsTextField(f) <==> index.None?)
    requires Grow(d, f, index, offset, text) == Some(d') && Balanced(l', d')
    requires CarryText(events, id, n, st.generation, f, index, offset, text)
    ensures LegalLog(s0, log + events)
  {
    hide *;
    var chunks := Carried(events, id, n, st.generation, f, index, offset, text);
    ChunksNonEmpty(chunks);
    DeltaStart(id, n, st, l, d, s0, log);
    ViewFields(id, n, st, l, d);
    BalancedGood(l, d);
    BalancedGood(l', d');
    FaithfulBalanced(id, n, st, l, d, s0, log);
    GrowCounts(d, f, index, offset, text);
    DeltaLegal(View(id, n, st, l, d), d, s0, log, id, f, index, offset, chunks, d');
  }

  lemma Carried(events: seq<Event>, id: Identity, n: nat, generation: nat, f: Field, index: Option<nat>, offset: nat,
                text: Text) returns (chunks: seq<Text>)
    requires CarryText(events, id, n, generation, f, index, offset, text)
    ensures Concat(chunks) == text && events == DeltaLog(id, n, generation, f, index, offset, chunks)
  {
    chunks :| Concat(chunks) == text && GoodChunks(chunks, MAX_DELTA_BYTES)
              && events == DeltaLog(id, n, generation, f, index, offset, chunks);
  }

  lemma BalancedGood(l: Ledger, d: Draft)
    ensures Balanced(l, d) ==> GoodDraft(d) && TypedDraft(d) && NoEmptyLists(d) && DraftBytes(d) <= MAX_DRAFT_BYTES
  {
  }

  lemma FaithfulBalanced(id: Identity, n: nat, st: ChannelState, l: Ledger, d: Draft, s0: ExecutionState,
                         log: seq<Event>)
    requires Faithful(id, n, st, l, d, s0, log)
    ensures Balanced(l, d) && View(id, n, st, l, d).status == st.status
  {
  }

  lemma PrefixGood(d: Draft, f: Field, index: Option<nat>, offset: nat, init: seq<Text>, di: Draft)
    requires GoodDraft(d) && ScalarText(Concat(init)) && (IsTextField(f) <==> index.None?)
    requires DraftBytes(d) + TextBytes(Concat(init)) <= MAX_DRAFT_BYTES
    requires if init == [] then di == d else Grow(d, f, index, offset, Concat(init)) == Some(di)
    ensures GoodDraft(di) && DraftBytes(di) == DraftBytes(d) + TextBytes(Concat(init))
  {
    if init != [] {
      GrowGood(d, f, index, offset, Concat(init));
    }
  }

  lemma PrefixState(s: ExecutionState, d: Draft, s0: ExecutionState, log: seq<Event>, k: nat, di: Draft, id: Identity)
    requires Chunked(s, d, s0, log, k, di) && Delivering(s, d, id)
    ensures var s' := Fold(s0, log);
            && s'.id == id && s'.status == s.status && CurrentDraft(s') == di
            && s'.sequence == s.sequence + k && s'.generation == s.generation
  {
  }

  // ---------------------------------------------------------------- a subscriber

  // Reduces events until one asks for a snapshot.
  ghost function Receive(c: ExecutionState, events: seq<Event>): Option<ExecutionState> {
    if events == [] then Some(c)
    else
      match Receive(c, events[..|events| - 1])
      case None => None
      case Some(m) =>
        var r := Reduce(Some(m), events[|events| - 1]);
        if r.resnapshot || r.authLost then None else r.state
  }

  lemma ReceiveNext(c: ExecutionState, events: seq<Event>, e: Event, m: ExecutionState)
    requires Receive(c, events) == Some(m)
    ensures var r := Reduce(Some(m), e);
            !r.resnapshot && !r.authLost ==> Receive(c, events + [e]) == r.state
  {
    assert (events + [e])[..|events|] == events;
  }

  lemma {:induction false} ReceiveTail(c: ExecutionState, after: nat, k: nat, s0: ExecutionState, log: seq<Event>)
    requires Start(s0) && LegalLog(s0, log) && after <= k <= |log| && Bare(c) == At(s0, log, after)
    ensures var r := Receive(c, log[after..k]);
            && r.Some? && Bare(r.value) == At(s0, log, k)
            && r.value.publicError
               == if after < k && LastError(log[..k]).Some? then LastError(log[..k]) else c.publicError
    decreases k
  {
    hide Reduce, LegalLog, Start, At, Bare, LastError;
    if after < k {
      ReceiveTail(c, after, k - 1, s0, log);
      var m := Receive(c, log[after..k - 1]).value;
      ReceiveNext(c, log[after..k - 1], log[k - 1], m);
      assert log[after..k] == log[after..k - 1] + [log[k - 1]];
      NextTaken(m, k - 1, s0, log);
      NoErrorYet(s0, log, k - 1);
    }
  }

  /**
   * A subscriber in step with the log stays in step: what it reads next, be it the missing events
   * or a snapshot because the ring has moved on, brings it to the newest state, and it never has
   * to ask for a snapshot. From the events it also learns the public error that the log ends with.
   */
  lemma SubscriberInStep(c: ExecutionState, after: nat, events: seq<Event>, s0: ExecutionState, log: seq<Event>)
    requires Start(s0) && LegalLog(s0, log) && after <= |log| && Bare(c) == At(s0, log, after)
    requires events == log[after..] || events == [SnapshotOf(Fold(s0, log))]
    ensures var r := Receive(c, events);
            && r.Some? && Bare(r.value) == Fold(s0, log)
            && (events == log[after..] && after < |log| && LastError(log).Some? ==>
                  r.value.publicError == LastError(log))
  {
    assert log[..|log|] == log;
    if events == log[after..] {
      ReceiveTail(c, after, |log|, s0, log);
      assert log[after..|log|] == log[after..];
    } else {
      AtFacts(s0, log, after);
      SnapshotTaken(c, |log|, s0, log);
      assert events[..0] == [];
    }
  }
}
