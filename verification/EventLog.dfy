/**
 * The server's log of events and the client's replica of it, over a channel that may lose,
 * repeat and reorder events and snapshots.
 */
module EventLog {
  import opened Wrappers
  import opened JsonText
  import opened JsonSyntax
  import opened ExecutionEvents
  import opened Replica

  // ---------------------------------------------------------------- the meaning of a log

  function Apply(s: ExecutionState, e: Event): ExecutionState {
    var p := e.payload;
    s.(sequence := e.sequence, generation := NextGeneration(s, p), status := NextStatus(s, p),
       stage := NextStage(s, p), completed := NextCompleted(s, p), total := NextTotal(s, p),
       stopReason := NextReason(s, p), draft := NextDraft(s, p).GetOr(s.draft), publicError := None)
  }

  function Fold(s0: ExecutionState, log: seq<Event>): ExecutionState {
    if log == [] then s0 else Apply(Fold(s0, log[..|log| - 1]), log[|log| - 1])
  }

  // The events that the server appends: not a snapshot, numbered, and of the state's generation
  ghost predicate Appended(s: ExecutionState, e: Event) {
    && !e.payload.Snapshot? && !e.payload.AuthLost?
    && e.executionId == s.id.executionId && e.historyId == Some(s.id.historyId) && e.turnId == Some(s.id.turnId)
    && e.sequence == s.sequence + 1
    && e.generation == Some(NextGeneration(s, e.payload))
  }

  // A step that the client can follow: nothing follows a terminal state, and progress does not move back.
  ghost predicate Followable(s: ExecutionState, e: Event) {
    var p := e.payload;
    && Appended(s, e)
    && !IsTerminal(s.status)
    && StatusRank(s.status) <= StatusRank(NextStatus(s, p))
    && !StageBack(s.stage, NextStage(s, p))
    && s.completed <= NextCompleted(s, p) && CountsFit(NextCompleted(s, p), NextTotal(s, p))
    && !TotalChanged(s.total, NextTotal(s, p))
    && NextDraft(s, p).Some?
  }

  /** A legal step also keeps the state fit for a snapshot, and a terminal event ends the execution. */
  ghost predicate Legal(s: ExecutionState, e: Event) {
    && Followable(s, e)
    && (e.payload.Terminal? ==> IsTerminal(e.payload.final))
    && NextTotal(s, e.payload) != Some(0)
    && DraftAccepted(NextDraft(s, e.payload).value)
  }

  ghost predicate Proper(s: ExecutionState) {
    && s.id.historyId != "" && s.id.turnId != ""
    && s.total != Some(0) && CountsFit(s.completed, s.total)
    && DraftAccepted(s.draft) && s.publicError.None?
  }

  ghost predicate LegalLog(s0: ExecutionState, log: seq<Event>) {
    log != [] ==>
      var init := log[..|log| - 1];
      LegalLog(s0, init) && Legal(Fold(s0, init), log[|log| - 1])
  }

  // The initial state of a channel, in front of its first event
  ghost predicate Start(s0: ExecutionState) {
    s0.sequence == 0 && Proper(s0)
  }

  function SnapshotOf(s: ExecutionState): Event {
    Event(s.id.executionId, Some(s.id.historyId), Some(s.id.turnId), s.sequence, Some(s.generation),
          Snapshot(s.status, s.stage, s.completed, s.total, s.stopReason, s.draft))
  }

  /** The public error that a log ends with */
  function LastError(log: seq<Event>): Option<PublicError> {
    if log != [] && log[|log| - 1].payload.Terminal? then log[|log| - 1].payload.error else None
  }

  // ---------------------------------------------------------------- one step

  function Bare(s: ExecutionState): ExecutionState {
    s.(publicError := None)
  }

  /** The client follows the next event of a log exactly when the step is one it can follow. */
  lemma FollowNext(c: ExecutionState, e: Event)
    requires Appended(c, e) && c.id.historyId != "" && c.id.turnId != ""
    ensures Followable(Bare(c), e) ==>
              var r := Reduce(Some(c), e);
              && r.state.Some? && !r.resnapshot && !r.authLost && Bare(r.state.value) == Apply(Bare(c), e)
              && r.state.value.publicError == if LastError([e]).Some? then LastError([e]) else c.publicError
    ensures !Followable(Bare(c), e) ==> Reduce(Some(c), e) == Resnapshot(Some(c))
  {
  }

  lemma LegalKeepsProper(s: ExecutionState, e: Event)
    requires Proper(s) && Legal(s, e)
    ensures Proper(Apply(s, e))
  {
  }

  lemma {:induction false} FoldFacts(s0: ExecutionState, log: seq<Event>)
    requires Start(s0) && LegalLog(s0, log)
    ensures var s := Fold(s0, log); Proper(s) && s.sequence == |log| && s.id == s0.id
  {
    if log != [] {
      var init := log[..|log| - 1];
      FoldFacts(s0, init);
      LegalKeepsProper(Fold(s0, init), log[|log| - 1]);
    }
  }

  lemma {:induction false} LegalPrefix(s0: ExecutionState, log: seq<Event>, n: nat)
    requires LegalLog(s0, log) && n <= |log|
    ensures LegalLog(s0, log[..n])
  {
    if n < |log| {
      LegalPrefix(s0, log[..|log| - 1], n);
      assert log[..|log| - 1][..n] == log[..n];
    } else {
      assert log[..n] == log;
    }
  }

  // The state after the first `n` events
  function At(s0: ExecutionState, log: seq<Event>, n: nat): ExecutionState
    requires n <= |log|
  {
    Fold(s0, log[..n])
  }

  lemma AtFacts(s0: ExecutionState, log: seq<Event>, n: nat)
    requires Start(s0) && LegalLog(s0, log) && n <= |log|
    ensures var s := At(s0, log, n); Proper(s) && s.sequence == n && s.id == s0.id
  {
    LegalPrefix(s0, log, n);
    FoldFacts(s0, log[..n]);
  }

  lemma AtNext(s0: ExecutionState, log: seq<Event>, n: nat)
    requires Start(s0) && LegalLog(s0, log) && n < |log|
    ensures Legal(At(s0, log, n), log[n]) && At(s0, log, n + 1) == Apply(At(s0, log, n), log[n])
  {
    LegalPrefix(s0, log, n + 1);
    assert log[..n + 1][..n] == log[..n];
  }

  // A log that goes on has not ended with an error.
  lemma NoErrorYet(s0: ExecutionState, log: seq<Event>, n: nat)
    requires Start(s0) && LegalLog(s0, log) && n < |log|
    ensures LastError(log[..n]).None?
  {
    if n > 0 {
      AtNext(s0, log, n);
      AtNext(s0, log, n - 1);
    }
  }

  lemma StepForward(s: ExecutionState, e: Event)
    requires Legal(s, e)
    ensures MovesForward(s, Apply(s, e)) && s.generation <= Apply(s, e).generation && !IsTerminal(s.status)
  {
    hide DraftAccepted, NextDraft;
  }

  lemma ForwardTwice(a: ExecutionState, b: ExecutionState, c: ExecutionState)
    requires MovesForward(a, b) && MovesForward(b, c)
    ensures MovesForward(a, c)
  {
  }

  lemma ForwardNone(s: ExecutionState)
    ensures MovesForward(s, s)
  {
  }

  // Along a legal log everything moves forward, and a terminal state is the last one.
  lemma {:induction false} Forward(s0: ExecutionState, log: seq<Event>, m: nat, n: nat)
    requires Start(s0) && LegalLog(s0, log) && m <= n <= |log|
    ensures var a, b := At(s0, log, m), At(s0, log, n);
            && MovesForward(a, b) && a.generation <= b.generation
            && (IsTerminal(a.status) ==> m == n)
    decreases n - m
  {
    hide Apply, Legal, LegalLog, At, MovesForward;
    if m < n {
      Forward(s0, log, m, n - 1);
      AtNext(s0, log, n - 1);
      AtNext(s0, log, m);
      StepForward(At(s0, log, n - 1), log[n - 1]);
      StepForward(At(s0, log, m), log[m]);
      ForwardTwice(At(s0, log, m), At(s0, log, n - 1), At(s0, log, n));
    } else {
      ForwardNone(At(s0, log, m));
    }
  }

  // ---------------------------------------------------------------- delivery

  // What may reach the client: the log's events, snapshots of its prefixes, and once the log has
  // ended the persisted record of its outcome, which carries sequence 0 and generation 0.
  datatype Message = Live(i: nat) | Snap(n: nat) | Persisted(reason: Option<StopReason>) | LostAuth(after: nat)

  predicate Sendable(m: Message, s0: ExecutionState, log: seq<Event>) {
    match m
    case Live(i) => i < |log|
    case Snap(n) => n <= |log|
    case Persisted(_) => IsTerminal(Fold(s0, log).status)
    case LostAuth(_) => true
  }

  ghost predicate AllSendable(ms: seq<Message>, s0: ExecutionState, log: seq<Event>) {
    forall i :: 0 <= i < |ms| ==> Sendable(ms[i], s0, log)
  }

  function PersistedEvent(id: Identity, status: Status, reason: Option<StopReason>): Event {
    Event(id.executionId, Some(id.historyId), Some(id.turnId), 0, Some(0),
          Snapshot(status, None, 0, None, reason, None))
  }

  function Wire(m: Message, s0: ExecutionState, log: seq<Event>): Event
    requires Sendable(m, s0, log)
  {
    match m
    case Live(i) => log[i]
    case Snap(n) => SnapshotOf(At(s0, log, n))
    case Persisted(reason) => PersistedEvent(s0.id, Fold(s0, log).status, reason)
    case LostAuth(after) => Event(s0.id.executionId, None, None, after, None, AuthLost)
  }

  ghost function Deliver(c: Option<ExecutionState>, ms: seq<Message>, s0: ExecutionState,
                         log: seq<Event>): Option<ExecutionState>
    requires AllSendable(ms, s0, log)
  {
    if ms == [] then c
    else Reduce(Deliver(c, ms[..|ms| - 1], s0, log), Wire(ms[|ms| - 1], s0, log)).state
  }

  // The state that the persisted record stands for
  function PersistedState(id: Identity, status: Status, reason: Option<StopReason>): ExecutionState {
    ExecutionState(id, 0, 0, status, None, 0, None, reason, None, None)
  }

  /** The client's state is the log's state at the client's own sequence number, a public error aside. */
  ghost predicate Exact(c: ExecutionState, s0: ExecutionState, log: seq<Event>) {
    c.sequence <= |log| && Bare(c) == At(s0, log, c.sequence)
  }

  /**
   * What the persisted record of the outcome makes of a client: the outcome of a client at generation 0
   * that has seen an event but not the end, or all that a new client knows.
   */
  ghost predicate Told(c: ExecutionState, s0: ExecutionState, log: seq<Event>, reason: Option<StopReason>) {
    var final := Fold(s0, log).status;
    && IsTerminal(final)
    && (|| (0 < c.sequence < |log| && c.generation == 0
            && Bare(c) == At(s0, log, c.sequence).(status := final, stopReason := reason))
        || Bare(c) == PersistedState(s0.id, final, reason))
  }

  // A persisted record among the messages has told the client.
  ghost predicate ToldBy(c: ExecutionState, ms: seq<Message>, s0: ExecutionState, log: seq<Event>) {
    exists k :: 0 <= k < |ms| && ms[k].Persisted? && Told(c, s0, log, ms[k].reason)
  }

  lemma ExactLive(c: ExecutionState, i: nat, s0: ExecutionState, log: seq<Event>)
    requires Start(s0) && LegalLog(s0, log) && i < |log| && Exact(c, s0, log)
    ensures var r := Reduce(Some(c), log[i]).state;
            r.Some? && Exact(r.value, s0, log)
  {
    if c.sequence == i {
      NextTaken(c, i, s0, log);
      AtFacts(s0, log, i + 1);
    } else {
      AtNext(s0, log, i);
      AtFacts(s0, log, i);
      assert Reduce(Some(c), log[i]).state == Some(c);
    }
  }

  // What a snapshot of some state can do to a client
  lemma SnapshotStep(c: ExecutionState, s: ExecutionState)
    ensures var r := Reduce(Some(c), SnapshotOf(s)).state;
            || r == Some(c)
            || (IsTerminal(s.status) && !IsTerminal(c.status) && s.generation >= c.generation
                && s.sequence < c.sequence && r == Some(c.(status := s.status, stopReason := s.stopReason)))
            || (c.sequence < s.sequence && r == Some(Bare(s)))
  {
    hide DraftAccepted, StageBack, StatusRank;
  }

  lemma ExactSnap(c: ExecutionState, n: nat, s0: ExecutionState, log: seq<Event>)
    requires Start(s0) && LegalLog(s0, log) && n <= |log| && Exact(c, s0, log)
    ensures var r := Reduce(Some(c), SnapshotOf(At(s0, log, n))).state;
            r.Some? && Exact(r.value, s0, log)
  {
    hide Reduce, LegalLog, Fold;
    AtFacts(s0, log, n);
    if n < c.sequence {
      Forward(s0, log, n, c.sequence);
    }
    SnapshotStep(c, At(s0, log, n));
  }

  lemma ExactPersisted(c: ExecutionState, reason: Option<StopReason>, s0: ExecutionState, log: seq<Event>)
    requires Start(s0) && LegalLog(s0, log) && IsTerminal(Fold(s0, log).status) && Exact(c, s0, log)
    ensures var r := Reduce(Some(c), PersistedEvent(s0.id, Fold(s0, log).status, reason)).state;
            r.Some? && (Exact(r.value, s0, log) || Told(r.value, s0, log, reason))
  {
    hide Reduce, LegalLog, Fold;
    assert log[..|log|] == log;
    SnapshotStep(c, PersistedState(s0.id, Fold(s0, log).status, reason));
  }

  lemma ToldLive(c: ExecutionState, reason: Option<StopReason>, i: nat, s0: ExecutionState, log: seq<Event>)
    requires Start(s0) && LegalLog(s0, log) && i < |log| && Told(c, s0, log, reason)
    ensures Reduce(Some(c), log[i]).state == Some(c)
  {
    AtNext(s0, log, i);
    AtFacts(s0, log, i);
  }

  lemma ToldSnap(c: ExecutionState, reason: Option<StopReason>, n: nat, s0: ExecutionState, log: seq<Event>)
    requires Start(s0) && LegalLog(s0, log) && n <= |log| && Told(c, s0, log, reason)
    ensures var r := Reduce(Some(c), SnapshotOf(At(s0, log, n))).state;
            r == Some(c) || (r.Some? && Exact(r.value, s0, log))
  {
    hide Reduce, LegalLog, Fold;
    AtFacts(s0, log, n);
    SnapshotStep(c, At(s0, log, n));
  }

  lemma ToldPersisted(c: ExecutionState, reason: Option<StopReason>, again: Option<StopReason>, s0: ExecutionState,
                      log: seq<Event>)
    requires Told(c, s0, log, reason)
    ensures Reduce(Some(c), PersistedEvent(s0.id, Fold(s0, log).status, again)).state == Some(c)
  {
    hide Reduce, Fold;
    SnapshotStep(c, PersistedState(s0.id, Fold(s0, log).status, again));
  }

  // One more message, for a client that agrees with the log
  lemma ExactStep(c: ExecutionState, m: Message, s0: ExecutionState, log: seq<Event>)
    requires Start(s0) && LegalLog(s0, log) && Sendable(m, s0, log) && Exact(c, s0, log)
    ensures var r := Reduce(Some(c), Wire(m, s0, log)).state;
            r.Some? && (Exact(r.value, s0, log) || (m.Persisted? && Told(r.value, s0, log, m.reason)))
  {
    hide Exact, Told, LegalLog, Fold;
    match m
    case Live(i) => ExactLive(c, i, s0, log);
    case Snap(n) => ExactSnap(c, n, s0, log);
    case Persisted(reason) => ExactPersisted(c, reason, s0, log);
    case LostAuth(_) =>
  }

  lemma ToldStep(c: ExecutionState, reason: Option<StopReason>, m: Message, s0: ExecutionState, log: seq<Event>)
    requires Start(s0) && LegalLog(s0, log) && Sendable(m, s0, log) && Told(c, s0, log, reason)
    ensures var r := Reduce(Some(c), Wire(m, s0, log)).state;
            r == Some(c) || (r.Some? && Exact(r.value, s0, log))
  {
    hide Exact, Told, LegalLog, Fold;
    match m
    case Live(i) => ToldLive(c, reason, i, s0, log);
    case Snap(n) => ToldSnap(c, reason, n, s0, log);
    case Persisted(again) => ToldPersisted(c, reason, again, s0, log);
    case LostAuth(_) =>
  }

  lemma FirstMessage(m: Message, s0: ExecutionState, log: seq<Event>)
    requires Start(s0) && LegalLog(s0, log) && Sendable(m, s0, log)
    ensures var r := Reduce(None, Wire(m, s0, log)).state;
            r.Some? ==> Exact(r.value, s0, log) || (m.Persisted? && Told(r.value, s0, log, m.reason))
  {
    match m
    case Live(i) => AtNext(s0, log, i);
    case Snap(n) => AtFacts(s0, log, n);
    case Persisted(_) =>
    case LostAuth(_) =>
  }

  /**
   * Agreement: whatever is lost, repeated or reordered, the client is absent or equal to the log at its own
   * sequence number. Only a delivered record of the outcome can put it ahead of that, and then it shows the
   * outcome of that very record.
   */
  lemma {:induction false} Agreement(ms: seq<Message>, s0: ExecutionState, log: seq<Event>)
    requires Start(s0) && LegalLog(s0, log)
    requires AllSendable(ms, s0, log)
    ensures var c := Deliver(None, ms, s0, log);
            c.Some? ==> Exact(c.value, s0, log) || ToldBy(c.value, ms, s0, log)
    ensures var c := Deliver(None, ms, s0, log);
            (forall m :: m in ms ==> !m.Persisted?) && c.Some? ==> Exact(c.value, s0, log)
  {
    if ms != [] {
      hide Reduce, Exact, Told, LegalLog, Start, Wire, Sendable;
      var init, m := ms[..|ms| - 1], ms[|ms| - 1];
      Agreement(init, s0, log);
      var c := Deliver(None, init, s0, log);
      if c.None? {
        FirstMessage(m, s0, log);
      } else if Exact(c.value, s0, log) {
        ExactStep(c.value, m, s0, log);
      } else {
        var k :| 0 <= k < |init| && init[k].Persisted? && Told(c.value, s0, log, init[k].reason);
        assert ms[k] == init[k];
        ToldStep(c.value, init[k].reason, m, s0, log);
      }
    }
  }

  // The error is the one that the log ends with at the client's sequence number.
  ghost predicate ErrorFrom(c: ExecutionState, log: seq<Event>) {
    c.publicError.Some? ==> c.sequence <= |log| && c.publicError == LastError(log[..c.sequence])
  }

  lemma ErrorLive(c: ExecutionState, i: nat, s0: ExecutionState, log: seq<Event>)
    requires Start(s0) && LegalLog(s0, log) && i < |log| && ErrorFrom(c, log)
    ensures var r := Reduce(Some(c), log[i]).state; r.Some? && ErrorFrom(r.value, log)
  {
    AtNext(s0, log, i);
    AtFacts(s0, log, i);
    NoErrorYet(s0, log, i);
    LiveError(c, log[i]);
    assert LastError(log[..i + 1]) == LastError([log[i]]);
  }

  // What an event can do to the error that a client shows
  lemma LiveError(c: ExecutionState, e: Event)
    requires !e.payload.Snapshot? && !e.payload.AuthLost?
    ensures var r := Reduce(Some(c), e).state;
            || r == Some(c)
            || (r.Some? && e.sequence == c.sequence + 1 && r.value.sequence == e.sequence
                && r.value.publicError == if LastError([e]).Some? then LastError([e]) else c.publicError)
  {
    hide StageBack, StatusRank, NextDraft;
  }

  /** A public error that the client shows is the one that the log ends with at the client's sequence number. */
  lemma {:induction false} PublicError(ms: seq<Message>, s0: ExecutionState, log: seq<Event>)
    requires Start(s0) && LegalLog(s0, log)
    requires AllSendable(ms, s0, log)
    ensures var c := Deliver(None, ms, s0, log); c.Some? ==> ErrorFrom(c.value, log)
  {
    if ms != [] {
      var init, m := ms[..|ms| - 1], ms[|ms| - 1];
      PublicError(init, s0, log);
      var c := Deliver(None, init, s0, log);
      if m.Live? {
        AtNext(s0, log, m.i);
        AtFacts(s0, log, m.i);
        if c.Some? {
          ErrorLive(c.value, m.i, s0, log);
        }
      } else if m.Snap? && c.Some? {
        SnapshotStep(c.value, At(s0, log, m.n));
      } else if m.Persisted? && c.Some? {
        SnapshotStep(c.value, PersistedState(s0.id, Fold(s0, log).status, m.reason));
      }
    }
  }

  // ---------------------------------------------------------------- catching up

  // A snapshot, and the events that follow it up to the `k`-th
  function Resume(n: nat, k: nat): seq<Message>
    requires n <= k
  {
    if n == k then [Snap(n)] else Resume(n, k - 1) + [Live(k - 1)]
  }

  lemma DeliverSnoc(ms: seq<Message>, m: Message, s0: ExecutionState, log: seq<Event>)
    requires AllSendable(ms, s0, log) && Sendable(m, s0, log)
    ensures AllSendable(ms + [m], s0, log)
    ensures Deliver(None, ms + [m], s0, log) == Reduce(Deliver(None, ms, s0, log), Wire(m, s0, log)).state
  {
    assert (ms + [m])[..|ms|] == ms;
  }

  /**
   * A snapshot followed by the remaining events in order reaches every later state of the log. A client that
   * reads the last event shows the error that it carries; a snapshot carries none.
   */
  lemma {:induction false} CatchUp(n: nat, k: nat, s0: ExecutionState, log: seq<Event>)
    requires Start(s0) && LegalLog(s0, log) && n <= k <= |log|
    ensures AllSendable(Resume(n, k), s0, log)
    ensures var c := Deliver(None, Resume(n, k), s0, log);
            && c.Some? && Bare(c.value) == At(s0, log, k)
            && c.value.publicError == if n < k then LastError(log[..k]) else None
    decreases k
  {
    hide Reduce, LegalLog, LastError;
    if n == k {
      FirstSnapshot(n, s0, log);
    } else {
      CatchUp(n, k - 1, s0, log);
      var init := Resume(n, k - 1);
      DeliverSnoc(init, Live(k - 1), s0, log);
      NextTaken(Deliver(None, init, s0, log).value, k - 1, s0, log);
      NoErrorYet(s0, log, k - 1);
    }
  }

  // The first message a client reads, when it is a snapshot
  lemma FreshSnapshot(s: ExecutionState)
    requires Proper(s)
    ensures Reduce(None, SnapshotOf(s)).state == Some(Bare(s))
  {
    hide StageBack, StatusRank;
  }

  lemma FirstSnapshot(n: nat, s0: ExecutionState, log: seq<Event>)
    requires Start(s0) && LegalLog(s0, log) && n <= |log|
    ensures AllSendable([Snap(n)], s0, log)
    ensures Deliver(None, [Snap(n)], s0, log) == Some(At(s0, log, n))
  {
    hide Reduce, LegalLog, Fold;
    AtFacts(s0, log, n);
    FreshSnapshot(At(s0, log, n));
    DeliverSnoc([], Snap(n), s0, log);
    assert [] + [Snap(n)] == [Snap(n)];
  }

  /**
   * A client that is up to date takes the next event without asking for a snapshot, and with it the error that the
   * event carries.
   */
  lemma NextTaken(c: ExecutionState, n: nat, s0: ExecutionState, log: seq<Event>)
    requires Start(s0) && LegalLog(s0, log) && n < |log| && Bare(c) == At(s0, log, n)
    ensures var r := Reduce(Some(c), log[n]);
            && r.state.Some? && !r.resnapshot && !r.authLost && Bare(r.state.value) == At(s0, log, n + 1)
            && r.state.value.publicError
               == if LastError(log[..n + 1]).Some? then LastError(log[..n + 1]) else c.publicError
  {
    AtNext(s0, log, n);
    AtFacts(s0, log, n);
    FollowNext(c, log[n]);
  }

  /** A client that is behind takes a newer snapshot of the same log without asking again. */
  lemma SnapshotTaken(c: ExecutionState, n: nat, s0: ExecutionState, log: seq<Event>)
    requires Start(s0) && LegalLog(s0, log) && n <= |log|
    requires c.sequence <= n && Bare(c) == At(s0, log, c.sequence)
    ensures var r := Reduce(Some(c), SnapshotOf(At(s0, log, n)));
            r.state.Some? && !r.resnapshot && !r.authLost && Bare(r.state.value) == At(s0, log, n)
  {
    AtFacts(s0, log, c.sequence);
    AtFacts(s0, log, n);
    Forward(s0, log, c.sequence, n);
  }

  /**
   * A client that reconnects after the channel is gone learns the outcome from the persisted
   * record exactly when it knows the outcome already, or has seen an event but no draft reset.
   * After a reset, or at sequence 0, the record is dropped and no snapshot is requested.
   */
  lemma PersistedOutcome(c: ExecutionState, reason: Option<StopReason>, s0: ExecutionState, log: seq<Event>)
    requires Start(s0) && LegalLog(s0, log) && IsTerminal(Fold(s0, log).status) && Exact(c, s0, log)
    requires !IsTerminal(c.status)
    ensures var r := Reduce(Some(c), PersistedEvent(s0.id, Fold(s0, log).status, reason));
            && !r.resnapshot && !r.authLost && r.state.Some?
            && (IsTerminal(r.state.value.status) <==> c.generation == 0 && c.sequence > 0)
            && (!IsTerminal(r.state.value.status) ==> r.state == Some(c))
  {
    AtFacts(s0, log, c.sequence);
  }

  /**
   * A client that agrees with the log asks for a snapshot exactly when an event runs ahead of it, or when it has seen
   * the end and an older snapshot of the same generation arrives. Asking changes nothing.
   */
  lemma AsksExactly(c: ExecutionState, m: Message, s0: ExecutionState, log: seq<Event>)
    requires Start(s0) && LegalLog(s0, log) && Sendable(m, s0, log) && Exact(c, s0, log)
    ensures var r := Reduce(Some(c), Wire(m, s0, log));
            && (r.resnapshot <==> Ahead(c, m) || Belated(c, m, s0, log))
            && (r.authLost <==> m.LostAuth?)
            && (r.resnapshot || r.authLost ==> r.state == Some(c))
  {
    hide LegalLog, Fold, Wire, Reduce, Exact, At;
    match m
    case Live(i) => AsksLive(c, i, s0, log);
    case Snap(n) => AsksSnap(c, n, s0, log);
    case Persisted(reason) => AsksPersisted(c, reason, s0, log);
    case LostAuth(after) => AsksAuth(c, after, s0, log);
  }

  predicate Ahead(c: ExecutionState, m: Message) {
    m.Live? && m.i > c.sequence
  }

  predicate Belated(c: ExecutionState, m: Message, s0: ExecutionState, log: seq<Event>)
    requires Sendable(m, s0, log)
  {
    m.Snap? && m.n < c.sequence && IsTerminal(c.status) && At(s0, log, m.n).generation == c.generation
  }

  lemma AsksAuth(c: ExecutionState, after: nat, s0: ExecutionState, log: seq<Event>)
    ensures Reduce(Some(c), Wire(LostAuth(after), s0, log)) == Reduced(Some(c), false, true)
  {
  }

  lemma AsksLive(c: ExecutionState, i: nat, s0: ExecutionState, log: seq<Event>)
    requires Start(s0) && LegalLog(s0, log) && i < |log| && Exact(c, s0, log)
    ensures var r := Reduce(Some(c), Wire(Live(i), s0, log));
            (r.resnapshot <==> i > c.sequence) && !r.authLost && (r.resnapshot ==> r.state == Some(c))
  {
    if i == c.sequence {
      NextTaken(c, i, s0, log);
    }
    AtNext(s0, log, i);
    AtFacts(s0, log, i);
    AtFacts(s0, log, c.sequence);
  }

  lemma AsksSnap(c: ExecutionState, n: nat, s0: ExecutionState, log: seq<Event>)
    requires Start(s0) && LegalLog(s0, log) && n <= |log| && Exact(c, s0, log)
    ensures var r := Reduce(Some(c), Wire(Snap(n), s0, log));
            && (r.resnapshot <==> Belated(c, Snap(n), s0, log)) && !r.authLost
            && (r.resnapshot ==> r.state == Some(c))
  {
    if c.sequence <= n {
      SnapshotTaken(c, n, s0, log);
    } else {
      AtFacts(s0, log, c.sequence);
      AtFacts(s0, log, n);
      Forward(s0, log, n, c.sequence);
    }
  }

  lemma AsksPersisted(c: ExecutionState, reason: Option<StopReason>, s0: ExecutionState, log: seq<Event>)
    requires Start(s0) && LegalLog(s0, log) && IsTerminal(Fold(s0, log).status) && Exact(c, s0, log)
    ensures var r := Reduce(Some(c), Wire(Persisted(reason), s0, log)); !r.resnapshot && !r.authLost
  {
    if IsTerminal(c.status) {
      Forward(s0, log, c.sequence, |log|);
      AtFacts(s0, log, c.sequence);
      assert log[..|log|] == log;
    } else {
      PersistedOutcome(c, reason, s0, log);
    }
  }

  /** A client that has no state yet asks for a snapshot when it is sent an event. */
  lemma AsksFirst(m: Message, s0: ExecutionState, log: seq<Event>)
    requires Start(s0) && LegalLog(s0, log) && Sendable(m, s0, log)
    ensures var r := Reduce(None, Wire(m, s0, log));
            && (r.resnapshot <==> m.Live?) && (r.authLost <==> m.LostAuth?)
            && (r.state.Some? <==> m.Snap? || m.Persisted?)
  {
    match m
    case Live(i) => AtNext(s0, log, i);
    case Snap(n) => AtFacts(s0, log, n);
    case Persisted(_) =>
    case LostAuth(_) =>
  }

  // ---------------------------------------------------------------- an outcome that is lost

  const RUN := Identity("e", "h", "t")

  const BEGUN := ExecutionState(RUN, 0, 0, Running, None, 0, None, None, None, None)

  // A report is begun again, and the execution succeeds.
  function RetriedLog(): seq<Event> {
    [Event("e", Some("h"), Some("t"), 1, Some(1), DraftReset),
     Event("e", Some("h"), Some("t"), 2, Some(1), Terminal(Succeeded, None))]
  }

  // The client that has seen the first event of it
  function Retrying(): ExecutionState {
    BEGUN.(sequence := 1, generation := 1)
  }

  /**
   * The outcome can be lost: a client that was cut off after a draft reset, and comes back after the
   * end, drops the persisted outcome, keeps showing a running execution, and does not ask again.
   */
  lemma OutcomeLost(reason: Option<StopReason>)
    ensures Start(BEGUN) && LegalLog(BEGUN, RetriedLog()) && Fold(BEGUN, RetriedLog()).status == Succeeded
    ensures At(BEGUN, RetriedLog(), 1) == Retrying() && Exact(Retrying(), BEGUN, RetriedLog())
    ensures Retrying().status == Running
    ensures Reduce(Some(Retrying()), PersistedEvent(RUN, Succeeded, reason)) == Keep(Some(Retrying()))
  {
    var log := RetriedLog();
    assert log[..1] == [log[0]] && log[..1][..0] == [] && log[..2] == log;
    assert Fold(BEGUN, []) == BEGUN;
    assert LegalLog(BEGUN, []);
    assert Fold(BEGUN, log[..1]) == Retrying();
    assert LegalLog(BEGUN, log[..1]);
  }
}
