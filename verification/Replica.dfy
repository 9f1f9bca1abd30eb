/** The browser's replica: one reduction step, and what it keeps for every sequence of events. */
module Replica {
  import opened Wrappers
  import opened JsonText
  import opened JsonSyntax
  import opened ExecutionEvents

  const MAX_DRAFT_BYTES: nat := 5 * 1024 * 1024
  const MAX_DELTA_BYTES: nat := 16 * 1024

  function TextBytes(t: Text): nat {
    if t == [] then 0 else TextBytes(t[..|t| - 1]) + Utf8Size(t[|t| - 1])
  }

  function LinesBytes(lines: seq<Text>): nat {
    if lines == [] then 0 else LinesBytes(lines[..|lines| - 1]) + TextBytes(lines[|lines| - 1])
  }

  // The fields in the order of the report
  function FieldAt(k: nat): Field
    requires k < 6
  {
    match k
    case 0 => Title
    case 1 => ExecutiveSummary
    case 2 => KeyFindings
    case 3 => TrendJudgment
    case 4 => RootCauses
    case _ => ActionSuggestions
  }

  function FieldIndex(f: Field): (k: nat)
    ensures k < 6 && FieldAt(k) == f
  {
    match f
    case Title => 0
    case ExecutiveSummary => 1
    case KeyFindings => 2
    case TrendJudgment => 3
    case RootCauses => 4
    case ActionSuggestions => 5
  }

  function FieldBytes(d: Draft, f: Field): nat {
    TextBytes(TextOf(d, f)) + LinesBytes(LinesOf(d, f))
  }

  function BytesUpTo(d: Draft, k: nat): nat
    requires k <= 6
  {
    if k == 0 then 0 else BytesUpTo(d, k - 1) + FieldBytes(d, FieldAt(k - 1))
  }

  function DraftBytes(d: Draft): nat {
    BytesUpTo(d, 6)
  }

  ghost predicate ScalarDraft(d: Draft) {
    && (forall f :: f in d.texts ==> ScalarText(d.texts[f]))
    && (forall f, i :: f in d.lists && 0 <= i < |d.lists[f]| ==> ScalarText(d.lists[f][i]))
  }

  predicate TypedDraft(d: Draft) {
    && (forall f :: f in d.texts ==> IsTextField(f))
    && (forall f :: f in d.lists ==> !IsTextField(f))
  }

  // `reportDraft` accepts the draft of a snapshot.
  ghost predicate DraftAccepted(d: Option<Draft>) {
    d.Some? ==> TypedDraft(d.value) && ScalarDraft(d.value) && DraftBytes(d.value) <= MAX_DRAFT_BYTES
  }

  function Keep(current: Option<ExecutionState>): Reduced {
    Reduced(current, false, false)
  }

  function Resnapshot(current: Option<ExecutionState>): Reduced {
    Reduced(current, true, false)
  }

  predicate StageBack(current: Option<Stage>, next: Option<Stage>) {
    current.Some? && (next.None? || StageIndex(next.value) < StageIndex(current.value))
  }

  predicate TotalChanged(current: Option<nat>, next: Option<nat>) {
    current.Some? && next != current
  }

  predicate CountsFit(completed: nat, total: Option<nat>) {
    total.Some? ==> completed <= total.value
  }

  ghost function ReduceSnapshot(current: Option<ExecutionState>, e: Event, id: Identity, generation: nat): Reduced
    requires e.payload.Snapshot?
  {
    var p := e.payload;
    if current.Some? && generation < current.value.generation then Keep(current)
    else if p.total == Some(0) || !CountsFit(p.completed, p.total) then Resnapshot(current)
    else if current.Some? && e.sequence < current.value.sequence then
      var c := current.value;
      if IsTerminal(p.status) && !IsTerminal(c.status) then
        Keep(Some(c.(status := p.status, stopReason := p.stopReason)))
      else if IsTerminal(c.status) && p.status != c.status then Resnapshot(current)
      else Keep(current)
    else if current.Some? && e.sequence == current.value.sequence then Keep(current)
    else if current.Some? && IsTerminal(current.value.status) && p.status != current.value.status then
      Resnapshot(current)
    else if current.Some? && generation == current.value.generation
            && (|| StatusRank(p.status) < StatusRank(current.value.status)
                || StageBack(current.value.stage, p.stage)
                || p.completed < current.value.completed
                || TotalChanged(current.value.total, p.total))
    then Resnapshot(current)
    else if !DraftAccepted(p.draft) then Resnapshot(current)
    else
      Keep(Some(ExecutionState(id, e.sequence, generation, p.status, p.stage,
                               p.completed, p.total, p.stopReason, p.draft, None)))
  }

  // Fields of an event that is not a snapshot; absent ones keep the current value.
  function NextStatus(c: ExecutionState, p: Payload): Status {
    match p
    case Progress(s, _, _, _, _) => if s.Some? then s.value else c.status
    case Terminal(s, _) => s
    case _ => c.status
  }

  function NextStage(c: ExecutionState, p: Payload): Option<Stage> {
    if p.Progress? && p.newStage.Some? then p.newStage.value else c.stage
  }

  function NextCompleted(c: ExecutionState, p: Payload): nat {
    if p.Progress? && p.newCompleted.Some? then p.newCompleted.value else c.completed
  }

  function NextTotal(c: ExecutionState, p: Payload): Option<nat> {
    if p.Progress? && p.newTotal.Some? then p.newTotal.value else c.total
  }

  function NextReason(c: ExecutionState, p: Payload): Option<StopReason> {
    if p.Progress? && p.reason.Some? then p.reason else c.stopReason
  }

  function NextGeneration(c: ExecutionState, p: Payload): nat {
    if p.DraftReset? then c.generation + 1 else c.generation
  }

  function CurrentDraft(c: ExecutionState): Draft {
    if c.draft.Some? then c.draft.value else EMPTY_DRAFT
  }

  // `None` when a delta does not continue the draft
  function NextDraft(c: ExecutionState, p: Payload): Option<Option<Draft>> {
    match p
    case TextDelta(f, index, offset, text) =>
      (match Grow(CurrentDraft(c), f, index, offset, text)
       case Some(d) => Some(Some(d))
       case None => None)
    case DraftReset => Some(None)
    case Terminal(_, _) => Some(None)
    case _ => Some(c.draft)
  }

  function ReduceLive(c: ExecutionState, e: Event, generation: nat): Reduced
    requires !e.payload.Snapshot? && !e.payload.AuthLost?
  {
    var p := e.payload;
    var current := Some(c);
    if e.sequence <= c.sequence then Keep(current)
    else if e.sequence != c.sequence + 1 then Resnapshot(current)
    else if IsTerminal(c.status) then Resnapshot(current)
    else if generation != NextGeneration(c, p) then Resnapshot(current)
    else if StatusRank(NextStatus(c, p)) < StatusRank(c.status) then Resnapshot(current)
    else if NextCompleted(c, p) < c.completed || !CountsFit(NextCompleted(c, p), NextTotal(c, p)) then
      Resnapshot(current)
    else if TotalChanged(c.total, NextTotal(c, p)) then Resnapshot(current)
    else if StageBack(c.stage, NextStage(c, p)) then Resnapshot(current)
    else if NextDraft(c, p).None? then Resnapshot(current)
    else
      Keep(Some(c.(sequence := e.sequence, generation := generation, status := NextStatus(c, p),
                   stage := NextStage(c, p), completed := NextCompleted(c, p), total := NextTotal(c, p),
                   stopReason := NextReason(c, p), draft := NextDraft(c, p).value,
                   publicError := if p.Terminal? && p.error.Some? then p.error else c.publicError)))
  }

  ghost function Reduce(current: Option<ExecutionState>, e: Event): Reduced {
    if e.payload.AuthLost? then Reduced(current, false, true)
    else if e.historyId.None? || e.turnId.None? || e.generation.None?
            || e.historyId == Some("") || e.turnId == Some("") then Resnapshot(current)
    else
      var id := Identity(e.executionId, e.historyId.value, e.turnId.value);
      if current.Some? && current.value.id != id then Resnapshot(current)
      else if e.payload.Snapshot? then ReduceSnapshot(current, e, id, e.generation.value)
      else if current.None? then Resnapshot(None)
      else ReduceLive(current.value, e, e.generation.value)
  }

  // ---------------------------------------------------------------- decoded events

  /** What `decodeExecutionEvent` has checked of an event before it is reduced. */
  ghost predicate WireChecked(e: Event, id: Identity) {
    && e.executionId == id.executionId
    && (e.payload.AuthLost? || (e.historyId == Some(id.historyId) && e.turnId == Some(id.turnId) && e.generation.Some?))
    && PayloadChecked(e.payload)
  }

  ghost predicate PayloadChecked(p: Payload) {
    match p
    case Snapshot(status, stage, completed, total, reason, draft) =>
      && total != Some(0) && CountsFit(completed, total)
      && (status.Stopping? ==> reason.Some?)
      && (IsTerminal(status) ==> draft.None?)
      && DraftAccepted(draft)
    case Progress(status, reason, stage, completed, total) =>
      && (status.Some? ==> !IsTerminal(status.value))
      && (status == Some(Stopping) ==> reason.Some?)
      && total != Some(Some(0))
      && (completed.Some? && total.Some? ==> CountsFit(completed.value, total.value))
    case TextDelta(f, index, _, text) =>
      && text != [] && ScalarText(text) && TextBytes(text) <= MAX_DELTA_BYTES
      && (IsTextField(f) <==> index.None?)
    case DraftReset => true
    case Terminal(status, _) => IsTerminal(status)
    case AuthLost => true
  }

  ghost predicate ReplicaInv(c: ExecutionState) {
    && CountsFit(c.completed, c.total)
    && (c.status.Stopping? ==> c.stopReason.Some?)
  }

  // What one reduction may change
  ghost predicate Advances(c: ExecutionState, c': ExecutionState) {
    && c'.id == c.id
    && c.sequence <= c'.sequence
    && c.generation <= c'.generation
    && (IsTerminal(c.status) ==> c'.status == c.status)
  }

  ghost predicate MovesForward(c: ExecutionState, c': ExecutionState) {
    && StatusRank(c.status) <= StatusRank(c'.status)
    && !StageBack(c.stage, c'.stage)
    && c.completed <= c'.completed
    && !TotalChanged(c.total, c'.total)
  }

  lemma ReduceKeeps(current: Option<ExecutionState>, e: Event, id: Identity)
    requires WireChecked(e, id) && (current.Some? ==> ReplicaInv(current.value))
    ensures var r := Reduce(current, e);
            && (r.state.Some? ==> ReplicaInv(r.state.value))
            && (current.Some? ==>
                  && r.state.Some? && Advances(current.value, r.state.value)
                  && (|| MovesForward(current.value, r.state.value)
                      || (e.payload.Snapshot? && current.value.generation < r.state.value.generation)))
            && (r.resnapshot || r.authLost ==> r.state == current)
  {
  }

  ghost function ReduceAll(current: Option<ExecutionState>, events: seq<Event>): Option<ExecutionState> {
    if events == [] then current
    else Reduce(ReduceAll(current, events[..|events| - 1]), events[|events| - 1]).state
  }

  ghost predicate AllWireChecked(events: seq<Event>, id: Identity) {
    forall i :: 0 <= i < |events| ==> WireChecked(events[i], id)
  }

  /**
   * Without trusting the server: for every sequence of decoded events, however lost, repeated
   * or reordered, sequence and generation never decrease, a terminal status stays, the counts
   * stay consistent, and progress moves back only across a newer draft generation.
   */
  lemma {:induction false} ReplicaInvariants(current: Option<ExecutionState>, events: seq<Event>, id: Identity)
    requires AllWireChecked(events, id) && (current.Some? ==> ReplicaInv(current.value))
    ensures var c' := ReduceAll(current, events);
            && (c'.Some? ==> ReplicaInv(c'.value))
            && (current.Some? ==>
                  && c'.Some? && Advances(current.value, c'.value)
                  && (MovesForward(current.value, c'.value) || current.value.generation < c'.value.generation))
  {
    if events != [] {
      var init, e := events[..|events| - 1], events[|events| - 1];
      ReplicaInvariants(current, init, id);
      ReduceKeeps(ReduceAll(current, init), e, id);
    }
  }
}
