/** Execution events, the report draft, and the state that both ends of the stream keep. */
module ExecutionEvents {
  import opened Wrappers
  import opened JsonText
  import opened JsonSyntax

  datatype Status = Accepted | Running | Stopping | Succeeded | FailedStatus | Cancelled | TimedOut | Unconfirmed

  predicate IsTerminal(s: Status) {
    s.Succeeded? || s.FailedStatus? || s.Cancelled? || s.TimedOut? || s.Unconfirmed?
  }

  function StatusRank(s: Status): nat {
    if IsTerminal(s) then 3 else if s.Stopping? then 2 else if s.Running? then 1 else 0
  }

  /** A status may follow another: from accepted to running to stopping to any end, leaving out what it likes. */
  lemma StatusOrder(s: Status, t: Status)
    ensures StatusRank(s) <= StatusRank(t) <==>
              match s
              case Accepted => true
              case Running => t != Accepted
              case Stopping => t != Accepted && t != Running
              case _ => t in {Succeeded, FailedStatus, Cancelled, TimedOut, Unconfirmed}
  {
  }

  datatype Stage =
    | QueryUnderstanding | Retrieval | SqlGeneration | SqlValidation | QueryExecution
    | AnalysisUnderstanding | AnalysisPlanValidation | AnalysisQueryTasks | AnalysisAttribution
    | AnalysisReportGeneration | ResultSaving

  function StageIndex(s: Stage): nat {
    match s
    case QueryUnderstanding => 0
    case Retrieval => 1
    case SqlGeneration => 2
    case SqlValidation => 3
    case QueryExecution => 4
    case AnalysisUnderstanding => 5
    case AnalysisPlanValidation => 6
    case AnalysisQueryTasks => 7
    case AnalysisAttribution => 8
    case AnalysisReportGeneration => 9
    case ResultSaving => 10
  }

  /** The stages of a query come in their order, those of an analysis in theirs, and saving comes last. */
  lemma StageOrder()
    ensures StageIndex(QueryUnderstanding) < StageIndex(Retrieval) < StageIndex(SqlGeneration)
            < StageIndex(SqlValidation) < StageIndex(QueryExecution) < StageIndex(ResultSaving)
    ensures StageIndex(AnalysisUnderstanding) < StageIndex(AnalysisPlanValidation) < StageIndex(AnalysisQueryTasks)
            < StageIndex(AnalysisAttribution) < StageIndex(AnalysisReportGeneration) < StageIndex(ResultSaving)
    ensures forall s, t :: StageIndex(s) == StageIndex(t) ==> s == t
  {
  }

  datatype StopReason = UserCancelled | DeadlineExceeded | AuthorizationRevoked | AuthorizationUnavailable

  datatype PublicError = PublicError(code: Option<Text>, message: Option<Text>)

  datatype Identity = Identity(executionId: string, historyId: string, turnId: string)

  // ---------------------------------------------------------------- drafts

  // The text fields and the list fields that are present
  datatype Draft = Draft(texts: map<Field, Text>, lists: map<Field, seq<Text>>)

  const EMPTY_DRAFT := Draft(map[], map[])

  function TextOf(d: Draft, f: Field): Text {
    if f in d.texts then d.texts[f] else []
  }

  function LinesOf(d: Draft, f: Field): seq<Text> {
    if f in d.lists then d.lists[f] else []
  }

  function LineAt(lines: seq<Text>, i: nat): Text {
    if i < |lines| then lines[i] else []
  }

  function SetLine(lines: seq<Text>, i: nat, line: Text): seq<Text>
    requires i <= |lines|
  {
    if i < |lines| then lines[i := line] else lines + [line]
  }

  /** Appends a delta; `None` when its index or its offset does not continue the draft. */
  function Grow(d: Draft, f: Field, index: Option<nat>, offset: nat, text: Text): Option<Draft> {
    if IsTextField(f) then
      if |TextOf(d, f)| != offset then None
      else Some(d.(texts := d.texts[f := TextOf(d, f) + text]))
    else if index.None? || index.value > |LinesOf(d, f)| then None
    else
      var line := LineAt(LinesOf(d, f), index.value);
      if |line| != offset then None
      else Some(d.(lists := d.lists[f := SetLine(LinesOf(d, f), index.value, line + text)]))
  }

  ghost predicate ScalarText(t: Text) {
    forall i :: 0 <= i < |t| ==> IsScalar(t[i])
  }

  // ---------------------------------------------------------------- events

  datatype Payload =
    | Snapshot(status: Status, stage: Option<Stage>, completed: nat, total: Option<nat>,
               stopReason: Option<StopReason>, draft: Option<Draft>)
    | Progress(newStatus: Option<Status>, reason: Option<StopReason>, newStage: Option<Option<Stage>>,
               newCompleted: Option<nat>, newTotal: Option<Option<nat>>)
    | TextDelta(field: Field, index: Option<nat>, offset: nat, text: Text)
    | DraftReset
    | Terminal(final: Status, error: Option<PublicError>)
    | AuthLost

  datatype Event = Event(
    executionId: string, historyId: Option<string>, turnId: Option<string>,
    sequence: nat, generation: Option<nat>, payload: Payload)

  datatype ExecutionState = ExecutionState(
    id: Identity, sequence: nat, generation: nat, status: Status, stage: Option<Stage>,
    completed: nat, total: Option<nat>, stopReason: Option<StopReason>, draft: Option<Draft>,
    publicError: Option<PublicError>)

  datatype Reduced = Reduced(state: Option<ExecutionState>, resnapshot: bool, authLost: bool)
}
