/** Checking an event that has arrived as JSON, and the round trip with the server's encoding. */
module EventDecoding {
  import opened Wrappers
  import opened JsonText
  import opened JsonSyntax
  import opened ExecutionEvents
  import opened Replica

  // The names that occur in events; any other name is not allowed anywhere.
  datatype Key =
    | VersionKey | ExecutionKey | HistoryKey | TurnKey | SequenceKey | GenerationKey | TypeKey | PayloadKey
    | StatusKey | StageKey | CompletedKey | TotalKey | ReasonKey | DraftKey | FieldKey | IndexKey | OffsetKey | TextKey
    | ResetKey | ErrorKey | CodeKey | MessageKey | SlotKey(field: Field) | OtherKey(name: string)

  // A parsed JSON value; a name that is not in a record is undefined.
  datatype Js =
    | JsNull | JsBool(b: bool) | JsInt(n: int) | JsFraction
    | JsText(text: Text) | JsList(items: seq<Js>) | JsRecord(fields: map<Key, Js>)

  type Record = map<Key, Js>

  function Codes(s: string): Text {
    seq(|s|, i requires 0 <= i < |s| => s[i] as int)
  }

  lemma CodesDiffer(a: string, b: string)
    requires Codes(a) == Codes(b)
    ensures a == b
  {
    forall i | 0 <= i < |a|
      ensures a[i] == b[i]
    {
      assert Codes(a)[i] == Codes(b)[i];
    }
  }

  function Name(s: string): Js {
    JsText(Codes(s))
  }

  predicate Has(r: Record, k: Key, v: Js) {
    k in r && r[k] == v
  }

  const MAX_SAFE: int := 9007199254740991

  predicate SafeCount(v: Js) {
    v.JsInt? && 0 <= v.n <= MAX_SAFE
  }

  predicate CountAt(r: Record, k: Key) {
    k in r && SafeCount(r[k])
  }

  function NatAt(r: Record, k: Key): nat
    requires CountAt(r, k)
  {
    r[k].n
  }

  // ---------------------------------------------------------------- names

  function StatusName(s: Status): string {
    match s
    case Accepted => "accepted"
    case Running => "running"
    case Stopping => "stopping"
    case Succeeded => "succeeded"
    case FailedStatus => "failed"
    case Cancelled => "cancelled"
    case TimedOut => "timed_out"
    case Unconfirmed => "unconfirmed"
  }

  function StageName(s: Stage): string {
    match s
    case QueryUnderstanding => "query_understanding"
    case Retrieval => "retrieval"
    case SqlGeneration => "sql_generation"
    case SqlValidation => "sql_validation"
    case QueryExecution => "query_execution"
    case AnalysisUnderstanding => "analysis_understanding"
    case AnalysisPlanValidation => "analysis_plan_validation"
    case AnalysisQueryTasks => "analysis_query_tasks"
    case AnalysisAttribution => "analysis_attribution"
    case AnalysisReportGeneration => "analysis_report_generation"
    case ResultSaving => "result_saving"
  }

  function ReasonName(r: StopReason): string {
    match r
    case UserCancelled => "user_cancelled"
    case DeadlineExceeded => "deadline_exceeded"
    case AuthorizationRevoked => "authorization_revoked"
    case AuthorizationUnavailable => "authorization_unavailable"
  }

  function SlotName(f: Field): string {
    match f
    case Title => "title"
    case ExecutiveSummary => "executive_summary"
    case TrendJudgment => "trend_judgment"
    case KeyFindings => "key_findings"
    case RootCauses => "root_causes"
    case ActionSuggestions => "action_suggestions"
  }

  function TypeName(p: Payload): string {
    match p
    case Snapshot(_, _, _, _, _, _) => "snapshot"
    case Progress(_, _, _, _, _) => "progress"
    case TextDelta(_, _, _, _) => "text_delta"
    case DraftReset => "draft_reset"
    case Terminal(_, _) => "terminal"
    case AuthLost => "auth_lost"
  }

  ghost function StatusOf(v: Js): Option<Status> {
    if s :| v == Name(StatusName(s)) then Some(s) else None
  }

  ghost function StageOf(v: Js): Option<Stage> {
    if s :| v == Name(StageName(s)) then Some(s) else None
  }

  ghost function ReasonOf(v: Js): Option<StopReason> {
    if r :| v == Name(ReasonName(r)) then Some(r) else None
  }

  ghost function SlotOf(v: Js): Option<Field> {
    if f :| v == Name(SlotName(f)) then Some(f) else None
  }

  lemma StatusNamed(s: Status)
    ensures StatusOf(Name(StatusName(s))) == Some(s)
  {
    var t := StatusOf(Name(StatusName(s))).value;
    CodesDiffer(StatusName(t), StatusName(s));
  }

  lemma StageNamed(s: Stage)
    ensures StageOf(Name(StageName(s))) == Some(s)
  {
    var t := StageOf(Name(StageName(s))).value;
    CodesDiffer(StageName(t), StageName(s));
  }

  lemma ReasonNamed(r: StopReason)
    ensures ReasonOf(Name(ReasonName(r))) == Some(r)
  {
    var t := ReasonOf(Name(ReasonName(r))).value;
    CodesDiffer(ReasonName(t), ReasonName(r));
  }

  lemma SlotNamed(f: Field)
    ensures SlotOf(Name(SlotName(f))) == Some(f)
  {
    var g := SlotOf(Name(SlotName(f))).value;
    CodesDiffer(SlotName(g), SlotName(f));
  }

  // ---------------------------------------------------------------- drafts

  const FIELDS: set<Field> := {Title, ExecutiveSummary, TrendJudgment, KeyFindings, RootCauses, ActionSuggestions}

  lemma AllFields(f: Field)
    ensures f in FIELDS
  {
  }

  ghost predicate GoodText(v: Js) {
    v.JsText? && ScalarText(v.text)
  }

  ghost predicate GoodList(v: Js) {
    v.JsList? && forall i :: 0 <= i < |v.items| ==> GoodText(v.items[i])
  }

  function Lines(items: seq<Js>): seq<Text>
    requires forall i :: 0 <= i < |items| ==> items[i].JsText?
  {
    seq(|items|, i requires 0 <= i < |items| => items[i].text)
  }

  ghost predicate DraftFields(r: Record) {
    && (forall k :: k in r ==> k.SlotKey?)
    && (forall f :: SlotKey(f) in r ==> if IsTextField(f) then GoodText(r[SlotKey(f)]) else GoodList(r[SlotKey(f)]))
  }

  ghost function TextsIn(r: Record): map<Field, Text>
    requires DraftFields(r)
  {
    map f | f in FIELDS && IsTextField(f) && SlotKey(f) in r :: r[SlotKey(f)].text
  }

  ghost function ListsIn(r: Record): map<Field, seq<Text>>
    requires DraftFields(r)
  {
    map f | f in FIELDS && !IsTextField(f) && SlotKey(f) in r :: Lines(r[SlotKey(f)].items)
  }

  ghost function DraftIn(r: Record): Draft
    requires DraftFields(r)
  {
    Draft(TextsIn(r), ListsIn(r))
  }

  /** `reportDraft`: the six fields with their types, valid Unicode, and at most 5 MiB of text. */
  ghost function ReportDraft(v: Js): Option<Option<Draft>> {
    if v.JsNull? then Some(None)
    else if !v.JsRecord? || !DraftFields(v.fields) || DraftBytes(DraftIn(v.fields)) > MAX_DRAFT_BYTES then None
    else Some(Some(DraftIn(v.fields)))
  }

  // ---------------------------------------------------------------- payloads

  ghost predicate TotalOk(v: Js) {
    v.JsNull? || (SafeCount(v) && v.n > 0)
  }

  function TotalIn(v: Js): Option<nat> {
    if SafeCount(v) then Some(v.n) else None
  }

  ghost function DecodeSnapshot(p: Record, generation: int): Option<Payload> {
    if !(p.Keys <= {StatusKey, StageKey, CompletedKey, TotalKey, ReasonKey, GenerationKey, DraftKey}) then None
    else if StatusKey !in p || StageKey !in p || TotalKey !in p || ReasonKey !in p || DraftKey !in p then None
    else if StatusOf(p[StatusKey]).None? || !(p[StageKey].JsNull? || StageOf(p[StageKey]).Some?)
      || !CountAt(p, CompletedKey) then None
    else if !TotalOk(p[TotalKey]) || !(p[ReasonKey].JsNull? || ReasonOf(p[ReasonKey]).Some?) then None
    else
      var status := StatusOf(p[StatusKey]).value;
      if status.Stopping? && ReasonOf(p[ReasonKey]).None? then None
      else if IsTerminal(status) && !p[DraftKey].JsNull? then None
      else if !Has(p, GenerationKey, JsInt(generation)) then None
      else if !CountsFit(NatAt(p, CompletedKey), TotalIn(p[TotalKey])) then None
      else
        match ReportDraft(p[DraftKey])
        case None => None
        case Some(draft) =>
          Some(Snapshot(status, StageOf(p[StageKey]), NatAt(p, CompletedKey), TotalIn(p[TotalKey]),
                        ReasonOf(p[ReasonKey]), draft))
  }

  ghost function DecodeProgress(p: Record): Option<Payload> {
    if !(p.Keys <= {StatusKey, ReasonKey, StageKey, CompletedKey, TotalKey}) then None
    else if StatusKey in p && (StatusOf(p[StatusKey]).None? || IsTerminal(StatusOf(p[StatusKey]).value)) then None
    else if ReasonKey in p && ReasonOf(p[ReasonKey]).None? then None
    else if StatusKey in p && StatusOf(p[StatusKey]) == Some(Stopping) && ReasonKey !in p then None
    else if StageKey in p && !(p[StageKey].JsNull? || StageOf(p[StageKey]).Some?) then None
    else if CompletedKey in p && !CountAt(p, CompletedKey) then None
    else if TotalKey in p && !TotalOk(p[TotalKey]) then None
    else if CompletedKey in p && TotalKey in p && !CountsFit(NatAt(p, CompletedKey), TotalIn(p[TotalKey])) then None
    else
      Some(Progress(if StatusKey in p then StatusOf(p[StatusKey]) else None,
                    if ReasonKey in p then ReasonOf(p[ReasonKey]) else None,
                    if StageKey in p then Some(StageOf(p[StageKey])) else None,
                    if CompletedKey in p then Some(NatAt(p, CompletedKey)) else None,
                    if TotalKey in p then Some(TotalIn(p[TotalKey])) else None))
  }

  ghost predicate ErrorOk(v: Js) {
    v.JsRecord? && v.fields.Keys <= {CodeKey, MessageKey} && forall k :: k in v.fields ==> v.fields[k].JsText?
  }

  ghost function ErrorIn(r: Record): PublicError
    requires ErrorOk(JsRecord(r))
  {
    PublicError(if CodeKey in r then Some(r[CodeKey].text) else None,
                if MessageKey in r then Some(r[MessageKey].text) else None)
  }

  ghost function DecodeTerminal(p: Record): Option<Payload> {
    if !(p.Keys <= {StatusKey, ErrorKey}) || StatusKey !in p then None
    else if StatusOf(p[StatusKey]).None? || !IsTerminal(StatusOf(p[StatusKey]).value) then None
    else if ErrorKey in p && !ErrorOk(p[ErrorKey]) then None
    else Some(Terminal(StatusOf(p[StatusKey]).value, if ErrorKey in p then Some(ErrorIn(p[ErrorKey].fields)) else None))
  }

  ghost function DecodeDelta(p: Record): Option<Payload> {
    if !(p.Keys <= {FieldKey, IndexKey, OffsetKey, TextKey}) then None
    else if FieldKey !in p || SlotOf(p[FieldKey]).None? || !CountAt(p, OffsetKey) then None
    else if TextKey !in p || !GoodText(p[TextKey]) || p[TextKey].text == []
      || TextBytes(p[TextKey].text) > MAX_DELTA_BYTES then None
    else
      var f := SlotOf(p[FieldKey]).value;
      if IsTextField(f) && !Has(p, IndexKey, JsNull) then None
      else if !IsTextField(f) && !CountAt(p, IndexKey) then None
      else
        Some(TextDelta(f, if IsTextField(f) then None else Some(NatAt(p, IndexKey)), NatAt(p, OffsetKey),
                       p[TextKey].text))
  }

  ghost function DecodeReset(p: Record): Option<Payload> {
    if p == map[ResetKey := Name("model_retry")] then Some(DraftReset) else None
  }

  // ---------------------------------------------------------------- events

  // The payload of an event of a known type
  ghost function DecodePayload(eventType: Js, p: Record, generation: int): Option<Payload> {
    if eventType == Name("snapshot") then DecodeSnapshot(p, generation)
    else if eventType == Name("progress") then DecodeProgress(p)
    else if eventType == Name("terminal") then DecodeTerminal(p)
    else if eventType == Name("text_delta") then DecodeDelta(p)
    else if eventType == Name("draft_reset") then DecodeReset(p)
    else None
  }

  const ENVELOPE: set<Key> := {VersionKey, ExecutionKey, SequenceKey, TypeKey, PayloadKey}

  ghost function DecodeAuthLost(e: Record, expected: Identity): Option<Event>
    requires CountAt(e, SequenceKey)
  {
    if !(e.Keys <= ENVELOPE) || !Has(e, PayloadKey, JsRecord(map[])) then None
    else Some(Event(expected.executionId, None, None, NatAt(e, SequenceKey), None, AuthLost))
  }

  ghost function DecodeLive(e: Record, expected: Identity): Option<Event>
    requires CountAt(e, SequenceKey) && TypeKey in e
  {
    if !Has(e, HistoryKey, Name(expected.historyId)) || !Has(e, TurnKey, Name(expected.turnId))
      || !CountAt(e, GenerationKey) then None
    else if !(e.Keys <= ENVELOPE + {HistoryKey, TurnKey, GenerationKey}) || PayloadKey !in e
      || !e[PayloadKey].JsRecord? then None
    else
      match DecodePayload(e[TypeKey], e[PayloadKey].fields, NatAt(e, GenerationKey))
      case None => None
      case Some(p) =>
        Some(Event(expected.executionId, Some(expected.historyId), Some(expected.turnId), NatAt(e, SequenceKey),
                   Some(NatAt(e, GenerationKey)), p))
  }

  /** `decodeExecutionEvent`: an event of the expected execution, with exactly the allowed content. */
  ghost function DecodeEvent(v: Js, expected: Identity, frameType: Text): Option<Event> {
    if !v.JsRecord? then None
    else
      var e := v.fields;
      if !Has(e, VersionKey, JsInt(1)) || !Has(e, ExecutionKey, Name(expected.executionId))
        || !CountAt(e, SequenceKey) then None
      else if TypeKey !in e || !e[TypeKey].JsText? || e[TypeKey].text == []
        || (frameType != [] && e[TypeKey].text != frameType) then None
      else if e[TypeKey] == Name("auth_lost") then DecodeAuthLost(e, expected)
      else DecodeLive(e, expected)
  }
}
