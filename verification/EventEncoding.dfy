/** The JSON form in which the server writes an event, and its agreement with the browser's checks. */
module EventEncoding {
  import opened Wrappers
  import opened JsonText
  import opened JsonSyntax
  import opened ExecutionEvents
  import opened Replica
  import opened EventDecoding

  // ---------------------------------------------------------------- the server's names

  // Each name that the server writes is the one that the browser reads.
  function WrittenStatus(s: Status): (r: string)
    ensures r == StatusName(s)
  {
    if s.Accepted? then "accepted"
    else if s.Running? then "running"
    else if s.Stopping? then "stopping"
    else if s.Succeeded? then "succeeded"
    else if s.FailedStatus? then "failed"
    else if s.Cancelled? then "cancelled"
    else if s.TimedOut? then "timed_out"
    else "unconfirmed"
  }

  function WrittenStage(s: Stage): (r: string)
    ensures r == StageName(s)
  {
    if s.QueryUnderstanding? then "query_understanding"
    else if s.Retrieval? then "retrieval"
    else if s.SqlGeneration? then "sql_generation"
    else if s.SqlValidation? then "sql_validation"
    else if s.QueryExecution? then "query_execution"
    else if s.AnalysisUnderstanding? then "analysis_understanding"
    else if s.AnalysisPlanValidation? then "analysis_plan_validation"
    else if s.AnalysisQueryTasks? then "analysis_query_tasks"
    else if s.AnalysisAttribution? then "analysis_attribution"
    else if s.AnalysisReportGeneration? then "analysis_report_generation"
    else "result_saving"
  }

  function WrittenReason(r: StopReason): (n: string)
    ensures n == ReasonName(r)
  {
    if r.UserCancelled? then "user_cancelled"
    else if r.DeadlineExceeded? then "deadline_exceeded"
    else if r.AuthorizationRevoked? then "authorization_revoked"
    else "authorization_unavailable"
  }

  function WrittenField(f: Field): (n: string)
    ensures n == SlotName(f)
  {
    if f.Title? then "title"
    else if f.ExecutiveSummary? then "executive_summary"
    else if f.TrendJudgment? then "trend_judgment"
    else if f.KeyFindings? then "key_findings"
    else if f.RootCauses? then "root_causes"
    else "action_suggestions"
  }

  // ---------------------------------------------------------------- the server's dictionaries

  // A member that is written only when it has a value
  function Member(k: Key, v: Option<Js>): Record {
    if v.Some? then map[k := v.value] else map[]
  }

  function StageJs(s: Option<Stage>): Js {
    if s.Some? then Name(WrittenStage(s.value)) else JsNull
  }

  function ReasonJs(r: Option<StopReason>): Js {
    if r.Some? then Name(WrittenReason(r.value)) else JsNull
  }

  function CountJs(n: Option<nat>): Js {
    if n.Some? then JsInt(n.value) else JsNull
  }

  function ListJs(lines: seq<Text>): Js {
    JsList(seq(|lines|, i requires 0 <= i < |lines| => JsText(lines[i])))
  }

  function SlotJs(d: Draft, f: Field): Js
    requires f in d.texts || f in d.lists
  {
    if f in d.texts then JsText(d.texts[f]) else ListJs(d.lists[f])
  }

  function DraftRecord(d: Draft): Record {
    map f: Field | f in d.texts.Keys + d.lists.Keys :: SlotKey(f) := SlotJs(d, f)
  }

  function DraftJs(d: Option<Draft>): Js {
    if d.Some? then JsRecord(DraftRecord(d.value)) else JsNull
  }

  function SnapshotRecord(p: Payload, generation: int): Record
    requires p.Snapshot?
  {
    map[StatusKey := Name(WrittenStatus(p.status)), StageKey := StageJs(p.stage), CompletedKey := JsInt(p.completed),
        TotalKey := CountJs(p.total), ReasonKey := ReasonJs(p.stopReason), GenerationKey := JsInt(generation),
        DraftKey := DraftJs(p.draft)]
  }

  function StateMembers(p: Payload): Record
    requires p.Progress?
  {
    Member(StatusKey, if p.newStatus.Some? then Some(Name(WrittenStatus(p.newStatus.value))) else None)
    + Member(ReasonKey, if p.reason.Some? then Some(ReasonJs(p.reason)) else None)
    + Member(StageKey, if p.newStage.Some? then Some(StageJs(p.newStage.value)) else None)
  }

  function CountMembers(p: Payload): Record
    requires p.Progress?
  {
    Member(CompletedKey, if p.newCompleted.Some? then Some(CountJs(p.newCompleted)) else None)
    + Member(TotalKey, if p.newTotal.Some? then Some(CountJs(p.newTotal.value)) else None)
  }

  function ProgressRecord(p: Payload): Record
    requires p.Progress?
  {
    StateMembers(p) + CountMembers(p)
  }

  function ErrorRecord(e: PublicError): Record {
    Member(CodeKey, if e.code.Some? then Some(JsText(e.code.value)) else None)
    + Member(MessageKey, if e.message.Some? then Some(JsText(e.message.value)) else None)
  }

  function TerminalRecord(p: Payload): Record
    requires p.Terminal?
  {
    map[StatusKey := Name(WrittenStatus(p.final))]
    + Member(ErrorKey, if p.error.Some? then Some(JsRecord(ErrorRecord(p.error.value))) else None)
  }

  function DeltaRecord(p: Payload): Record
    requires p.TextDelta?
  {
    map[FieldKey := Name(WrittenField(p.field)), IndexKey := CountJs(p.index), OffsetKey := JsInt(p.offset),
        TextKey := JsText(p.text)]
  }

  function PayloadRecord(p: Payload, generation: int): Record {
    match p
    case Snapshot(_, _, _, _, _, _) => SnapshotRecord(p, generation)
    case Progress(_, _, _, _, _) => ProgressRecord(p)
    case TextDelta(_, _, _, _) => DeltaRecord(p)
    case DraftReset => map[ResetKey := Name("model_retry")]
    case Terminal(_, _) => TerminalRecord(p)
    case AuthLost => map[]
  }

  /** The dictionary of an event, as the channel builds it and `encode_sse` prints it. */
  function EncodeEvent(e: Event): Js
    requires Complete(e)
  {
    if e.payload.AuthLost? then
      JsRecord(map[VersionKey := JsInt(1), ExecutionKey := Name(e.executionId), SequenceKey := JsInt(e.sequence),
                   TypeKey := Name("auth_lost"), PayloadKey := JsRecord(map[])])
    else
      JsRecord(map[VersionKey := JsInt(1), ExecutionKey := Name(e.executionId), HistoryKey := Name(e.historyId.value),
                   TurnKey := Name(e.turnId.value), SequenceKey := JsInt(e.sequence),
                   GenerationKey := JsInt(e.generation.value), TypeKey := Name(TypeName(e.payload)),
                   PayloadKey := JsRecord(PayloadRecord(e.payload, e.generation.value))])
  }

  // Only an event that takes the access away leaves out the ids and the generation.
  predicate Complete(e: Event) {
    if e.payload.AuthLost? then e.historyId.None? && e.turnId.None? && e.generation.None?
    else e.historyId.Some? && e.turnId.Some? && e.generation.Some?
  }

  predicate SafeOption(n: Option<nat>) {
    n.Some? ==> n.value <= MAX_SAFE
  }

  // Every count is an integer that a JavaScript number holds exactly.
  predicate SafePayload(p: Payload) {
    match p
    case Snapshot(_, _, completed, total, _, _) => completed <= MAX_SAFE && SafeOption(total)
    case Progress(_, _, _, completed, total) => SafeOption(completed) && (total.Some? ==> SafeOption(total.value))
    case TextDelta(_, index, offset, _) => SafeOption(index) && offset <= MAX_SAFE
    case _ => true
  }

  predicate SafeEvent(e: Event) {
    e.sequence <= MAX_SAFE && SafeOption(e.generation) && SafePayload(e.payload)
  }

  // ---------------------------------------------------------------- drafts

  lemma LinesBack(items: seq<Js>, lines: seq<Text>)
    ensures GoodList(JsList(items)) ==> ListJs(Lines(items)) == JsList(items)
    ensures ListJs(lines).items == ListJs(lines).items && Lines(ListJs(lines).items) == lines
    ensures (forall i :: 0 <= i < |lines| ==> ScalarText(lines[i])) ==> GoodList(ListJs(lines))
  {
    assert Lines(ListJs(lines).items) == lines;
    if GoodList(JsList(items)) {
      assert ListJs(Lines(items)).items == items;
    }
  }

  lemma RecordAt(d: Draft, f: Field)
    ensures SlotKey(f) in DraftRecord(d) <==> f in d.texts || f in d.lists
    ensures SlotKey(f) in DraftRecord(d) ==> DraftRecord(d)[SlotKey(f)] == SlotJs(d, f)
  {
  }

  lemma SlotWritten(d: Draft, f: Field)
    requires TypedDraft(d) && ScalarDraft(d) && (f in d.texts || f in d.lists)
    ensures if f in d.texts then IsTextField(f) && SlotJs(d, f) == JsText(d.texts[f]) && GoodText(SlotJs(d, f))
            else !IsTextField(f) && GoodList(SlotJs(d, f)) && Lines(SlotJs(d, f).items) == d.lists[f]
  {
    hide IsTextField;
    if f in d.texts {
    } else {
      LinesBack([], d.lists[f]);
    }
  }

  lemma FieldsWritten(d: Draft)
    requires TypedDraft(d) && ScalarDraft(d)
    ensures DraftFields(DraftRecord(d))
  {
    var r := DraftRecord(d);
    assert forall k :: k in r ==> k.SlotKey?;
    hide SlotJs, DraftRecord, IsTextField, GoodText, GoodList, TypedDraft, ScalarDraft;
    forall f | SlotKey(f) in r
      ensures if IsTextField(f) then GoodText(r[SlotKey(f)]) else GoodList(r[SlotKey(f)])
    {
      RecordAt(d, f);
      SlotWritten(d, f);
    }
  }

  lemma TextsWritten(d: Draft)
    requires TypedDraft(d) && ScalarDraft(d) && DraftFields(DraftRecord(d))
    ensures TextsIn(DraftRecord(d)) == d.texts
  {
    hide SlotJs, DraftRecord, IsTextField, FIELDS, ScalarDraft;
    var r := DraftRecord(d);
    forall f: Field
      ensures f in TextsIn(r) <==> f in d.texts
      ensures f in d.texts ==> TextsIn(r)[f] == d.texts[f]
    {
      AllFields(f);
      RecordAt(d, f);
      if f in d.texts || f in d.lists {
        SlotWritten(d, f);
      }
    }
  }

  lemma ListsWritten(d: Draft)
    requires TypedDraft(d) && ScalarDraft(d) && DraftFields(DraftRecord(d))
    ensures ListsIn(DraftRecord(d)) == d.lists
  {
    hide SlotJs, DraftRecord, IsTextField, FIELDS, ScalarDraft;
    var r := DraftRecord(d);
    forall f: Field
      ensures f in ListsIn(r) <==> f in d.lists
      ensures f in d.lists ==> ListsIn(r)[f] == d.lists[f]
    {
      AllFields(f);
      RecordAt(d, f);
      if f in d.texts || f in d.lists {
        SlotWritten(d, f);
      }
    }
  }

  lemma DraftWritten(d: Draft)
    requires TypedDraft(d) && ScalarDraft(d)
    ensures DraftFields(DraftRecord(d)) && DraftIn(DraftRecord(d)) == d
  {
    hide TypedDraft, ScalarDraft, DraftFields, DraftRecord;
    FieldsWritten(d);
    TextsWritten(d);
    ListsWritten(d);
  }

  lemma SlotRead(r: Record, f: Field)
    requires DraftFields(r)
    ensures var d := DraftIn(r);
            && (f in d.texts <==> SlotKey(f) in r && IsTextField(f))
            && (f in d.lists <==> SlotKey(f) in r && !IsTextField(f))
            && (f in d.texts ==> ScalarText(d.texts[f]))
            && (f in d.lists ==> forall i :: 0 <= i < |d.lists[f]| ==> ScalarText(d.lists[f][i]))
            && (SlotKey(f) in r ==> SlotJs(d, f) == r[SlotKey(f)])
  {
    hide IsTextField, FIELDS, ScalarText;
    AllFields(f);
    if SlotKey(f) in r && !IsTextField(f) {
      LinesBack(r[SlotKey(f)].items, []);
    }
  }

  lemma ShapeRead(r: Record)
    requires DraftFields(r)
    ensures TypedDraft(DraftIn(r)) && ScalarDraft(DraftIn(r))
  {
    hide DraftFields, DraftIn, SlotJs, IsTextField, ScalarText;
    forall f: Field
      ensures f in DraftIn(r).texts ==> IsTextField(f) && ScalarText(DraftIn(r).texts[f])
      ensures f in DraftIn(r).lists ==>
                !IsTextField(f) && forall i :: 0 <= i < |DraftIn(r).lists[f]| ==> ScalarText(DraftIn(r).lists[f][i])
    {
      SlotRead(r, f);
    }
  }

  lemma OnlySlots(r: Record, d: Draft, k: Key)
    ensures DraftFields(r) && k in r ==> k.SlotKey?
    ensures k in DraftRecord(d) ==> k.SlotKey?
  {
  }

  lemma DraftRead(r: Record)
    requires DraftFields(r)
    ensures TypedDraft(DraftIn(r)) && ScalarDraft(DraftIn(r)) && DraftRecord(DraftIn(r)) == r
  {
    hide *;
    var d := DraftIn(r);
    ShapeRead(r);
    forall k: Key
      ensures k in r <==> k in DraftRecord(d)
      ensures k in r ==> DraftRecord(d)[k] == r[k]
    {
      OnlySlots(r, d, k);
      if k.SlotKey? {
        SlotRead(r, k.field);
        RecordAt(d, k.field);
      }
    }
  }

  lemma DraftBoth(v: Js, d: Option<Draft>)
    ensures ReportDraft(v) == Some(d) <==> v == DraftJs(d) && DraftAccepted(d)
  {
    hide DraftBytes;
    if v.JsRecord? && DraftFields(v.fields) {
      DraftRead(v.fields);
    }
    if d.Some? && TypedDraft(d.value) && ScalarDraft(d.value) {
      DraftWritten(d.value);
    }
  }

  // ---------------------------------------------------------------- one value

  lemma StatusBoth(v: Js, s: Status)
    ensures StatusOf(v) == Some(s) <==> v == Name(StatusName(s))
  {
    hide StatusName, Name;
    StatusNamed(s);
  }

  lemma StageBoth(v: Js, s: Option<Stage>)
    ensures (v.JsNull? || StageOf(v).Some?) && StageOf(v) == s <==> v == StageJs(s)
  {
    hide StageName;
    if s.Some? {
      StageNamed(s.value);
    }
  }

  lemma ReasonBoth(v: Js, r: Option<StopReason>)
    ensures (v.JsNull? || ReasonOf(v).Some?) && ReasonOf(v) == r <==> v == ReasonJs(r)
  {
    hide ReasonName;
    if r.Some? {
      ReasonNamed(r.value);
    }
  }

  lemma SlotBoth(v: Js, f: Field)
    ensures SlotOf(v) == Some(f) <==> v == Name(SlotName(f))
  {
    hide SlotName, Name;
    SlotNamed(f);
  }

  lemma TotalBoth(v: Js, n: Option<nat>)
    ensures TotalOk(v) && TotalIn(v) == n <==> v == CountJs(n) && SafeOption(n) && n != Some(0)
  {
  }

  // ---------------------------------------------------------------- payloads

  lemma SnapshotParts(p: Record, generation: int, q: Payload)
    requires q.Snapshot? && StatusKey in p && StageKey in p && ReasonKey in p && TotalKey in p && DraftKey in p
    ensures StatusOf(p[StatusKey]) == Some(q.status) <==> p[StatusKey] == Name(StatusName(q.status))
    ensures (p[StageKey].JsNull? || StageOf(p[StageKey]).Some?) && StageOf(p[StageKey]) == q.stage <==>
              p[StageKey] == StageJs(q.stage)
    ensures (p[ReasonKey].JsNull? || ReasonOf(p[ReasonKey]).Some?) && ReasonOf(p[ReasonKey]) == q.stopReason
            <==> p[ReasonKey] == ReasonJs(q.stopReason)
    ensures TotalOk(p[TotalKey]) && TotalIn(p[TotalKey]) == q.total
            <==> p[TotalKey] == CountJs(q.total) && SafeOption(q.total) && q.total != Some(0)
    ensures ReportDraft(p[DraftKey]) == Some(q.draft) <==> p[DraftKey] == DraftJs(q.draft) && DraftAccepted(q.draft)
  {
    hide *;
    StatusBoth(p[StatusKey], q.status);
    StageBoth(p[StageKey], q.stage);
    ReasonBoth(p[ReasonKey], q.stopReason);
    TotalBoth(p[TotalKey], q.total);
    DraftBoth(p[DraftKey], q.draft);
  }

  lemma SnapshotRead(p: Record, generation: int, q: Payload)
    requires DecodeSnapshot(p, generation) == Some(q)
    ensures q.Snapshot? && p == SnapshotRecord(q, generation) && PayloadChecked(q) && SafePayload(q)
  {
    hide StatusOf, StageOf, ReasonOf, StatusName, StageName, ReasonName, Name, StageJs, ReasonJs, CountJs, DraftRecord,
         ReportDraft, DraftAccepted, TotalOk, TotalIn;
    SnapshotParts(p, generation, q);
  }

  lemma SnapshotMembers(q: Payload, generation: int)
    requires q.Snapshot?
    ensures var p := SnapshotRecord(q, generation);
            && p.Keys == {StatusKey, StageKey, CompletedKey, TotalKey, ReasonKey, GenerationKey, DraftKey}
            && p[StatusKey] == Name(StatusName(q.status)) && p[StageKey] == StageJs(q.stage)
            && p[CompletedKey] == JsInt(q.completed) && p[TotalKey] == CountJs(q.total)
            && p[ReasonKey] == ReasonJs(q.stopReason) && p[GenerationKey] == JsInt(generation)
            && p[DraftKey] == DraftJs(q.draft)
  {
    hide StatusName, Name, StageJs, ReasonJs, CountJs, DraftJs;
  }

  lemma SnapshotWritten(q: Payload, generation: int)
    requires q.Snapshot? && PayloadChecked(q) && SafePayload(q)
    ensures DecodeSnapshot(SnapshotRecord(q, generation), generation) == Some(q)
  {
    hide StatusOf, StageOf, ReasonOf, StatusName, StageName, ReasonName, Name, StageJs, ReasonJs, CountJs, DraftRecord,
         ReportDraft, DraftAccepted, TotalOk, TotalIn, IsTerminal, CountsFit, SnapshotRecord;
    SnapshotMembers(q, generation);
    SnapshotParts(SnapshotRecord(q, generation), generation, q);
  }

  lemma StateHas(q: Payload)
    requires q.Progress?
    ensures var r := StateMembers(q);
            && r.Keys <= {StatusKey, ReasonKey, StageKey}
            && (StatusKey in r <==> q.newStatus.Some?)
            && (q.newStatus.Some? ==> r[StatusKey] == Name(StatusName(q.newStatus.value)))
            && (ReasonKey in r <==> q.reason.Some?) && (q.reason.Some? ==> r[ReasonKey] == ReasonJs(q.reason))
            && (StageKey in r <==> q.newStage.Some?) && (q.newStage.Some? ==> r[StageKey] == StageJs(q.newStage.value))
  {
    hide StatusName, Name, StageJs, ReasonJs;
  }

  lemma CountsHave(q: Payload)
    requires q.Progress?
    ensures var r := CountMembers(q);
            && r.Keys <= {CompletedKey, TotalKey}
            && (CompletedKey in r <==> q.newCompleted.Some?)
            && (q.newCompleted.Some? ==> r[CompletedKey] == CountJs(q.newCompleted))
            && (TotalKey in r <==> q.newTotal.Some?) && (q.newTotal.Some? ==> r[TotalKey] == CountJs(q.newTotal.value))
  {
    hide CountJs;
  }

  lemma ProgressMembers(q: Payload)
    requires q.Progress?
    ensures var r := ProgressRecord(q);
            && r.Keys <= {StatusKey, ReasonKey, StageKey, CompletedKey, TotalKey}
            && (StatusKey in r <==> q.newStatus.Some?)
            && (q.newStatus.Some? ==> r[StatusKey] == Name(StatusName(q.newStatus.value)))
            && (ReasonKey in r <==> q.reason.Some?) && (q.reason.Some? ==> r[ReasonKey] == ReasonJs(q.reason))
            && (StageKey in r <==> q.newStage.Some?) && (q.newStage.Some? ==> r[StageKey] == StageJs(q.newStage.value))
            && (CompletedKey in r <==> q.newCompleted.Some?)
            && (q.newCompleted.Some? ==> r[CompletedKey] == CountJs(q.newCompleted))
            && (TotalKey in r <==> q.newTotal.Some?) && (q.newTotal.Some? ==> r[TotalKey] == CountJs(q.newTotal.value))
  {
    hide StatusName, Name, StageJs, ReasonJs, CountJs, StateMembers, CountMembers;
    StateHas(q);
    CountsHave(q);
  }

  lemma ProgressParts(p: Record, q: Payload)
    requires q.Progress?
    ensures StatusKey in p && q.newStatus.Some? ==>
              (StatusOf(p[StatusKey]) == q.newStatus <==> p[StatusKey] == Name(StatusName(q.newStatus.value)))
    ensures ReasonKey in p && q.reason.Some? ==>
              (ReasonOf(p[ReasonKey]) == q.reason <==> p[ReasonKey] == ReasonJs(q.reason))
    ensures StageKey in p && q.newStage.Some? ==>
              ((p[StageKey].JsNull? || StageOf(p[StageKey]).Some?) && StageOf(p[StageKey]) == q.newStage.value
               <==> p[StageKey] == StageJs(q.newStage.value))
    ensures CompletedKey in p && q.newCompleted.Some? ==>
              (CountAt(p, CompletedKey) && NatAt(p, CompletedKey) == q.newCompleted.value
               <==> p[CompletedKey] == CountJs(q.newCompleted) && SafeOption(q.newCompleted))
    ensures TotalKey in p && q.newTotal.Some? ==>
              (TotalOk(p[TotalKey]) && TotalIn(p[TotalKey]) == q.newTotal.value <==>
               p[TotalKey] == CountJs(q.newTotal.value) && SafeOption(q.newTotal.value) && q.newTotal.value != Some(0))
  {
    hide StatusOf, StageOf, ReasonOf, StatusName, StageName, ReasonName, Name, StageJs, TotalOk, TotalIn;
    if StatusKey in p && q.newStatus.Some? {
      StatusBoth(p[StatusKey], q.newStatus.value);
    }
    if ReasonKey in p && q.reason.Some? {
      ReasonBoth(p[ReasonKey], q.reason);
    }
    if StageKey in p && q.newStage.Some? {
      StageBoth(p[StageKey], q.newStage.value);
    }
    if TotalKey in p && q.newTotal.Some? {
      TotalBoth(p[TotalKey], q.newTotal.value);
    }
  }

  lemma ProgressRead(p: Record, q: Payload)
    requires DecodeProgress(p) == Some(q)
    ensures q.Progress? && p == ProgressRecord(q) && PayloadChecked(q) && SafePayload(q)
  {
    hide StatusOf, StageOf, ReasonOf, StatusName, Name, StageJs, ReasonJs, CountJs, TotalOk, TotalIn, ProgressRecord;
    ProgressMembers(q);
    ProgressParts(p, q);
    assert p.Keys == ProgressRecord(q).Keys;
  }

  lemma ProgressWritten(q: Payload)
    requires q.Progress? && PayloadChecked(q) && SafePayload(q)
    ensures DecodeProgress(ProgressRecord(q)) == Some(q)
  {
    hide StatusOf, StageOf, ReasonOf, StatusName, Name, StageJs, ReasonJs, CountJs, TotalOk, TotalIn, ProgressRecord;
    ProgressMembers(q);
    ProgressParts(ProgressRecord(q), q);
  }

  lemma ErrorMembers(e: PublicError)
    ensures ErrorOk(JsRecord(ErrorRecord(e))) && ErrorIn(ErrorRecord(e)) == e
  {
  }

  lemma ErrorRead(r: Record)
    requires ErrorOk(JsRecord(r))
    ensures ErrorRecord(ErrorIn(r)) == r
  {
    assert ErrorRecord(ErrorIn(r)).Keys == r.Keys;
  }

  lemma TerminalRead(p: Record, q: Payload)
    requires DecodeTerminal(p) == Some(q)
    ensures q.Terminal? && p == TerminalRecord(q) && PayloadChecked(q)
  {
    hide StatusOf, StatusName, Name, ErrorOk, ErrorIn, ErrorRecord, IsTerminal;
    StatusBoth(p[StatusKey], q.final);
    if ErrorKey in p {
      ErrorJsRead(p[ErrorKey]);
    }
    assert p.Keys == TerminalRecord(q).Keys;
  }

  lemma ErrorJsRead(v: Js)
    requires ErrorOk(v)
    ensures v.JsRecord? && v == JsRecord(ErrorRecord(ErrorIn(v.fields)))
  {
    ErrorRead(v.fields);
  }

  lemma TerminalWritten(q: Payload)
    requires q.Terminal? && PayloadChecked(q)
    ensures DecodeTerminal(TerminalRecord(q)) == Some(q)
  {
    hide StatusOf, StatusName, Name, ErrorOk, ErrorIn, ErrorRecord, IsTerminal;
    StatusBoth(Name(StatusName(q.final)), q.final);
    if q.error.Some? {
      ErrorMembers(q.error.value);
    }
  }

  lemma DeltaRead(p: Record, q: Payload)
    requires DecodeDelta(p) == Some(q)
    ensures q.TextDelta? && p == DeltaRecord(q) && PayloadChecked(q) && SafePayload(q)
  {
    hide SlotOf, SlotName, Name, IsTextField, ScalarText, TextBytes;
    SlotBoth(p[FieldKey], q.field);
    assert p.Keys == DeltaRecord(q).Keys;
  }

  lemma DeltaWritten(q: Payload)
    requires q.TextDelta? && PayloadChecked(q) && SafePayload(q)
    ensures DecodeDelta(DeltaRecord(q)) == Some(q)
  {
    hide SlotOf, SlotName, Name, IsTextField, ScalarText, TextBytes;
    SlotBoth(Name(SlotName(q.field)), q.field);
  }

  // ---------------------------------------------------------------- events

  lemma PayloadRead(t: Js, p: Record, generation: int, q: Payload)
    requires DecodePayload(t, p, generation) == Some(q)
    ensures t == Name(TypeName(q)) && !q.AuthLost? && p == PayloadRecord(q, generation) && PayloadChecked(q)
            && SafePayload(q)
  {
    hide DecodeSnapshot, DecodeProgress, DecodeTerminal, DecodeDelta, Name, PayloadChecked, SafePayload, SnapshotRecord,
         ProgressRecord, TerminalRecord, DeltaRecord;
    if t == Name("snapshot") {
      SnapshotRead(p, generation, q);
    } else if t == Name("progress") {
      ProgressRead(p, q);
    } else if t == Name("terminal") {
      TerminalRead(p, q);
      SafeOther(q);
    } else if t == Name("text_delta") {
      DeltaRead(p, q);
    } else {
      SafeOther(q);
    }
  }

  lemma SafeOther(q: Payload)
    requires q.Terminal? || q.DraftReset?
    ensures SafePayload(q) && (q.DraftReset? ==> PayloadChecked(q))
  {
  }

  lemma PayloadWritten(q: Payload, generation: int)
    requires !q.AuthLost? && PayloadChecked(q) && SafePayload(q)
    ensures DecodePayload(Name(TypeName(q)), PayloadRecord(q, generation), generation) == Some(q)
  {
    TypesApart(q);
    hide DecodeSnapshot, DecodeProgress, DecodeTerminal, DecodeDelta, Name, PayloadChecked, SafePayload, SnapshotRecord,
         ProgressRecord, TerminalRecord, DeltaRecord;
    match q
    case Snapshot(_, _, _, _, _, _) => SnapshotWritten(q, generation);
    case Progress(_, _, _, _, _) => ProgressWritten(q);
    case TextDelta(_, _, _, _) => DeltaWritten(q);
    case DraftReset =>
    case Terminal(_, _) => TerminalWritten(q);
  }

  predicate Apart(a: string, b: string) {
    a == b || Name(a) != Name(b)
  }

  lemma NamesApart(a: string, b: string)
    ensures Apart(a, b)
  {
    if Name(a) == Name(b) {
      CodesDiffer(a, b);
    }
  }

  lemma TypesApart(q: Payload)
    ensures Name(TypeName(q)) == Name("snapshot") <==> q.Snapshot?
    ensures Name(TypeName(q)) == Name("progress") <==> q.Progress?
    ensures Name(TypeName(q)) == Name("terminal") <==> q.Terminal?
    ensures Name(TypeName(q)) == Name("text_delta") <==> q.TextDelta?
    ensures Name(TypeName(q)) == Name("draft_reset") <==> q.DraftReset?
    ensures Name(TypeName(q)) == Name("auth_lost") <==> q.AuthLost?
  {
    hide Name;
    NamesApart(TypeName(q), "snapshot");
    NamesApart(TypeName(q), "progress");
    NamesApart(TypeName(q), "terminal");
    NamesApart(TypeName(q), "text_delta");
    NamesApart(TypeName(q), "draft_reset");
    NamesApart(TypeName(q), "auth_lost");
  }

  ghost predicate TypeFits(frameType: Text, p: Payload) {
    frameType == [] || frameType == Codes(TypeName(p))
  }

  lemma AuthLostRead(r: Record, id: Identity, e: Event)
    requires CountAt(r, SequenceKey) && DecodeAuthLost(r, id) == Some(e)
    requires Has(r, VersionKey, JsInt(1)) && Has(r, ExecutionKey, Name(id.executionId))
             && Has(r, TypeKey, Name("auth_lost"))
    ensures Complete(e) && JsRecord(r) == EncodeEvent(e) && WireChecked(e, id) && SafeEvent(e) && e.payload.AuthLost?
  {
    hide Name;
    assert r.Keys == EncodeEvent(e).fields.Keys;
  }

  lemma LiveRead(r: Record, id: Identity, e: Event)
    requires CountAt(r, SequenceKey) && TypeKey in r && DecodeLive(r, id) == Some(e)
    requires Has(r, VersionKey, JsInt(1)) && Has(r, ExecutionKey, Name(id.executionId))
    ensures Complete(e) && JsRecord(r) == EncodeEvent(e) && WireChecked(e, id) && SafeEvent(e)
    ensures r[TypeKey] == Name(TypeName(e.payload))
  {
    hide DecodePayload, Name, PayloadChecked, PayloadRecord, SafePayload, TypeName;
    PayloadRead(r[TypeKey], r[PayloadKey].fields, e.generation.value, e.payload);
    assert r.Keys == EncodeEvent(e).fields.Keys;
  }

  lemma EventRead(v: Js, id: Identity, frameType: Text, e: Event)
    requires DecodeEvent(v, id, frameType) == Some(e)
    ensures Complete(e) && v == EncodeEvent(e) && WireChecked(e, id) && SafeEvent(e) && TypeFits(frameType, e.payload)
  {
    hide DecodeAuthLost, DecodeLive, Codes, WireChecked, EncodeEvent, SafeEvent;
    if v.fields[TypeKey] == Name("auth_lost") {
      AuthLostRead(v.fields, id, e);
    } else {
      LiveRead(v.fields, id, e);
    }
  }

  lemma EventWritten(e: Event, id: Identity, frameType: Text)
    requires Complete(e) && WireChecked(e, id) && SafeEvent(e) && TypeFits(frameType, e.payload)
    ensures DecodeEvent(EncodeEvent(e), id, frameType) == Some(e)
  {
    hide EncodeEvent, DecodeLive, DecodeAuthLost, Codes, PayloadChecked, SafePayload, TypeName;
    TypeNonEmpty(e.payload);
    TypesApart(e.payload);
    Envelope(e);
    if e.payload.AuthLost? {
      AuthLostWritten(e, id);
    } else {
      LiveWritten(e, id);
    }
  }

  // The members that every event has
  lemma Envelope(e: Event)
    requires Complete(e)
    ensures var v := EncodeEvent(e);
            && v.JsRecord?
            && Has(v.fields, VersionKey, JsInt(1)) && Has(v.fields, ExecutionKey, Name(e.executionId))
            && Has(v.fields, SequenceKey, JsInt(e.sequence)) && Has(v.fields, TypeKey, Name(TypeName(e.payload)))
  {
    hide Name, PayloadRecord;
  }

  lemma AuthLostWritten(e: Event, id: Identity)
    requires Complete(e) && WireChecked(e, id) && SafeEvent(e) && e.payload.AuthLost?
    ensures var r := EncodeEvent(e).fields; CountAt(r, SequenceKey) && DecodeAuthLost(r, id) == Some(e)
  {
    hide Name, PayloadChecked;
  }

  lemma LiveWritten(e: Event, id: Identity)
    requires Complete(e) && WireChecked(e, id) && SafeEvent(e) && !e.payload.AuthLost?
    ensures var r := EncodeEvent(e).fields; CountAt(r, SequenceKey) && TypeKey in r && DecodeLive(r, id) == Some(e)
  {
    hide DecodePayload, Codes, PayloadChecked, PayloadRecord, SafePayload, TypeName;
    PayloadWritten(e.payload, e.generation.value);
  }

  lemma TypeNonEmpty(p: Payload)
    ensures Codes(TypeName(p)) != []
  {
    assert |Codes(TypeName(p))| == |TypeName(p)|;
  }

  /**
   * The browser accepts a JSON value exactly when it is the server's encoding of a checked event
   * of this execution, and reads that event back.
   */
  lemma EncodingExact(v: Js, id: Identity, frameType: Text, e: Event)
    ensures DecodeEvent(v, id, frameType) == Some(e) <==>
            Complete(e) && v == EncodeEvent(e) && WireChecked(e, id) && SafeEvent(e) && TypeFits(frameType, e.payload)
  {
    hide *;
    if DecodeEvent(v, id, frameType) == Some(e) {
      EventRead(v, id, frameType, e);
    } else if Complete(e) && v == EncodeEvent(e) && WireChecked(e, id) && SafeEvent(e)
      && TypeFits(frameType, e.payload) {
      EventWritten(e, id, frameType);
    }
  }
}
