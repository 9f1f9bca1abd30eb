/** What each transaction of the history store does: it commits a new state or aborts. */
module HistoryTransactions {
  import opened Wrappers
  import opened ExecutionEvents
  import opened HistoryModel
  import opened HistoryInvariant

  // ---------------------------------------------------------------- accepting an attempt

  datatype Request = Request(owner: nat, history: Id, question: string, operation: Id, revision: nat, epoch: Id,
                             digest: Digest)

  // No token: the operation has ended before, and its turn is returned.
  datatype Attempted = Attempted(token: Option<Token>, turn: Id)

  function NewTurn(r: Record, q: Request): Turn {
    Turn(q.history, r.nextOrdinal, q.operation, q.digest, q.question, TurnAccepted, q.epoch, r.generation + 1, None,
         None, None)
  }

  ghost function Begin(db: Db, q: Request, turn: Id): Tx<Attempted> {
    match Owned(db, q.owner, q.history)
    case None => Abort(Unavailable)
    case Some(r) =>
      match TurnOf(db, q.history, q.operation)
      case Some(p) =>
        var x := db.turns[p];
        if x.hash != q.digest then Abort(OperationConflict)
        else if x.status.TurnAccepted? then Abort(Busy)
        else if x.status.TurnUnconfirmed? then Abort(SaveUnconfirmed)
        else Commit(Attempted(None, p), db)
      case None =>
        if r.active.Some? then Abort(Busy)
        else if r.contextRevision != q.revision then Abort(Stale)
        else if db.epoch != Some(q.epoch) then Abort(StorageUnavailable)
        else
          Commit(Attempted(Some(Token(q.history, turn, q.epoch, r.generation + 1)), turn),
                 StartTurn(db, q.history, turn, NewTurn(r, q)))
  }

  // `begin_analysis_attempt`: a resume is accepted against the revision that the caller has seen.
  ghost function BeginAnalysis(db: Db, owner: nat, h: Id, operation: Id, revision: nat, epoch: Id,
                               turn: Id): Tx<Attempted> {
    match Owned(db, owner, h)
    case None => Abort(Unavailable)
    case Some(r) =>
      if TurnOf(db, h, operation).None? && r.recordRevision != revision then Abort(Stale)
      else Begin(db, Request(owner, h, r.firstQuestion, operation, r.contextRevision, epoch, Resume(revision)), turn)
  }

  datatype Submission = Submission(
    owner: nat, history: Id, question: string, operation: Id, requestHash: string, revision: Option<nat>,
    epoch: Id, mode: Kind, operationKind: string, expectedRecordRevision: Option<nat>)

  datatype Acceptance = Acceptance(execution: Id, accepted: Option<Attempted>, created: bool)

  function NewExecution(b: Submission, token: Token): Execution {
    Execution(b.owner, token.history, token.turn, b.operation, b.requestHash, b.mode, b.operationKind,
              Status.Accepted, None, token.epoch, token.generation, None)
  }

  // The attempt that a submission asks for
  function RequestOf(r: Record, b: Submission): Checked<Request> {
    if r.kind != b.mode then Refused(InvalidRequest)
    else if b.mode.AnalysisKind? then
      if b.expectedRecordRevision.None? then Refused(InvalidRequest)
      else if r.recordRevision != b.expectedRecordRevision.value then Refused(Stale)
      else
        Passed(Request(b.owner, b.history, r.firstQuestion, b.operation, r.contextRevision, b.epoch,
                       Resume(b.expectedRecordRevision.value)))
    else if b.revision.None? then Refused(InvalidRequest)
    else
      Passed(Request(b.owner, b.history, b.question, b.operation, b.revision.value, b.epoch,
                     Attempt(b.question, b.revision.value)))
  }

  ghost function BeginExecution(db: Db, b: Submission, turn: Id, execution: Id): Tx<Acceptance> {
    match ExecutionOf(db, b.owner, b.operation)
    case Some(e) =>
      if db.executions[e].requestHash != b.requestHash then Abort(OperationConflict)
      else Commit(Acceptance(e, None, false), db)
    case None =>
      match Owned(db, b.owner, b.history)
      case None => Abort(Unavailable)
      case Some(r) =>
        match RequestOf(r, b)
        case Refused(e) => Abort(e)
        case Passed(q) =>
          match Begin(db, q, turn)
          case Abort(e) => Abort(e)
          case Commit(a, db') =>
            if a.token.None? then Abort(OperationConflict)
            else Commit(Acceptance(execution, Some(a), true),
                        AddExecution(db', execution, NewExecution(b, a.token.value)))
  }

  // ---------------------------------------------------------------- requery

  // The execution that goes with a requery, and the request it is for
  datatype Ticket = Ticket(execution: Id, requestHash: string, operationKind: string)

  datatype RequeryRequest = RequeryRequest(owner: nat, source: Source, operation: Id, epoch: Id, ticket: Option<Ticket>)

  datatype Requeried = Requeried(history: Id, accepted: Attempted, execution: Option<Id>, created: bool)

  // What a source contributes: its kind, the question, a title and the stored input
  datatype Material = Material(kind: Kind, question: string, title: Option<string>, input: string)

  function Resolve(db: Db, owner: nat, source: Source): Checked<Material> {
    match source
    case FromSaved(s) =>
      if s !in db.saved || db.saved[s].owner != owner then Refused(Unavailable)
      else Passed(Material(db.saved[s].kind, db.saved[s].question, Some(db.saved[s].title), db.saved[s].snapshot))
    case FromHistory(h, turn) =>
      match Owned(db, owner, h)
      case None => Refused(Unavailable)
      case Some(r) =>
        if r.kind.AnalysisKind? then Passed(Material(AnalysisKind, r.firstQuestion, None, r.firstQuestion))
        else if turn.None? || !Succeeds(db, h, turn.value) then Refused(NotSavable)
        else Passed(Material(QueryKind, db.turns[turn.value].question, None, db.turns[turn.value].snapshot.GetOr("")))
  }

  function Clip(s: string): string {
    if |s| <= 120 then s else s[..120]
  }

  // The requery of an operation that a history was created for before
  ghost function Repeated(db: Db, q: RequeryRequest, h: Id): Tx<Requeried>
    requires h in db.records
  {
    if q.ticket.Some? then Abort(OperationConflict)
    else if db.records[h].creationHash != Requery(q.source) then Abort(OperationConflict)
    else if db.records[h].deleted then Abort(Unavailable)
    else
      match TurnOf(db, h, q.operation)
      case None => Abort(StorageUnavailable)
      case Some(t) =>
        if db.turns[t].status.TurnAccepted? then Abort(Busy)
        else if db.turns[t].status.TurnUnconfirmed? then Abort(SaveUnconfirmed)
        else Commit(Requeried(h, Attempted(None, t), None, false), db)
  }

  function SetInput(db: Db, t: Id, input: string): Db
    requires t in db.turns
  {
    db.(turns := db.turns[t := db.turns[t].(input := Some(input))])
  }

  // The execution of a requery, when it has a ticket
  function Attach(db: Db, q: RequeryRequest, kind: Kind, history: Id, token: Token): Db {
    match q.ticket
    case None => db
    case Some(k) =>
      var b := Submission(q.owner, history, "", q.operation, k.requestHash, None, q.epoch, kind, k.operationKind, None);
      AddExecution(db, k.execution, NewExecution(b, token))
  }

  ghost function BeginRequery(db: Db, q: RequeryRequest, history: Id, turn: Id): Tx<Requeried> {
    match if q.ticket.Some? then ExecutionOf(db, q.owner, q.operation) else None
    case Some(e) =>
      var x := db.executions[e];
      if x.requestHash != q.ticket.value.requestHash then Abort(OperationConflict)
      else if Owned(db, q.owner, x.history).None? then Abort(Unavailable)
      else Commit(Requeried(x.history, Attempted(None, x.turn), Some(e), false), db)
    case None =>
      match CreatedBy(db, q.owner, q.operation)
      case Some(h) => Repeated(db, q, h)
      case None =>
        match Resolve(db, q.owner, q.source)
        case Refused(e) => Abort(e)
        case Passed(m) =>
          var record := NewRecord(q.owner, m.kind, m.title.GetOr(Clip(m.question)), m.question, q.operation,
                                  Requery(q.source));
          var db1 := db.(records := db.records[history := record]);
          match Begin(db1, Request(q.owner, history, m.question, q.operation, 0, q.epoch, Requery(q.source)), turn)
          case Abort(e) => Abort(e)
          case Commit(a, db2) =>
            if a.turn !in db2.turns || a.token.None? then Abort(StorageUnavailable)
            else
              Commit(Requeried(history, a, if q.ticket.Some? then Some(q.ticket.value.execution) else None, true),
                     Attach(SetInput(db2, a.turn, m.input), q, m.kind, history, a.token.value))
  }

  // ---------------------------------------------------------------- histories

  ghost function Create(db: Db, owner: nat, kind: Kind, question: string, operation: Id, history: Id): Tx<Id> {
    match CreatedBy(db, owner, operation)
    case Some(h) =>
      if db.records[h].deleted then Abort(Unavailable)
      else if db.records[h].creationHash != Creation(kind, question) then Abort(OperationConflict)
      else Commit(h, db)
    case None =>
      var record := NewRecord(owner, kind, Clip(question), question, operation, Creation(kind, question));
      Commit(history, db.(records := db.records[history := record]))
  }

  function Rename(db: Db, owner: nat, h: Id, title: string, revision: nat): Tx<Id> {
    match Owned(db, owner, h)
    case None => Abort(Unavailable)
    case Some(r) =>
      if r.recordRevision != revision then Abort(Stale)
      else Commit(h, db.(records := db.records[h := Retitle(r, title)]))
  }

  function Delete(db: Db, owner: nat, h: Id, revision: nat): Tx<Id> {
    match Owned(db, owner, h)
    case None => Abort(Unavailable)
    case Some(r) =>
      if r.active.Some? then Abort(Busy)
      else if r.recordRevision != revision then Abort(Stale)
      else Commit(h, DeleteRecord(db, h))
  }

  // ---------------------------------------------------------------- executions

  // The execution is of the record's active turn and of the current process.
  predicate Current(db: Db, x: Execution) {
    && x.history in db.records
    && db.records[x.history].active == Some(x.turn)
    && db.records[x.history].generation == x.generation
    && db.epoch == Some(x.epoch)
  }

  function MarkRunning(db: Db, owner: nat, e: Id): Tx<Id> {
    match OwnedExecution(db, owner, e)
    case None => Abort(Unavailable)
    case Some(x) =>
      if x.status.Accepted? && Current(db, x) && db.records[x.history].owner == owner
         && InHistory(db, x.history, x.turn) && db.turns[x.turn].status.TurnAccepted?
         && db.turns[x.turn].epoch == x.epoch
      then Commit(e, AddExecution(db, e, x.(status := Running)))
      else if x.status.Stopping? then Abort(ExecutionStopped(x.stopReason))
      else if !x.status.Running? then Abort(SaveUnconfirmed)
      else Commit(e, db)
  }

  // `expirable`: whether the analysis run of the history can be expired, which a user's cancel does first
  function RequestStop(db: Db, owner: nat, e: Id, reason: StopReason, expirable: bool): Tx<Id> {
    match OwnedExecution(db, owner, e)
    case None => Abort(Unavailable)
    case Some(x) =>
      if Owned(db, owner, x.history).None? then Abort(Unavailable)
      else if !x.status.Accepted? && !x.status.Running? then Commit(e, db)
      else if !Current(db, x) then Abort(SaveUnconfirmed)
      else if reason.UserCancelled? && x.mode.AnalysisKind? && !expirable then Abort(SaveUnconfirmed)
      else Commit(e, AddExecution(db, e, x.(status := Stopping, stopReason := Some(reason))))
  }

  // The token is of the record's active turn and of the current process.
  predicate Holds(db: Db, token: Token) {
    && token.history in db.records
    && db.records[token.history].active == Some(token.turn)
    && db.records[token.history].generation == token.generation
    && db.epoch == Some(token.epoch)
  }

  // The row that the conditional update of a turn selects
  predicate Open(db: Db, token: Token) {
    && InHistory(db, token.history, token.turn)
    && db.turns[token.turn].status.TurnAccepted?
    && db.turns[token.turn].epoch == token.epoch && db.turns[token.turn].generation == token.generation
  }

  function Ended(x: Turn, snapshot: Option<string>, error: Option<string>): Turn {
    x.(status := if snapshot.Some? then TurnSucceeded else TurnFailed, snapshot := snapshot, error := error)
  }

  function FinishAttempt(db: Db, owner: nat, token: Token, snapshot: Option<string>, error: Option<string>,
                         execution: Option<Id>): Tx<Id>
  {
    if Owned(db, owner, token.history).None? then Abort(Unavailable)
    else if execution.Some? && OwnedExecution(db, owner, execution.value).None? then Abort(Unavailable)
    else if execution.Some? && db.executions[execution.value].status.Stopping? then
      Abort(ExecutionStopped(db.executions[execution.value].stopReason))
    else if execution.Some? && !db.executions[execution.value].status.Accepted?
            && !db.executions[execution.value].status.Running? then Abort(SaveUnconfirmed)
    else if !Holds(db, token) then Abort(SaveUnconfirmed)
    else if !Open(db, token) then Abort(SaveUnconfirmed)
    else
      Commit(token.turn,
             SettleTurn(db, token.history, token.turn, Ended(db.turns[token.turn], snapshot, error),
                        db.records[token.history].generation, execution,
                        if snapshot.Some? then Succeeded else FailedStatus, error))
  }

  function FinishStopped(db: Db, owner: nat, token: Token, e: Id, status: Status, error: string): Tx<Id> {
    if Owned(db, owner, token.history).None? then Abort(Unavailable)
    else if !Holds(db, token) then Abort(SaveUnconfirmed)
    else if OwnedExecution(db, owner, e).None? then Abort(Unavailable)
    else
      var x := db.executions[e];
      if x.history != token.history || x.turn != token.turn || x.generation != token.generation
        || !x.status.Stopping? then
        Abort(SaveUnconfirmed)
      else if !Open(db, token) then Abort(SaveUnconfirmed)
      else
        Commit(token.turn,
               SettleTurn(db, token.history, token.turn, Ended(db.turns[token.turn], None, Some(error)),
                          db.records[token.history].generation, Some(e), status, Some(error)))
  }

  // ---------------------------------------------------------------- recovery

  function Restart(db: Db, epoch: Id): Db {
    NewEpoch(db, epoch)
  }

  ghost predicate IsLinked(db: Db, t: Id, e: Id) {
    e in db.executions && db.executions[e].turn == t
  }

  ghost function Link(db: Db, t: Id): Option<Id> {
    if e :| IsLinked(db, t, e) then Some(e) else None
  }

  /** Gives up the active turn of a history that no worker of this process runs. */
  ghost function Reconcile(db: Db, epoch: Id, h: Id): Tx<Id> {
    if h !in db.records || db.records[h].active.None? then Commit(h, db)
    else
      var t := db.records[h].active.value;
      if t !in db.turns || !db.turns[t].status.TurnAccepted?
        || db.turns[t].epoch != epoch then Abort(StorageUnavailable)
      else
        Commit(h, SettleTurn(db, h, t, db.turns[t].(status := TurnUnconfirmed), db.records[h].generation + 1,
                             Link(db, t), Unconfirmed,
                             if Link(db, t).Some? then db.executions[Link(db, t).value].error else None))
  }

  // ---------------------------------------------------------------- every commit keeps the invariant

  ghost predicate Keeps<T>(r: Tx<T>) {
    r.Commit? ==> Consistent(r.db)
  }

  lemma BeginKeeps(db: Db, q: Request, turn: Id)
    requires Consistent(db) && turn !in db.turns
    ensures Keeps(Begin(db, q, turn))
  {
    hide Consistent, StartTurn;
    if Begin(db, q, turn).Commit? && Begin(db, q, turn).value.token.Some? {
      NoTurnOf(db, q.history, q.operation);
      StartKeeps(db, q.history, turn, NewTurn(db.records[q.history], q));
    }
  }

  lemma NoTurnOf(db: Db, h: Id, operation: Id)
    ensures TurnOf(db, h, operation).None? ==>
              forall t {:trigger db.turns[t]} :: t in db.turns && db.turns[t].history == h ==>
                  db.turns[t].operation != operation
  {
    if TurnOf(db, h, operation).None? {
      forall t | t in db.turns && db.turns[t].history == h
        ensures db.turns[t].operation != operation
      {
        assert !IsTurnOf(db, h, operation, t);
      }
    }
  }

  // What `_begin` has done when it accepts
  lemma BegunTurn(db: Db, q: Request, turn: Id)
    requires Consistent(db) && turn !in db.turns && Begin(db, q, turn).Commit? && Begin(db, q, turn).value.token.Some?
    ensures var db' := Begin(db, q, turn).db;
            && Begin(db, q, turn).value == Attempted(Some(Token(q.history, turn, q.epoch,
                                                                db'.records[q.history].generation)), turn)
            && InHistory(db', q.history, turn) && q.history in db'.records && db'.records[q.history].owner == q.owner
            && var x := db'.turns[turn];
               && x.status.TurnAccepted? && x.epoch == q.epoch && x.generation == db'.records[q.history].generation
               && db'.executions == db.executions
  {
    hide Consistent;
  }

  lemma NoExecutionOf(db: Db, owner: nat, operation: Id)
    requires ExecutionOf(db, owner, operation).None?
    ensures forall e {:trigger db.executions[e]} :: e in db.executions ==>
              !(db.executions[e].owner == owner && db.executions[e].operation == operation)
  {
    forall e | e in db.executions
      ensures !(db.executions[e].owner == owner && db.executions[e].operation == operation)
    {
      assert !IsExecutionOf(db, owner, operation, e);
    }
  }

  // A turn that did not exist has no execution.
  lemma NoEarlierExecution(db: Db, turn: Id)
    requires Consistent(db) && turn !in db.turns
    ensures forall e {:trigger db.executions[e]} :: e in db.executions ==> db.executions[e].turn != turn
  {
    forall e | e in db.executions
      ensures db.executions[e].turn != turn
    {
      assert ExecutionOk(db, e);
    }
  }

  lemma BeginExecutionKeeps(db: Db, b: Submission, turn: Id, execution: Id)
    requires Consistent(db) && turn !in db.turns && execution !in db.executions
    ensures Keeps(BeginExecution(db, b, turn, execution))
  {
    hide Consistent, Begin, AddExecution, ExecutionOf;
    var r := BeginExecution(db, b, turn, execution);
    if r.Commit? && r.value.created {
      var q := RequestOf(Owned(db, b.owner, b.history).value, b).value;
      BeginKeeps(db, q, turn);
      BegunTurn(db, q, turn);
      NoExecutionOf(db, b.owner, b.operation);
      NoEarlierExecution(db, turn);
      AddKeeps(Begin(db, q, turn).db, execution, NewExecution(b, Begin(db, q, turn).value.token.value));
    }
  }

  // The stored input of an attempt is not part of any other row.
  lemma InputKeeps(db: Db, t: Id, input: string)
    requires Consistent(db) && t in db.turns
    ensures Consistent(SetInput(db, t, input))
  {
    hide RecordOk;
    var db' := SetInput(db, t, input);
    forall h | h in db'.records
      ensures RecordOk(db', h)
    {
      assert RecordOk(db, h);
      InputRecord(db, t, input, h);
    }
    InputRows(db, t, input);
  }

  lemma InputRows(db: Db, t: Id, input: string)
    requires Turns(db) && Executions(db) && DistinctTurns(db) && t in db.turns
    ensures var db' := SetInput(db, t, input); Turns(db') && Executions(db') && DistinctTurns(db')
  {
    var db' := SetInput(db, t, input);
    forall t' | t' in db'.turns
      ensures TurnOk(db', t')
    {
      assert TurnOk(db, t');
    }
    forall e | e in db'.executions
      ensures ExecutionOk(db', e)
    {
      assert ExecutionOk(db, e);
    }
  }

  lemma InputRecord(db: Db, t: Id, input: string, h: Id)
    requires t in db.turns && h in db.records && RecordOk(db, h)
    ensures RecordOk(SetInput(db, t, input), h)
  {
    var db' := SetInput(db, t, input);
    assert SuccessesOf(db', h) == SuccessesOf(db, h);
    forall t'
      ensures Succeeds(db', h, t') <==> Succeeds(db, h, t')
    {
    }
    if !db.records[h].deleted {
      forall n: nat | 1 <= n < db.records[h].nextOrdinal
        ensures HasOrdinal(db', h, n)
      {
        assert HasOrdinal(db, h, n);
        var t' :| InHistory(db, h, t') && db.turns[t'].ordinal == n;
        assert InHistory(db', h, t') && db'.turns[t'].ordinal == n;
      }
    }
  }

  lemma NoCreation(db: Db, owner: nat, operation: Id)
    requires CreatedBy(db, owner, operation).None?
    ensures forall h {:trigger db.records[h]} :: h in db.records ==> !IsCreation(db, owner, operation, h)
  {
    forall h | h in db.records
      ensures !IsCreation(db, owner, operation, h)
    {
    }
  }

  lemma BeginRequeryKeeps(db: Db, q: RequeryRequest, history: Id, turn: Id)
    requires Consistent(db) && history !in db.records && turn !in db.turns
    requires q.ticket.Some? ==> q.ticket.value.execution !in db.executions
    ensures Keeps(BeginRequery(db, q, history, turn))
  {
    hide Consistent, Begin, AddExecution, ExecutionOf, CreatedBy, SetInput, NewRecord, Resolve, InHistory;
    var r := BeginRequery(db, q, history, turn);
    if r.Commit? && r.value.created {
      var m := Resolve(db, q.owner, q.source).value;
      var record := NewRecord(q.owner, m.kind, m.title.GetOr(Clip(m.question)), m.question, q.operation,
                              Requery(q.source));
      var db1 := db.(records := db.records[history := record]);
      var request := Request(q.owner, history, m.question, q.operation, 0, q.epoch, Requery(q.source));
      NoCreation(db, q.owner, q.operation);
      NewRecordIs(record, q.owner, m.kind, m.title.GetOr(Clip(m.question)), m.question, q.operation, Requery(q.source));
      RecordKeeps(db, history, record);
      BeginKeeps(db1, request, turn);
      BegunTurn(db1, request, turn);
      var db2 := Begin(db1, request, turn).db;
      InputKeeps(db2, turn, m.input);
      if q.ticket.Some? {
        NoExecutionOf(db, q.owner, q.operation);
        NoEarlierExecution(db, turn);
      }
      AttachKeeps(db2, turn, m.input, q, m.kind, history, Begin(db1, request, turn).value.token.value);
    }
  }

  lemma AttachKeeps(db: Db, turn: Id, input: string, q: RequeryRequest, kind: Kind, history: Id, token: Token)
    requires turn in db.turns && Consistent(SetInput(db, turn, input))
    requires InHistory(db, history, turn) && history in db.records && db.records[history].owner == q.owner
    requires db.turns[turn].status.TurnAccepted?
    requires token == Token(history, turn, db.turns[turn].epoch, db.turns[turn].generation)
    requires q.ticket.Some? ==>
      && q.ticket.value.execution !in db.executions
      && forall e {:trigger db.executions[e]} :: e in db.executions ==>
           db.executions[e].turn != turn && !(db.executions[e].owner == q.owner
                                              && db.executions[e].operation == q.operation)
    ensures Consistent(Attach(SetInput(db, turn, input), q, kind, history, token))
  {
    hide Consistent;
    if q.ticket.Some? {
      var k := q.ticket.value;
      var b := Submission(q.owner, history, "", q.operation, k.requestHash, None, q.epoch, kind, k.operationKind, None);
      AddKeeps(SetInput(db, turn, input), k.execution, NewExecution(b, token));
    }
  }

  lemma NewRecordIs(r: Record, owner: nat, kind: Kind, title: string, question: string, operation: Id, hash: Digest)
    requires r == NewRecord(owner, kind, title, question, operation, hash)
    ensures r == NewRecord(r.owner, r.kind, r.title, r.firstQuestion, r.creationOperation, r.creationHash)
    ensures r.owner == owner && r.creationOperation == operation
  {
  }

  lemma CreateKeeps(db: Db, owner: nat, kind: Kind, question: string, operation: Id, history: Id)
    requires Consistent(db) && history !in db.records
    ensures Keeps(Create(db, owner, kind, question, operation, history))
  {
    hide Consistent, CreatedBy, NewRecord;
    if CreatedBy(db, owner, operation).None? {
      var record := NewRecord(owner, kind, Clip(question), question, operation, Creation(kind, question));
      NoCreation(db, owner, operation);
      NewRecordIs(record, owner, kind, Clip(question), question, operation, Creation(kind, question));
      RecordKeeps(db, history, record);
    }
  }

  lemma EditKeeps(db: Db, owner: nat, h: Id, title: string, revision: nat)
    requires Consistent(db)
    ensures Keeps(Rename(db, owner, h, title, revision)) && Keeps(Delete(db, owner, h, revision))
  {
    hide Consistent;
    if h in db.records {
      RetitleKeeps(db, h, title);
      DeleteKeeps(db, h);
    }
  }

  lemma LiveReason(db: Db, e: Id)
    requires Consistent(db) && e in db.executions
    ensures var x := db.executions[e];
            && (x.status.Stopping? ==> x.stopReason.Some?)
            && (x.status.Accepted? || x.status.Running? ==> x.stopReason.None?)
  {
    assert ExecutionOk(db, e);
  }

  lemma ProgressKeeps(db: Db, owner: nat, e: Id, reason: StopReason, expirable: bool)
    requires Consistent(db)
    ensures Keeps(MarkRunning(db, owner, e)) && Keeps(RequestStop(db, owner, e, reason, expirable))
  {
    hide Consistent, AddExecution, Current;
    if OwnedExecution(db, owner, e).Some? {
      var x := db.executions[e];
      LiveReason(db, e);
      if x.status.Accepted? {
        MoveKeeps(db, e, x.(status := Running));
      }
      if x.status.Accepted? || x.status.Running? {
        MoveKeeps(db, e, x.(status := Stopping, stopReason := Some(reason)));
      }
    }
  }

  // A turn that is settled with a status that its execution may not have
  lemma Disagreement(db: Db, h: Id, t: Id, x: Turn, generation: nat, e: Id, status: Status, error: Option<string>)
    requires h in db.records && e in db.executions && db.executions[e].turn == t && !Agree(x.status, status)
    ensures !Consistent(SettleTurn(db, h, t, x, generation, Some(e), status, error))
  {
    hide RecordOk, TurnOk, DistinctTurns, DistinctExecutions, DistinctRecords;
    assert !ExecutionOk(SettleTurn(db, h, t, x, generation, Some(e), status, error), e);
  }

  /**
   * `finish_execution_stopped` takes any status. A commit keeps the invariant exactly when the
   * status is one of a failed turn: failed, cancelled or timed out.
   */
  lemma FinishStoppedExact(db: Db, owner: nat, token: Token, e: Id, status: Status, error: string)
    requires Consistent(db) && FinishStopped(db, owner, token, e, status, error).Commit?
    ensures Consistent(FinishStopped(db, owner, token, e, status, error).db) <==> Agree(TurnFailed, status)
  {
    hide Consistent, SettleTurn;
    var h, t := token.history, token.turn;
    var x := Ended(db.turns[t], None, Some(error));
    var generation := db.records[h].generation;
    if Agree(TurnFailed, status) {
      SettleKeeps(db, h, t, x, generation, Some(e), status, Some(error));
    } else {
      Disagreement(db, h, t, x, generation, e, status, Some(error));
    }
  }

  lemma LinkIs(db: Db, t: Id)
    ensures Linked(db, t, Link(db, t))
  {
    forall e | e in db.executions && db.executions[e].turn == t
      ensures Link(db, t).Some?
    {
      assert IsLinked(db, t, e);
    }
  }

  lemma ReconcileKeeps(db: Db, epoch: Id, h: Id)
    requires Consistent(db)
    ensures Keeps(Reconcile(db, epoch, h))
  {
    hide SettleTurn, Link, DistinctTurns, DistinctExecutions, Executions;
    if h in db.records && db.records[h].active.Some? && Reconcile(db, epoch, h).Commit? {
      var t := db.records[h].active.value;
      ActiveTurn(db, h, t);
      LinkIs(db, t);
      assert TurnOk(db, t);
      SettleKeeps(db, h, t, db.turns[t].(status := TurnUnconfirmed), db.records[h].generation + 1, Link(db, t),
                  Unconfirmed,
                  if Link(db, t).Some? then db.executions[Link(db, t).value].error else None);
    }
  }

  // ---------------------------------------------------------------- the missing check of `finish_attempt`

  // An execution that is finished although it is not the turn's, or not finished although it is
  lemma Mismatch(db: Db, h: Id, t: Id, x: Turn, generation: nat, link: Option<Id>, status: Status,
                 error: Option<string>, e: Id)
    requires Consistent(db) && h in db.records && InHistory(db, h, t) && db.turns[t].status.TurnAccepted?
    requires !x.status.TurnAccepted? && !IsLive(status) && (link.Some? ==> link.value in db.executions)
    requires e in db.executions && IsLive(db.executions[e].status) && (link == Some(e) <==> db.executions[e].turn != t)
    ensures !Consistent(SettleTurn(db, h, t, x, generation, link, status, error))
  {
    hide RecordOk, TurnOk, DistinctTurns, DistinctExecutions, DistinctRecords;
    var db' := SettleTurn(db, h, t, x, generation, link, status, error);
    assert ExecutionOk(db, e);
    assert !ExecutionOk(db', e);
  }

  /**
   * `finish_attempt` does not check that the execution belongs to the token's turn. A commit keeps
   * the invariant exactly when it does: the execution given is the turn's own, or none is given
   * and the turn has none.
   */
  lemma FinishExact(db: Db, owner: nat, token: Token, snapshot: Option<string>, error: Option<string>,
                    execution: Option<Id>)
    requires Consistent(db) && FinishAttempt(db, owner, token, snapshot, error, execution).Commit?
    ensures Consistent(FinishAttempt(db, owner, token, snapshot, error, execution).db) <==>
              Linked(db, token.turn, execution)
  {
    hide Consistent, SettleTurn;
    var h, t := token.history, token.turn;
    var x := Ended(db.turns[t], snapshot, error);
    var generation := db.records[h].generation;
    var status := if snapshot.Some? then Succeeded else FailedStatus;
    if Linked(db, t, execution) {
      SettleKeeps(db, h, t, x, generation, execution, status, error);
    } else if execution.Some? {
      Mismatch(db, h, t, x, generation, execution, status, error, execution.value);
    } else {
      var e :| e in db.executions && db.executions[e].turn == t;
      LinkedIsLive(db, e);
      Mismatch(db, h, t, x, generation, execution, status, error, e);
    }
  }

  lemma LinkedIsLive(db: Db, e: Id)
    requires Consistent(db) && e in db.executions
    ensures db.executions[e].turn in db.turns
    ensures db.turns[db.executions[e].turn].status.TurnAccepted? ==> IsLive(db.executions[e].status)
  {
    assert ExecutionOk(db, e);
  }

  // Two histories of one owner, each with a running execution
  function StrayTurn(h: Id): Turn {
    Turn(h, 1, "op " + h, Attempt("q", 0), "q", TurnAccepted, "p", 1, None, None, None)
  }

  function StrayExecution(h: Id, t: Id): Execution {
    Execution(1, h, t, "op " + h, "hash", QueryKind, "query", Running, None, "p", 1, None)
  }

  function StrayRecord(h: Id, t: Id): Record {
    Record(1, QueryKind, "q", "q", "create " + h, Creation(QueryKind, "q"), 0, 1, 2, None, Some(t), 1, false)
  }

  const STRAY := Db(
    map["a" := StrayRecord("a", "ta"), "b" := StrayRecord("b", "tb")],
    map["ta" := StrayTurn("a"), "tb" := StrayTurn("b")],
    map["ea" := StrayExecution("a", "ta"), "eb" := StrayExecution("b", "tb")], map[], Some("p"))

  lemma StrayNames()
    ensures "op " + "a" != "op " + "b" && "create " + "a" != "create " + "b"
    ensures "a" != "b" && "ta" != "tb" && "ea" != "eb"
  {
    assert ("op " + "a")[3] != ("op " + "b")[3];
    assert ("create " + "a")[7] != ("create " + "b")[7];
    assert "a"[0] != "b"[0] && "ta"[1] != "tb"[1] && "ea"[1] != "eb"[1];
  }

  lemma StrayRecordOk(h: Id, t: Id)
    requires (h == "a" && t == "ta") || (h == "b" && t == "tb")
    ensures h in STRAY.records && RecordOk(STRAY, h) && InHistory(STRAY, h, t)
  {
    StrayNames();
    assert InHistory(STRAY, h, t);
    assert HasOrdinal(STRAY, h, 1);
    assert SuccessesOf(STRAY, h) == {};
  }

  lemma StrayTurns()
    ensures Turns(STRAY) && DistinctTurns(STRAY)
  {
    StrayNames();
  }

  lemma StrayExecutionOk(e: Id, h: Id, t: Id)
    requires (e == "ea" && h == "a" && t == "ta") || (e == "eb" && h == "b" && t == "tb")
    ensures e in STRAY.executions && ExecutionOk(STRAY, e) && STRAY.executions[e] == StrayExecution(h, t)
  {
    StrayNames();
    StrayRecordOk(h, t);
  }

  lemma StrayExecutions()
    ensures Executions(STRAY) && DistinctExecutions(STRAY)
  {
    hide ExecutionOk;
    StrayNames();
    StrayExecutionOk("ea", "a", "ta");
    StrayExecutionOk("eb", "b", "tb");
    assert forall e :: e in STRAY.executions ==> e == "ea" || e == "eb";
  }

  lemma StrayConsistent()
    ensures Consistent(STRAY)
  {
    hide RecordOk, TurnOk, ExecutionOk, DistinctTurns, DistinctExecutions, Turns, Executions;
    StrayRecordOk("a", "ta");
    StrayRecordOk("b", "tb");
    StrayTurns();
    StrayExecutions();
    StrayNames();
  }

  /** Finishing a turn with the execution of another history commits and breaks the invariant. */
  lemma FinishStray()
    ensures Consistent(STRAY)
    ensures var r := FinishAttempt(STRAY, 1, Token("a", "ta", "p", 1), Some("s"), None, Some("eb"));
            r.Commit? && !Consistent(r.db)
  {
    StrayConsistent();
    StrayNames();
    StrayCommits();
    FinishExact(STRAY, 1, Token("a", "ta", "p", 1), Some("s"), None, Some("eb"));
  }

  // One of the two executions is being stopped.
  function Stopped(): Execution {
    StrayExecution("a", "ta").(status := Stopping, stopReason := Some(UserCancelled))
  }

  /** Ending a stopped execution as succeeded commits and breaks the invariant. */
  lemma FinishStoppedStray()
    ensures var db := AddExecution(STRAY, "ea", Stopped());
            var r := FinishStopped(db, 1, Token("a", "ta", "p", 1), "ea", Succeeded, "m");
            Consistent(db) && r.Commit? && !Consistent(r.db)
  {
    hide Consistent;
    StrayConsistent();
    StrayNames();
    MoveKeeps(STRAY, "ea", Stopped());
    FinishStoppedExact(AddExecution(STRAY, "ea", Stopped()), 1, Token("a", "ta", "p", 1), "ea", Succeeded, "m");
  }

  lemma StrayCommits()
    ensures FinishAttempt(STRAY, 1, Token("a", "ta", "p", 1), Some("s"), None, Some("eb")).Commit?
    ensures !Linked(STRAY, "ta", Some("eb"))
  {
    StrayNames();
  }
}
