/**
 * What each transaction accepts and what it writes, told by the rows of the tables before and after.
 */
module HistoryEffects {
  import opened Wrappers
  import opened ExecutionEvents
  import opened HistoryModel
  import opened HistoryInvariant
  import opened HistoryTransactions
  import opened HistoryRuns

  // The record is there, is the caller's and is not deleted.
  predicate Holder(db: Db, owner: nat, h: Id) {
    h in db.records && db.records[h].owner == owner && !db.records[h].deleted
  }

  // No turn of the history has the operation.
  ghost predicate Unused(db: Db, h: Id, operation: Id) {
    forall t {:trigger db.turns[t]} :: t in db.turns && db.turns[t].history == h ==> db.turns[t].operation != operation
  }

  lemma TurnRow(db: Db, h: Id, operation: Id)
    requires Consistent(db)
    ensures TurnOf(db, h, operation).None? <==> Unused(db, h, operation)
    ensures forall t {:trigger db.turns[t]} :: IsTurnOf(db, h, operation, t) ==> TurnOf(db, h, operation) == Some(t)
    ensures TurnOf(db, h, operation).Some? ==> IsTurnOf(db, h, operation, TurnOf(db, h, operation).value)
  {
    hide RecordOk, TurnOk, ExecutionOk;
    NoTurnOf(db, h, operation);
  }

  // ---------------------------------------------------------------- accepting an attempt

  /** What an attempt needs: a free record of the caller, at the context that was seen, in this process. */
  ghost predicate Acceptable(db: Db, q: Request) {
    && Holder(db, q.owner, q.history) && Unused(db, q.history, q.operation)
    && db.records[q.history].active.None? && db.records[q.history].contextRevision == q.revision
    && db.epoch == Some(q.epoch)
  }

  /** The rows of an accepted attempt: the new turn carries the request, and its record points at it. */
  ghost predicate Accepts(db: Db, db': Db, q: Request, turn: Id, token: Token)
    requires q.history in db.records
  {
    var r, n := db.records[q.history], db.records[q.history].generation + 1;
    && token.history == q.history && token.turn == turn && token.epoch == q.epoch && token.generation == n
    && turn in db'.turns
    && var x := db'.turns[turn];
       && x.history == q.history && x.ordinal == r.nextOrdinal && x.operation == q.operation && x.hash == q.digest
       && x.question == q.question && x.status == TurnAccepted && x.epoch == q.epoch && x.generation == n
       && x.snapshot == None && x.error == None && x.input == None
       && db' == db.(turns := db.turns[turn := x],
                     records := db.records[q.history := r.(active := Some(turn), generation := n,
                                                           nextOrdinal := r.nextOrdinal + 1,
                                                           recordRevision := r.recordRevision + 1)])
  }

  // The turn of an operation that was requested before
  ghost predicate Earlier(db: Db, q: Request, t: Id) {
    Holder(db, q.owner, q.history) && IsTurnOf(db, q.history, q.operation, t)
  }

  /**
   * A token is issued exactly to a request that `Acceptable` describes, and the rows then carry the request. Without
   * a token the turn of a repeated request is returned once it has ended, and nothing is written.
   */
  lemma BeginExact(db: Db, q: Request, turn: Id)
    requires Consistent(db)
    ensures var r := Begin(db, q, turn);
            && (r.Commit? && r.value.token.Some? <==> Acceptable(db, q))
            && (Acceptable(db, q) ==> r.value.turn == turn && Accepts(db, r.db, q, turn, r.value.token.value))
            && (forall p :: r == Commit(Attempted(None, p), db) <==>
                  && Earlier(db, q, p) && db.turns[p].hash == q.digest
                  && (db.turns[p].status == TurnSucceeded || db.turns[p].status == TurnFailed))
            && (r.Commit? && r.value.token.None? ==> r.db == db)
  {
    hide Consistent;
    TurnRow(db, q.history, q.operation);
  }

  /** The answer to a request that is refused names what is wrong. */
  lemma BeginRefuses(db: Db, q: Request, turn: Id)
    requires Consistent(db) && Begin(db, q, turn).Abort?
    ensures match Begin(db, q, turn).error
            case Unavailable => !Holder(db, q.owner, q.history)
            case OperationConflict => exists t :: Earlier(db, q, t) && db.turns[t].hash != q.digest
            case SaveUnconfirmed => exists t :: Earlier(db, q, t) && db.turns[t].status == TurnUnconfirmed
            case Busy => Holder(db, q.owner, q.history) && db.records[q.history].active.Some?
            case Stale => Holder(db, q.owner, q.history) && db.records[q.history].contextRevision != q.revision
            case StorageUnavailable => db.epoch != Some(q.epoch)
            case _ => false
  {
    hide RecordOk, ExecutionOk;
    TurnRow(db, q.history, q.operation);
    if TurnOf(db, q.history, q.operation).Some? {
      var t := TurnOf(db, q.history, q.operation).value;
      assert TurnOk(db, t);
      assert Holder(db, q.owner, q.history) ==> Earlier(db, q, t);
    }
  }

  // The request of a resumed analysis
  function ResumeOf(r: Record, owner: nat, h: Id, operation: Id, revision: nat, epoch: Id): Request {
    Request(owner, h, r.firstQuestion, operation, r.contextRevision, epoch, Resume(revision))
  }

  /** A resume is accepted exactly against the record revision that the caller has seen, with the first question. */
  lemma BeginAnalysisExact(db: Db, owner: nat, h: Id, operation: Id, revision: nat, epoch: Id, turn: Id)
    requires Consistent(db)
    ensures var r := BeginAnalysis(db, owner, h, operation, revision, epoch, turn);
            && (r.Commit? && r.value.token.Some? <==>
                  && Holder(db, owner, h) && Unused(db, h, operation) && db.records[h].active.None?
                  && db.records[h].recordRevision == revision && db.epoch == Some(epoch))
            && (r.Commit? && r.value.token.Some? ==>
                  && r.value.turn == turn
                  && Accepts(db, r.db, ResumeOf(db.records[h], owner, h, operation, revision, epoch), turn,
                             r.value.token.value))
            && (r == Abort(Stale) <==>
                  Holder(db, owner, h) && Unused(db, h, operation) && db.records[h].recordRevision != revision)
  {
    hide Consistent, Begin, Accepts;
    TurnRow(db, h, operation);
    if Holder(db, owner, h) {
      var q := ResumeOf(db.records[h], owner, h, operation, revision, epoch);
      BeginExact(db, q, turn);
      if Begin(db, q, turn).Abort? {
        BeginRefuses(db, q, turn);
      }
    }
  }

  // No execution of the caller has the operation.
  ghost predicate Unsubmitted(db: Db, owner: nat, operation: Id) {
    forall e {:trigger db.executions[e]} :: e in db.executions && db.executions[e].owner == owner ==>
      db.executions[e].operation != operation
  }

  lemma ExecutionRow(db: Db, owner: nat, operation: Id)
    requires Consistent(db)
    ensures ExecutionOf(db, owner, operation).None? <==> Unsubmitted(db, owner, operation)
    ensures forall e {:trigger db.executions[e]} :: IsExecutionOf(db, owner, operation, e) ==>
              ExecutionOf(db, owner, operation) == Some(e)
    ensures ExecutionOf(db, owner, operation).Some? ==>
              IsExecutionOf(db, owner, operation, ExecutionOf(db, owner, operation).value)
  {
    hide RecordOk, TurnOk, ExecutionOk;
    if ExecutionOf(db, owner, operation).None? {
      NoExecutionOf(db, owner, operation);
    }
  }

  // The attempt of a submission: a query stands on the context it has seen, an analysis on the record it has seen.
  ghost predicate Asks(db: Db, b: Submission, q: Request) {
    && Holder(db, b.owner, b.history) && db.records[b.history].kind == b.mode
    && q.owner == b.owner && q.history == b.history && q.operation == b.operation && q.epoch == b.epoch
    && match b.mode
       case AnalysisKind =>
         && b.expectedRecordRevision == Some(db.records[b.history].recordRevision)
         && q.question == db.records[b.history].firstQuestion
         && q.revision == db.records[b.history].contextRevision
         && q.digest == Resume(db.records[b.history].recordRevision)
       case QueryKind =>
         b.revision == Some(q.revision) && q.question == b.question && q.digest == Attempt(b.question, q.revision)
  }

  // The row of an accepted execution
  ghost predicate Submitted(x: Execution, b: Submission, token: Token) {
    && x.owner == b.owner && x.history == token.history && x.turn == token.turn && x.epoch == token.epoch
    && x.generation == token.generation && x.operation == b.operation && x.requestHash == b.requestHash
    && x.mode == b.mode && x.operationKind == b.operationKind
    && x.status == Status.Accepted && x.stopReason == None && x.error == None
  }

  /**
   * An execution is created exactly for a submission that is new and asks for an acceptable attempt. Its row and
   * its turn's row carry the submission. One that is not new gets its first execution, or conflicts.
   */
  lemma BeginExecutionExact(db: Db, b: Submission, turn: Id, execution: Id)
    requires Consistent(db)
    ensures var r := BeginExecution(db, b, turn, execution);
            && (r.Commit? && r.value.created <==>
                  Unsubmitted(db, b.owner, b.operation) && exists q :: Asks(db, b, q) && Acceptable(db, q))
            && (r.Commit? && r.value.created ==>
                  && r.value.execution == execution && r.value.accepted.Some?
                  && r.value.accepted.value.token.Some? && r.value.accepted.value.turn == turn
                  && var token := r.value.accepted.value.token.value;
                     && execution in r.db.executions && Submitted(r.db.executions[execution], b, token)
                     && r.db.executions == db.executions[execution := r.db.executions[execution]]
                     && exists q :: Asks(db, b, q)
                                    && Accepts(db, r.db.(executions := db.executions), q, turn, token))
            && (forall e :: IsExecutionOf(db, b.owner, b.operation, e) ==>
                  r == if db.executions[e].requestHash == b.requestHash then Commit(Acceptance(e, None, false), db)
                       else Abort(OperationConflict))
  {
    hide Consistent, Begin, Accepts, Acceptable;
    ExecutionRow(db, b.owner, b.operation);
    if Holder(db, b.owner, b.history) {
      RequestAsks(db, b);
      if RequestOf(db.records[b.history], b).Passed? {
        BeginExact(db, RequestOf(db.records[b.history], b).value, turn);
        AcceptsRows(db, RequestOf(db.records[b.history], b).value, turn);
      }
    }
  }

  lemma AcceptsRows(db: Db, q: Request, turn: Id)
    requires q.history in db.records
    ensures forall db', token :: Accepts(db, db', q, turn, token) ==> db'.executions == db.executions
  {
  }

  lemma RequestAsks(db: Db, b: Submission)
    requires Holder(db, b.owner, b.history)
    ensures forall q :: Asks(db, b, q) <==> RequestOf(db.records[b.history], b) == Passed(q)
  {
  }

  // ---------------------------------------------------------------- ends

  // The running attempt of a token: its record is the caller's, points at its turn, and no other process took over.
  predicate Holds(db: Db, owner: nat, token: Token) {
    && Holder(db, owner, token.history)
    && db.records[token.history].active == Some(token.turn)
    && db.records[token.history].generation == token.generation
    && db.epoch == Some(token.epoch)
  }

  // The row of a record after the end of its active turn
  ghost predicate Released(r: Record, r': Record, generation: nat, success: Option<Id>) {
    && r'.active == None && r'.recordRevision == r.recordRevision + 1 && r'.generation == generation
    && r'.contextRevision == (if success.Some? then r.contextRevision + 1 else r.contextRevision)
    && r'.lastSuccess == (if success.Some? then success else r.lastSuccess)
    && r' == r.(active := r'.active, recordRevision := r'.recordRevision, generation := r'.generation,
                contextRevision := r'.contextRevision, lastSuccess := r'.lastSuccess)
  }

  // The tables after the end of a turn with one execution or none
  ghost predicate Ends(db: Db, db': Db, h: Id, t: Id, e: Option<Id>) {
    && h in db.records && h in db'.records && t in db.turns && t in db'.turns
    && db'.records == db.records[h := db'.records[h]] && db'.turns == db.turns[t := db'.turns[t]]
    && db'.saved == db.saved && db'.epoch == db.epoch
    && match e
       case None => db'.executions == db.executions
       case Some(e) => e in db.executions && e in db'.executions
                       && db'.executions == db.executions[e := db'.executions[e]]
  }

  // The execution has not been stopped and has not ended.
  predicate Unstopped(db: Db, owner: nat, e: Id) {
    && e in db.executions && db.executions[e].owner == owner
    && (db.executions[e].status == Status.Accepted || db.executions[e].status == Running)
  }

  /**
   * A completion commits exactly for a running attempt, whose execution, if one is named, is neither stopped nor
   * ended.
   */
  lemma FinishCommits(db: Db, owner: nat, token: Token, snapshot: Option<string>, error: Option<string>, e: Option<Id>)
    requires Consistent(db)
    ensures var r := FinishAttempt(db, owner, token, snapshot, error, e);
            && (r.Commit? <==> Holds(db, owner, token) && (e.Some? ==> Unstopped(db, owner, e.value)))
            && (r == Abort(Unavailable) <==>
                  || !Holder(db, owner, token.history)
                  || (e.Some? && (e.value !in db.executions || db.executions[e.value].owner != owner)))
            && (r.Abort? && r.error.ExecutionStopped? ==>
                  && e.Some? && e.value in db.executions && db.executions[e.value].status == Stopping
                  && r.error.reason == db.executions[e.value].stopReason)
  {
    hide Consistent, SettleTurn;
    if Holds(db, owner, token) {
      ActiveRow(db, token.history);
    }
  }

  /** The turn and the execution end with what was handed over; the revision of the context counts a success. */
  lemma FinishWrites(db: Db, owner: nat, token: Token, snapshot: Option<string>, error: Option<string>, e: Option<Id>)
    requires FinishAttempt(db, owner, token, snapshot, error, e).Commit?
    ensures var r := FinishAttempt(db, owner, token, snapshot, error, e);
            && r.value == token.turn && Ends(db, r.db, token.history, token.turn, e)
            && r.db.turns[token.turn]
               == db.turns[token.turn].(status := if snapshot.Some? then TurnSucceeded else TurnFailed,
                                        snapshot := snapshot, error := error)
            && Released(db.records[token.history], r.db.records[token.history], token.generation,
                        if snapshot.Some? then Some(token.turn) else None)
            && (e.Some? ==>
                  r.db.executions[e.value]
                  == db.executions[e.value].(status := if snapshot.Some? then Succeeded else FailedStatus,
                                             error := error))
  {
  }

  // The active turn of a record
  lemma ActiveRow(db: Db, h: Id)
    requires Consistent(db) && h in db.records && db.records[h].active.Some?
    ensures var t := db.records[h].active.value;
            && t in db.turns && db.turns[t].history == h && db.turns[t].status == TurnAccepted
            && db.turns[t].generation == db.records[h].generation && Some(db.turns[t].epoch) == db.epoch
            && !db.records[h].deleted
  {
    assert RecordOk(db, h);
    assert TurnOk(db, db.records[h].active.value);
  }

  /** The end of a stopped execution commits exactly for the stopping execution of a running attempt. */
  lemma FinishStoppedCommits(db: Db, owner: nat, token: Token, e: Id, status: Status, error: string)
    requires Consistent(db)
    ensures FinishStopped(db, owner, token, e, status, error).Commit? <==>
              && Holds(db, owner, token) && e in db.executions && db.executions[e].owner == owner
              && db.executions[e].turn == token.turn && db.executions[e].status == Stopping
  {
    hide Consistent, SettleTurn;
    if Holds(db, owner, token) {
      ActiveRow(db, token.history);
    }
    if e in db.executions {
      LinkRow(db, e);
    }
  }

  // An execution is of its turn's history and generation.
  lemma LinkRow(db: Db, e: Id)
    requires Consistent(db) && e in db.executions
    ensures var x := db.executions[e];
            x.turn in db.turns && db.turns[x.turn].history == x.history && db.turns[x.turn].generation == x.generation
  {
    assert ExecutionOk(db, e);
  }

  /** The turn ends failed, and the execution ends with the status that was handed over. */
  lemma FinishStoppedWrites(db: Db, owner: nat, token: Token, e: Id, status: Status, error: string)
    requires FinishStopped(db, owner, token, e, status, error).Commit?
    ensures var r := FinishStopped(db, owner, token, e, status, error);
            && r.value == token.turn && Ends(db, r.db, token.history, token.turn, Some(e))
            && r.db.turns[token.turn]
               == db.turns[token.turn].(status := TurnFailed, snapshot := None, error := Some(error))
            && Released(db.records[token.history], r.db.records[token.history], token.generation, None)
            && r.db.executions[e] == db.executions[e].(status := status, error := Some(error))
  {
  }

  // ---------------------------------------------------------------- progress

  // A live execution is of its record's active turn and of the current process.
  lemma LiveRow(db: Db, e: Id)
    requires Consistent(db) && e in db.executions && IsLive(db.executions[e].status)
    ensures var x := db.executions[e];
            && Current(db, x) && db.records[x.history].owner == x.owner && !db.records[x.history].deleted
            && InHistory(db, x.history, x.turn) && db.turns[x.turn].status == TurnAccepted
            && db.turns[x.turn].epoch == x.epoch
  {
    hide RecordOk, DistinctTurns, DistinctExecutions, DistinctRecords;
    assert ExecutionOk(db, e);
    assert TurnOk(db, db.executions[e].turn);
  }

  /** Starting an execution succeeds exactly for the owner of one that is accepted, or running already. */
  lemma RunningExact(db: Db, owner: nat, e: Id)
    requires Consistent(db)
    ensures var r := MarkRunning(db, owner, e);
            && (r.Commit? <==> Unstopped(db, owner, e))
            && (r.Commit? ==>
                  && r.value == e
                  && r.db == db.(executions := db.executions[e := db.executions[e].(status := Running)]))
            && (r.Abort? && r.error.ExecutionStopped? ==>
                  && e in db.executions && db.executions[e].status == Stopping
                  && r.error.reason == db.executions[e].stopReason)
  {
    hide Consistent;
    if e in db.executions && IsLive(db.executions[e].status) {
      LiveRow(db, e);
    }
    if Unstopped(db, owner, e) && db.executions[e].status == Running {
      assert db.executions[e := db.executions[e]] == db.executions;
      assert db.executions[e].(status := Running) == db.executions[e];
    }
  }

  /**
   * A stop request reaches exactly the executions that are accepted or running: they are stopping afterwards, with
   * the reason. One that stops or has ended is left as it is. A user's cancel of an analysis needs its run expired.
   */
  lemma StopExact(db: Db, owner: nat, e: Id, reason: StopReason, expirable: bool)
    requires Consistent(db)
    ensures var r := RequestStop(db, owner, e, reason, expirable);
            && (r == Abort(Unavailable) <==>
                  || e !in db.executions || db.executions[e].owner != owner)
            && (e in db.executions && db.executions[e].owner == owner ==>
                  var x := db.executions[e];
                  r == if x.status != Status.Accepted && x.status != Running then Commit(e, db)
                       else if reason == UserCancelled && x.mode == AnalysisKind && !expirable
                       then Abort(SaveUnconfirmed)
                       else Commit(e, db.(executions := db.executions[e := x.(status := Stopping,
                                                                              stopReason := Some(reason))])))
  {
    hide Consistent;
    if e in db.executions {
      LinkedRow(db, e);
      if IsLive(db.executions[e].status) {
        LiveRow(db, e);
      }
    }
  }

  // The history of an execution is there, is its owner's and is not deleted.
  lemma LinkedRow(db: Db, e: Id)
    requires Consistent(db) && e in db.executions
    ensures Holder(db, db.executions[e].owner, db.executions[e].history)
  {
    hide RecordOk, DistinctTurns, DistinctExecutions, DistinctRecords;
    assert ExecutionOk(db, e);
    assert TurnOk(db, db.executions[e].turn);
  }

  // ---------------------------------------------------------------- histories

  // No record of the owner was created by the operation.
  ghost predicate Uncreated(db: Db, owner: nat, operation: Id) {
    forall h {:trigger db.records[h]} :: h in db.records && db.records[h].owner == owner ==>
      db.records[h].creationOperation != operation
  }

  lemma RecordRow(db: Db, owner: nat, operation: Id)
    requires Consistent(db)
    ensures CreatedBy(db, owner, operation).None? <==> Uncreated(db, owner, operation)
    ensures forall h {:trigger db.records[h]} :: IsCreation(db, owner, operation, h) ==>
              CreatedBy(db, owner, operation) == Some(h)
    ensures CreatedBy(db, owner, operation).Some? ==>
              IsCreation(db, owner, operation, CreatedBy(db, owner, operation).value)
  {
    hide RecordOk, TurnOk, ExecutionOk;
    if CreatedBy(db, owner, operation).None? {
      NoCreation(db, owner, operation);
    }
  }

  // The row of a new history, whose title is at most 120 characters long
  ghost predicate NewHistory(r: Record, owner: nat, kind: Kind, title: string, question: string, operation: Id) {
    && r.owner == owner && r.kind == kind && r.firstQuestion == question && r.creationOperation == operation
    && r.title == title && r.contextRevision == 0 && r.recordRevision == 0 && r.nextOrdinal == 1
    && r.lastSuccess == None && r.active == None && r.generation == 0 && !r.deleted
  }

  // The front of a text that fits a title
  ghost predicate Titles(title: string, text: string) {
    title <= text && |title| == if |text| < 120 then |text| else 120
  }

  /** A creation inserts a new history exactly for a new operation; a repeated one gets its history, or conflicts. */
  lemma CreateExact(db: Db, owner: nat, kind: Kind, question: string, operation: Id, history: Id)
    requires Consistent(db)
    ensures var r := Create(db, owner, kind, question, operation, history);
            && (Uncreated(db, owner, operation) ==>
                  && r.Commit? && r.value == history && history in r.db.records
                  && r.db == db.(records := db.records[history := r.db.records[history]])
                  && (exists title :: Titles(title, question)
                                      && NewHistory(r.db.records[history], owner, kind, title, question, operation))
                  && r.db.records[history].creationHash == Creation(kind, question))
            && (forall h :: IsCreation(db, owner, operation, h) ==>
                  r == if db.records[h].deleted then Abort(Unavailable)
                       else if db.records[h].creationHash == Creation(kind, question) then Commit(h, db)
                       else Abort(OperationConflict))
  {
    hide Consistent;
    RecordRow(db, owner, operation);
    assert Titles(Clip(question), question);
  }

  /** A title is changed exactly against the current revision, and nothing else changes. */
  lemma RenameExact(db: Db, owner: nat, h: Id, title: string, revision: nat)
    ensures var r := Rename(db, owner, h, title, revision);
            && (r.Commit? <==> Holder(db, owner, h) && db.records[h].recordRevision == revision)
            && (r.Commit? ==>
                  && r.value == h
                  && r.db == db.(records := db.records[h := db.records[h].(title := title,
                                                                           recordRevision := revision + 1)]))
            && (r.Abort? ==> r.error == if Holder(db, owner, h) then Stale else Unavailable)
  {
  }

  // The row of a deleted record keeps what a repeated creation is recognised by.
  ghost predicate Tombstone(r: Record, r': Record) {
    && r'.deleted && r'.title == "" && r'.firstQuestion == "" && r'.lastSuccess == None && r'.active == None
    && r'.recordRevision == r.recordRevision + 1 && r'.generation == r.generation + 1
    && r'.owner == r.owner && r'.creationOperation == r.creationOperation && r'.creationHash == r.creationHash
  }

  /**
   * A history is deleted exactly against the current revision and while no attempt runs. Its text goes, and so do
   * its turns and executions; every other row stays.
   */
  lemma DeleteExact(db: Db, owner: nat, h: Id, revision: nat)
    ensures var r := Delete(db, owner, h, revision);
            && (r.Commit? <==>
                  Holder(db, owner, h) && db.records[h].active.None? && db.records[h].recordRevision == revision)
            && (r.Commit? ==>
                  && r.value == h && h in r.db.records && Tombstone(db.records[h], r.db.records[h])
                  && r.db.records == db.records[h := r.db.records[h]]
                  && r.db.saved == db.saved && r.db.epoch == db.epoch
                  && (forall t :: t in r.db.turns <==> t in db.turns && db.turns[t].history != h)
                  && (forall t :: t in r.db.turns ==> r.db.turns[t] == db.turns[t])
                  && (forall e :: e in r.db.executions <==> e in db.executions && db.executions[e].history != h)
                  && forall e :: e in r.db.executions ==> r.db.executions[e] == db.executions[e])
            && (r.Abort? ==>
                  r.error == if !Holder(db, owner, h) then Unavailable
                             else if db.records[h].active.Some? then Busy else Stale)
  {
  }

  // ---------------------------------------------------------------- recovery

  /**
   * A new process gives up exactly what the last one left running: accepted turns and live executions end
   * unconfirmed, their records are released into a new generation, and every other row stays.
   */
  lemma RestartExact(db: Db, epoch: Id)
    ensures var db' := Restart(db, epoch);
            && db'.epoch == Some(epoch) && db'.saved == db.saved
            && db'.turns.Keys == db.turns.Keys && db'.executions.Keys == db.executions.Keys
            && db'.records.Keys == db.records.Keys
            && (forall t :: t in db.turns ==>
                  db'.turns[t] == if db.turns[t].status == TurnAccepted then db.turns[t].(status := TurnUnconfirmed)
                                  else db.turns[t])
            && (forall e :: e in db.executions ==>
                  db'.executions[e]
                  == if IsTerminal(db.executions[e].status) then db.executions[e]
                     else db.executions[e].(status := Unconfirmed))
            && forall h :: h in db.records ==>
                 if db.records[h].active.None? then db'.records[h] == db.records[h]
                 else Released(db.records[h], db'.records[h], db.records[h].generation + 1, None)
  {
  }

  /** Giving up an abandoned attempt does the same to that one attempt. */
  lemma ReconcileExact(db: Db, epoch: Id, h: Id)
    requires Consistent(db)
    ensures var r := Reconcile(db, epoch, h);
            if h !in db.records || db.records[h].active.None? then r == Commit(h, db)
            else if db.epoch != Some(epoch) then r == Abort(StorageUnavailable)
            else
              var t := db.records[h].active.value;
              && r.Commit? && r.value == h
              && Released(db.records[h], if h in r.db.records then r.db.records[h] else db.records[h],
                          db.records[h].generation + 1, None)
              && r.db.turns == db.turns[t := db.turns[t].(status := TurnUnconfirmed)]
              && r.db.records.Keys == db.records.Keys && r.db.executions.Keys == db.executions.Keys
              && (forall h' :: h' in db.records && h' != h ==> r.db.records[h'] == db.records[h'])
              && r.db.saved == db.saved && r.db.epoch == db.epoch
              && forall e :: e in db.executions ==>
                   r.db.executions[e] == if db.executions[e].turn == t then db.executions[e].(status := Unconfirmed)
                                         else db.executions[e]
  {
    hide RecordOk, DistinctTurns, DistinctRecords, TurnOk, ExecutionOk, Link;
    if h in db.records && db.records[h].active.Some? {
      ActiveRow(db, h);
      LinkIs(db, db.records[h].active.value);
    }
  }

  // ---------------------------------------------------------------- requery

  /** What a source offers to its owner: a saved result, the question of an analysis, or a succeeded turn. */
  ghost predicate Offers(db: Db, owner: nat, source: Source, m: Material) {
    match source
    case FromSaved(s) =>
      && s in db.saved && db.saved[s].owner == owner
      && m.kind == db.saved[s].kind && m.question == db.saved[s].question && m.title == Some(db.saved[s].title)
      && m.input == db.saved[s].snapshot
    case FromHistory(h, turn) =>
      && Holder(db, owner, h) && m.kind == db.records[h].kind && m.title == None
      && match m.kind
         case AnalysisKind => m.question == db.records[h].firstQuestion && m.input == db.records[h].firstQuestion
         case QueryKind =>
           && turn.Some? && turn.value in db.turns && db.turns[turn.value].history == h
           && db.turns[turn.value].status == TurnSucceeded
           && m.question == db.turns[turn.value].question && Some(m.input) == db.turns[turn.value].snapshot
  }

  lemma ResolveExact(db: Db, owner: nat, source: Source, m: Material)
    requires Consistent(db)
    ensures Resolve(db, owner, source) == Passed(m) <==> Offers(db, owner, source, m)
  {
    hide RecordOk, ExecutionOk, DistinctTurns, DistinctExecutions, DistinctRecords;
    if source.FromHistory? && source.turn.Some? && source.turn.value in db.turns {
      assert TurnOk(db, source.turn.value);
    }
  }

  // The rows of a new requery: a history of its own, with one running attempt that holds the input
  ghost predicate Requeries(db: Db, db': Db, q: RequeryRequest, m: Material, history: Id, turn: Id) {
    && history in db'.records && turn in db'.turns
    && db'.records == db.records[history := db'.records[history]] && db'.turns == db.turns[turn := db'.turns[turn]]
    && db'.saved == db.saved && db'.epoch == db.epoch
    && var r, x := db'.records[history], db'.turns[turn];
       && r.owner == q.owner && r.kind == m.kind && r.firstQuestion == m.question && r.creationOperation == q.operation
       && r.creationHash == Requery(q.source) && !r.deleted && r.active == Some(turn) && r.lastSuccess == None
       && r.contextRevision == 0 && r.generation == 1 && r.nextOrdinal == 2
       && (if m.title.Some? then r.title == m.title.value else Titles(r.title, m.question))
       && x.history == history && x.ordinal == 1 && x.operation == q.operation && x.hash == Requery(q.source)
       && x.question == m.question && x.status == TurnAccepted && x.epoch == q.epoch && x.generation == 1
       && x.input == Some(m.input) && x.snapshot == None && x.error == None
  }

  // The execution of a requery, if it has a ticket
  ghost predicate Attached(db: Db, db': Db, q: RequeryRequest, kind: Kind, token: Token) {
    match q.ticket
    case None => db'.executions == db.executions
    case Some(k) =>
      && k.execution in db'.executions
      && db'.executions == db.executions[k.execution := db'.executions[k.execution]]
      && var x := db'.executions[k.execution];
         && x.owner == q.owner && x.history == token.history && x.turn == token.turn && x.epoch == token.epoch
         && x.generation == token.generation && x.operation == q.operation && x.requestHash == k.requestHash
         && x.mode == kind && x.operationKind == k.operationKind
         && x.status == Status.Accepted && x.stopReason == None && x.error == None
  }

  /** A new operation is accepted exactly when its source offers something and the process is the current one. */
  lemma RequeryExact(db: Db, q: RequeryRequest, history: Id, turn: Id)
    requires Consistent(db) && history !in db.records && turn !in db.turns
    ensures var r := BeginRequery(db, q, history, turn);
            && (r.Commit? && r.value.created <==>
                  && (q.ticket.Some? ==> Unsubmitted(db, q.owner, q.operation)) && Uncreated(db, q.owner, q.operation)
                  && db.epoch == Some(q.epoch) && exists m :: Offers(db, q.owner, q.source, m))
            && (r.Commit? && r.value.created ==>
                  && r.value.history == history && r.value.accepted.turn == turn
                  && r.value.execution == (if q.ticket.Some? then Some(q.ticket.value.execution) else None)
                  && r.value.accepted.token == Some(Token(history, turn, q.epoch, 1))
                  && exists m :: Offers(db, q.owner, q.source, m) && Requeries(db, r.db, q, m, history, turn)
                                 && Attached(db, r.db, q, m.kind, Token(history, turn, q.epoch, 1)))
  {
    hide Consistent, Requeries, Attached, Resolve, Begin, Accepts, Attach, SetInput;
    RecordRow(db, q.owner, q.operation);
    ExecutionRow(db, q.owner, q.operation);
    forall m
      ensures Resolve(db, q.owner, q.source) == Passed(m) <==> Offers(db, q.owner, q.source, m)
    {
      ResolveExact(db, q.owner, q.source, m);
    }
    var resolved := Resolve(db, q.owner, q.source);
    if resolved.Passed? {
      var m := resolved.value;
      assert Offers(db, q.owner, q.source, m);
      RequeryBegins(db, q, m, history, turn);
      if db.epoch == Some(q.epoch) {
        var db2 := Begin(Recorded(db, q, m, history), RequestFor(q, m, history), turn).db;
        RequeryRows(db, q, m, history, turn, db2);
        InputOnly(db2, turn, m.input);
        AttachRows(db, q, m, history, turn, SetInput(db2, turn, m.input), Token(history, turn, q.epoch, 1));
      }
    }
  }

  // The database with the new record of a requery
  function Recorded(db: Db, q: RequeryRequest, m: Material, history: Id): Db {
    db.(records := db.records[history := NewRecord(q.owner, m.kind, m.title.GetOr(Clip(m.question)), m.question,
                                                   q.operation, Requery(q.source))])
  }

  /**
   * A requery of an operation that a history was created for before: without an execution it returns the turn of the
   * same requery once it has ended, and nothing is written; everything else is refused.
   */
  lemma RequeryRepeats(db: Db, q: RequeryRequest, h: Id, history: Id, turn: Id)
    requires Consistent(db) && IsCreation(db, q.owner, q.operation, h)
    requires q.ticket.Some? ==> Unsubmitted(db, q.owner, q.operation)
    ensures var r := BeginRequery(db, q, history, turn);
            && (r.Commit? <==>
                  && q.ticket.None? && db.records[h].creationHash == Requery(q.source) && !db.records[h].deleted
                  && exists t :: IsTurnOf(db, h, q.operation, t)
                                 && (db.turns[t].status == TurnSucceeded || db.turns[t].status == TurnFailed))
            && (r.Commit? ==>
                  && r.db == db && r.value.history == h && r.value.execution == None && !r.value.created
                  && r.value.accepted.token == None && IsTurnOf(db, h, q.operation, r.value.accepted.turn))
            && (r == Abort(OperationConflict) <==>
                  q.ticket.Some? || db.records[h].creationHash != Requery(q.source))
  {
    hide Consistent, Resolve, Begin;
    RecordRow(db, q.owner, q.operation);
    ExecutionRow(db, q.owner, q.operation);
    TurnRow(db, h, q.operation);
  }

  function RequestFor(q: RequeryRequest, m: Material, history: Id): Request {
    Request(q.owner, history, m.question, q.operation, 0, q.epoch, Requery(q.source))
  }

  lemma RequeryBegins(db: Db, q: RequeryRequest, m: Material, history: Id, turn: Id)
    requires Consistent(db) && history !in db.records
    ensures var db1 := Recorded(db, q, m, history);
            var b := Begin(db1, RequestFor(q, m, history), turn);
            if db.epoch != Some(q.epoch) then b.Abort?
            else
              && b == Commit(Attempted(Some(Token(history, turn, q.epoch, 1)), turn), b.db)
              && Accepts(db1, b.db, RequestFor(q, m, history), turn, Token(history, turn, q.epoch, 1))
  {
    hide RecordOk, ExecutionOk, DistinctTurns, DistinctExecutions, DistinctRecords;
    var db1 := Recorded(db, q, m, history);
    forall t
      ensures !IsTurnOf(db1, history, q.operation, t)
    {
      if t in db.turns {
        assert TurnOk(db, t);
      }
    }
  }

  lemma RequeryRows(db: Db, q: RequeryRequest, m: Material, history: Id, turn: Id, db2: Db)
    requires Accepts(Recorded(db, q, m, history), db2, RequestFor(q, m, history), turn,
                     Token(history, turn, q.epoch, 1))
    ensures turn in db2.turns
    ensures Requeries(db, SetInput(db2, turn, m.input), q, m, history, turn)
    ensures db2.executions == db.executions
  {
    assert Titles(Clip(m.question), m.question);
  }

  lemma InputOnly(db: Db, t: Id, input: string)
    requires t in db.turns
    ensures SetInput(db, t, input).executions == db.executions
  {
  }

  lemma AttachRows(db: Db, q: RequeryRequest, m: Material, history: Id, turn: Id, db3: Db, token: Token)
    requires Requeries(db, db3, q, m, history, turn) && db3.executions == db.executions
    ensures var db' := Attach(db3, q, m.kind, history, token);
            Requeries(db, db', q, m, history, turn) && Attached(db, db', q, m.kind, token)
  {
    hide Titles;
  }

  // ---------------------------------------------------------------- along a run

  /** An attempt against an earlier revision of the context gets no token, however long the run goes on. */
  lemma StaleContext(w: World, ops: seq<Op>, q: Request, turn: Id)
    requires Inv(w) && AllAllowed(w, ops)
    requires q.history in w.db.records && q.revision < w.db.records[q.history].contextRevision
    ensures var r := Begin(Run(w, ops).db, q, turn); r.Commit? ==> r.value.token.None?
  {
    hide Consistent, Run, AllAllowed, Begin;
    RunEvolves(w, ops);
    BeginExact(Run(w, ops).db, q, turn);
    assert RecordMoves(w.db.records[q.history], Run(w, ops).db.records[q.history]);
  }

  /**
   * Once a turn of a history has succeeded, no attempt against the context that was current before gets a token
   * any more.
   */
  lemma SuccessFences(w: World, ops: seq<Op>, later: seq<Op>, t: Id, q: Request, turn: Id)
    requires Inv(w) && AllAllowed(w, ops) && AllAllowed(Run(w, ops), later)
    requires q.history in w.db.records && q.revision <= w.db.records[q.history].contextRevision
    requires Succeeds(Run(w, ops).db, q.history, t) && !Succeeds(w.db, q.history, t)
    ensures var r := Begin(Run(Run(w, ops), later).db, q, turn); r.Commit? ==> r.value.token.None?
  {
    hide Run, AllAllowed, Begin, Inv, Evolves;
    var w' := Run(w, ops);
    RunEvolves(w, ops);
    InvConsistent(w);
    InvConsistent(w');
    if Gone(w'.db, q.history) {
      GoneLater(w', later, q, turn);
    } else {
      MoreSuccesses(w, w', q.history, t);
      StaleContext(w', later, q, turn);
    }
  }

  lemma GoneLater(w: World, ops: seq<Op>, q: Request, turn: Id)
    requires Inv(w) && AllAllowed(w, ops) && Gone(w.db, q.history)
    ensures Begin(Run(w, ops).db, q, turn).Abort?
  {
    hide Consistent, Run, AllAllowed;
    RunEvolves(w, ops);
    assert RecordMoves(w.db.records[q.history], Run(w, ops).db.records[q.history]);
  }

  lemma MoreSuccesses(w: World, w': World, h: Id, t: Id)
    requires Consistent(w.db) && Consistent(w'.db) && Evolves(w, w') && h in w.db.records && !Gone(w'.db, h)
    requires Succeeds(w'.db, h, t) && !Succeeds(w.db, h, t)
    ensures h in w'.db.records && w.db.records[h].contextRevision < w'.db.records[h].contextRevision
  {
    hide TurnOk, ExecutionOk, DistinctTurns, DistinctExecutions, DistinctRecords;
    var a, b := SuccessesOf(w.db, h), SuccessesOf(w'.db, h);
    assert RecordMoves(w.db.records[h], w'.db.records[h]);
    assert RecordOk(w.db, h) && RecordOk(w'.db, h);
    forall s | s in a
      ensures s in b
    {
      assert s in w.db.turns;
      assert s in w'.db.turns ==> TurnMoves(w.db.turns[s], w'.db.turns[s]);
    }
    assert t in b && t !in a;
    StrictlyMore(a, b, t);
  }

  lemma StrictlyMore(a: set<Id>, b: set<Id>, t: Id)
    requires a <= b && t in b && t !in a
    ensures |a| < |b|
  {
    SubsetSize(a, b - {t});
  }

  lemma SubsetSize(a: set<Id>, b: set<Id>)
    requires a <= b
    ensures |a| <= |b|
  {
    if x :| x in a {
      SubsetSize(a - {x}, b - {x});
    }
  }
}
