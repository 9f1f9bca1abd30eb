/** Runs of the history store: any interleaving of transactions, stops, completions and restarts. */
module HistoryRuns {
  import opened Wrappers
  import opened ExecutionEvents
  import opened HistoryModel
  import opened HistoryInvariant
  import opened HistoryTransactions

  datatype Op =
    | DoCreate(owner: nat, kind: Kind, question: string, operation: Id, history: Id)
    | DoBegin(request: Request, turn: Id)
    | DoBeginAnalysis(owner: nat, history: Id, operation: Id, revision: nat, epoch: Id, turn: Id)
    | DoBeginExecution(submission: Submission, turn: Id, execution: Id)
    | DoBeginRequery(requery: RequeryRequest, history: Id, turn: Id)
    | DoMarkRunning(owner: nat, execution: Id)
    | DoRequestStop(owner: nat, execution: Id, reason: StopReason, expirable: bool)
    | DoFinish(owner: nat, token: Token, snapshot: Option<string>, error: Option<string>, link: Option<Id>)
    | DoFinishStopped(owner: nat, token: Token, execution: Id, status: Status, message: string)
    | DoRename(owner: nat, history: Id, title: string, revision: nat)
    | DoDelete(owner: nat, history: Id, revision: nat)
    | DoReconcile(epoch: Id, history: Id)
    | DoRestart(epoch: Id)

  function After<T>(db: Db, r: Tx<T>): Db {
    if r.Commit? then r.db else db
  }

  ghost function Apply(db: Db, op: Op): Db {
    match op
    case DoCreate(owner, kind, question, operation, history) =>
      After(db, Create(db, owner, kind, question, operation, history))
    case DoBegin(q, turn) => After(db, Begin(db, q, turn))
    case DoBeginAnalysis(owner, h, operation, revision, epoch, turn) =>
      After(db, BeginAnalysis(db, owner, h, operation, revision, epoch, turn))
    case DoBeginExecution(b, turn, execution) => After(db, BeginExecution(db, b, turn, execution))
    case DoBeginRequery(q, history, turn) => After(db, BeginRequery(db, q, history, turn))
    case DoMarkRunning(owner, e) => After(db, MarkRunning(db, owner, e))
    case DoRequestStop(owner, e, reason, expirable) => After(db, RequestStop(db, owner, e, reason, expirable))
    case DoFinish(owner, token, snapshot, error, e) => After(db, FinishAttempt(db, owner, token, snapshot, error, e))
    case DoFinishStopped(owner, token, e, status, error) => After(db, FinishStopped(db, owner, token, e, status, error))
    case DoRename(owner, h, title, revision) => After(db, Rename(db, owner, h, title, revision))
    case DoDelete(owner, h, revision) => After(db, Delete(db, owner, h, revision))
    case DoReconcile(epoch, h) => After(db, Reconcile(db, epoch, h))
    case DoRestart(epoch) => Restart(db, epoch)
  }

  // The identifiers that an operation brings along; every one is a fresh UUID.
  function NewIds(op: Op): set<Id> {
    match op
    case DoCreate(_, _, _, _, history) => {history}
    case DoBegin(_, turn) => {turn}
    case DoBeginAnalysis(_, _, _, _, _, turn) => {turn}
    case DoBeginExecution(_, turn, execution) => {turn, execution}
    case DoBeginRequery(q, history, turn) => {history, turn} + if q.ticket.Some? then {q.ticket.value.execution} else {}
    case DoRestart(epoch) => {epoch}
    case _ => {}
  }

  // The database, and every identifier ever issued
  datatype World = World(db: Db, issued: set<Id>)

  ghost predicate Inv(w: World) {
    && Consistent(w.db)
    && w.db.records.Keys <= w.issued && w.db.turns.Keys <= w.issued && w.db.executions.Keys <= w.issued
    && (w.db.epoch.Some? ==> w.db.epoch.value in w.issued)
  }

  /**
   * What the callers keep: identifiers are new; a completion that commits names the execution of
   * its token's turn; a stopped execution that is ended ends failed, cancelled or timed out.
   */
  ghost predicate Allowed(w: World, op: Op) {
    && NewIds(op) !! w.issued
    && (op.DoFinish? && FinishAttempt(w.db, op.owner, op.token, op.snapshot, op.error, op.link).Commit? ==>
          Linked(w.db, op.token.turn, op.link))
    && (op.DoFinishStopped?
        && FinishStopped(w.db, op.owner, op.token, op.execution, op.status, op.message).Commit? ==>
          Agree(TurnFailed, op.status))
  }

  ghost function Step(w: World, op: Op): World {
    World(Apply(w.db, op), w.issued + NewIds(op))
  }

  ghost function Run(w: World, ops: seq<Op>): World {
    if ops == [] then w else Step(Run(w, ops[..|ops| - 1]), ops[|ops| - 1])
  }

  ghost predicate AllAllowed(w: World, ops: seq<Op>) {
    ops != [] ==> AllAllowed(w, ops[..|ops| - 1]) && Allowed(Run(w, ops[..|ops| - 1]), ops[|ops| - 1])
  }

  // ---------------------------------------------------------------- what may happen to a row

  ghost predicate RecordMoves(r: Record, r': Record) {
    && r'.owner == r.owner && r'.creationOperation == r.creationOperation && r'.creationHash == r.creationHash
    && r.recordRevision <= r'.recordRevision && r.generation <= r'.generation
    && r.contextRevision <= r'.contextRevision && r.nextOrdinal <= r'.nextOrdinal
    && (r' != r ==> r.recordRevision < r'.recordRevision)
    && (r.deleted ==> r'.deleted)
  }

  ghost predicate TurnMoves(x: Turn, x': Turn) {
    && x' == x.(status := x'.status, snapshot := x'.snapshot, error := x'.error)
    && (!x.status.TurnAccepted? ==> x' == x)
  }

  ghost predicate ExecutionMoves(x: Execution, x': Execution) {
    && x' == x.(status := x'.status, stopReason := x'.stopReason, error := x'.error)
    && StatusRank(x.status) <= StatusRank(x'.status)
    && (IsTerminal(x.status) ==> x' == x)
    && (x.status.Stopping? ==> !x'.status.Succeeded?)
    && (x.stopReason.Some? ==> x'.stopReason == x.stopReason)
  }

  ghost predicate Gone(db: Db, h: Id) {
    h in db.records && db.records[h].deleted
  }

  ghost predicate RecordsMove(db: Db, db': Db) {
    forall h {:trigger db'.records[h]} {:trigger db.records[h]} :: h in db.records ==>
      h in db'.records && RecordMoves(db.records[h], db'.records[h])
  }

  // Turns change as above, and are removed only with their history.
  ghost predicate TurnsMove(db: Db, db': Db) {
    forall t {:trigger db'.turns[t]} {:trigger db.turns[t]} :: t in db.turns ==>
      if t in db'.turns then TurnMoves(db.turns[t], db'.turns[t]) else Gone(db', db.turns[t].history)
  }

  ghost predicate ExecutionsMove(db: Db, db': Db) {
    forall e {:trigger db'.executions[e]} {:trigger db.executions[e]} :: e in db.executions ==>
      if e in db'.executions then ExecutionMoves(db.executions[e], db'.executions[e])
        else Gone(db', db.executions[e].history)
  }

  ghost predicate Moves(db: Db, db': Db) {
    RecordsMove(db, db') && TurnsMove(db, db') && ExecutionsMove(db, db')
  }

  // Rows and the epoch that are new have new identifiers.
  ghost predicate Fresh(db: Db, db': Db, issued: set<Id>) {
    && db'.records.Keys * issued <= db.records.Keys
    && db'.turns.Keys * issued <= db.turns.Keys
    && db'.executions.Keys * issued <= db.executions.Keys
    && (db'.epoch != db.epoch ==> db'.epoch.Some? && db'.epoch.value !in issued)
  }

  ghost predicate Evolves(w: World, w': World) {
    Moves(w.db, w'.db) && Fresh(w.db, w'.db, w.issued) && w.issued <= w'.issued
  }

  // ---------------------------------------------------------------- single changes

  lemma StayMoves(db: Db)
    ensures Moves(db, db)
  {
  }

  lemma StartMoves(db: Db, h: Id, t: Id, x: Turn)
    requires Startable(db, h, t, x)
    ensures Moves(db, StartTurn(db, h, t, x))
  {
  }

  lemma InsertMoves(db: Db, e: Id, x: Execution)
    requires e in db.executions ==> ExecutionMoves(db.executions[e], x)
    ensures Moves(db, AddExecution(db, e, x))
  {
  }

  lemma SettleMoves(db: Db, h: Id, t: Id, x: Turn, generation: nat, link: Option<Id>, status: Status,
                    error: Option<string>)
    requires Consistent(db) && Settleable(db, h, t, x, generation, link, status) && IsTerminal(status)
    requires link.Some? ==> IsLive(db.executions[link.value].status)
                            && (db.executions[link.value].status.Stopping? ==> !status.Succeeded?)
    ensures Moves(db, SettleTurn(db, h, t, x, generation, link, status, error))
  {
    hide RecordOk, TurnOk, ExecutionOk;
    ActiveTurn(db, h, t);
  }

  lemma RecordMovesIn(db: Db, h: Id, r: Record)
    requires h in db.records ==> RecordMoves(db.records[h], r)
    ensures Moves(db, db.(records := db.records[h := r]))
  {
  }

  lemma DeleteMoves(db: Db, h: Id)
    requires h in db.records
    ensures Moves(db, DeleteRecord(db, h))
  {
  }

  lemma EpochMoves(db: Db, epoch: Id)
    ensures Moves(db, NewEpoch(db, epoch))
  {
  }

  lemma MovesTwice(db: Db, db': Db, db'': Db)
    requires Moves(db, db') && Moves(db', db'')
    requires db.turns.Keys <= db'.turns.Keys && db.executions.Keys <= db'.executions.Keys
    ensures Moves(db, db'')
  {
  }

  // ---------------------------------------------------------------- one transaction

  lemma BeginAnalysisKeeps(db: Db, owner: nat, h: Id, operation: Id, revision: nat, epoch: Id, turn: Id)
    requires Consistent(db) && turn !in db.turns
    ensures Keeps(BeginAnalysis(db, owner, h, operation, revision, epoch, turn))
  {
    hide Consistent, Begin;
    if Owned(db, owner, h).Some? {
      var r := db.records[h];
      BeginKeeps(db, Request(owner, h, r.firstQuestion, operation, r.contextRevision, epoch, Resume(revision)), turn);
    }
  }

  lemma NewIdsFresh(w: World, op: Op, id: Id)
    requires Inv(w) && Allowed(w, op) && id in NewIds(op)
    ensures id !in w.db.records && id !in w.db.turns && id !in w.db.executions && w.db.epoch != Some(id)
  {
  }

  /** Every allowed transaction keeps the invariant of the database. */
  lemma ApplyKeeps(w: World, op: Op)
    requires Inv(w) && Allowed(w, op)
    ensures Consistent(Apply(w.db, op))
  {
    hide Consistent, Create, Begin, BeginAnalysis, BeginExecution, BeginRequery, MarkRunning, RequestStop,
      FinishAttempt, FinishStopped, Rename, Delete, Reconcile, Restart, Linked;
    forall id | id in NewIds(op)
      ensures id !in w.db.records && id !in w.db.turns && id !in w.db.executions
    {
      NewIdsFresh(w, op, id);
    }
    match op
    case DoCreate(owner, kind, question, operation, history) =>
      CreateKeeps(w.db, owner, kind, question, operation, history);
    case DoBegin(q, turn) => BeginKeeps(w.db, q, turn);
    case DoBeginAnalysis(owner, h, operation, revision, epoch, turn) =>
      BeginAnalysisKeeps(w.db, owner, h, operation, revision, epoch, turn);
    case DoBeginExecution(b, turn, execution) => BeginExecutionKeeps(w.db, b, turn, execution);
    case DoBeginRequery(q, history, turn) => BeginRequeryKeeps(w.db, q, history, turn);
    case DoMarkRunning(owner, e) => ProgressKeeps(w.db, owner, e, UserCancelled, true);
    case DoRequestStop(owner, e, reason, expirable) => ProgressKeeps(w.db, owner, e, reason, expirable);
    case DoFinish(owner, token, snapshot, error, e) =>
      if FinishAttempt(w.db, owner, token, snapshot, error, e).Commit? {
        FinishExact(w.db, owner, token, snapshot, error, e);
      }
    case DoFinishStopped(owner, token, e, status, error) => 
      if FinishStopped(w.db, owner, token, e, status, error).Commit? {
        FinishStoppedExact(w.db, owner, token, e, status, error);
      }
    case DoRename(owner, h, title, revision) => EditKeeps(w.db, owner, h, title, revision);
    case DoDelete(owner, h, revision) => EditKeeps(w.db, owner, h, "", revision);
    case DoReconcile(epoch, h) => ReconcileKeeps(w.db, epoch, h);
    case DoRestart(epoch) => RestartKeeps(w.db, epoch);
  }

  lemma RestartKeeps(db: Db, epoch: Id)
    requires Consistent(db)
    ensures Consistent(Restart(db, epoch))
  {
    EpochKeeps(db, epoch);
  }

  // ---------------------------------------------------------------- one transaction's changes

  lemma BeginMoves(db: Db, q: Request, turn: Id)
    requires turn !in db.turns
    ensures Moves(db, After(db, Begin(db, q, turn)))
    ensures var db' := After(db, Begin(db, q, turn));
            && db'.records.Keys == db.records.Keys && db.turns.Keys <= db'.turns.Keys <= db.turns.Keys + {turn}
            && db'.executions == db.executions && db'.epoch == db.epoch
  {
    hide Moves;
    StayMoves(db);
    if Begin(db, q, turn).Commit? && Begin(db, q, turn).value.token.Some? {
      NoTurnOf(db, q.history, q.operation);
      StartMoves(db, q.history, turn, NewTurn(db.records[q.history], q));
    }
  }

  lemma BeginExecutionMoves(db: Db, b: Submission, turn: Id, execution: Id)
    requires turn !in db.turns && execution !in db.executions
    ensures var db' := After(db, BeginExecution(db, b, turn, execution));
            && Moves(db, db')
            && db'.records.Keys == db.records.Keys && db'.turns.Keys <= db.turns.Keys + {turn}
            && db'.executions.Keys <= db.executions.Keys + {execution} && db'.epoch == db.epoch
  {
    hide Moves, Begin;
    StayMoves(db);
    var r := BeginExecution(db, b, turn, execution);
    if r.Commit? && r.value.created {
      var q := RequestOf(Owned(db, b.owner, b.history).value, b).value;
      var a := Begin(db, q, turn);
      BeginMoves(db, q, turn);
      InsertMoves(a.db, execution, NewExecution(b, a.value.token.value));
      MovesTwice(db, a.db, r.db);
    }
  }

  // The stored input belongs to a turn that is new.
  lemma InputMoves(db: Db, db': Db, t: Id, input: string)
    requires Moves(db, db') && t in db'.turns && t !in db.turns
    ensures Moves(db, SetInput(db', t, input))
  {
  }

  lemma BeginRequeryMoves(db: Db, q: RequeryRequest, history: Id, turn: Id)
    requires history !in db.records && turn !in db.turns
    requires q.ticket.Some? ==> q.ticket.value.execution !in db.executions
    ensures var db' := After(db, BeginRequery(db, q, history, turn));
            && Moves(db, db')
            && db'.records.Keys <= db.records.Keys + {history} && db'.turns.Keys <= db.turns.Keys + {turn}
            && db'.executions.Keys <= db.executions.Keys + (if q.ticket.Some? then {q.ticket.value.execution} else {})
            && db'.epoch == db.epoch
  {
    hide Moves, Begin, NewRecord, Resolve, ExecutionOf, CreatedBy, Repeated;
    StayMoves(db);
    var r := BeginRequery(db, q, history, turn);
    if r.Commit? && r.value.created && !RepeatedCase(db, q) {
      var m := Resolve(db, q.owner, q.source).value;
      var record := NewRecord(q.owner, m.kind, m.title.GetOr(Clip(m.question)), m.question, q.operation,
                              Requery(q.source));
      var db1 := db.(records := db.records[history := record]);
      var request := Request(q.owner, history, m.question, q.operation, 0, q.epoch, Requery(q.source));
      var a := Begin(db1, request, turn);
      RecordMovesIn(db, history, record);
      BeginMoves(db1, request, turn);
      MovesTwice(db, db1, a.db);
      BegunWith(db1, request, turn);
      InputMoves(db, a.db, turn, m.input);
      var db3 := SetInput(a.db, turn, m.input);
      AttachMoves(db3, q, m.kind, history, a.value.token.value);
      MovesTwice(db, db3, r.db);
    } else {
      RepeatedStays(db, q, history, turn);
    }
  }

  // The operation has been requeried before.
  ghost predicate RepeatedCase(db: Db, q: RequeryRequest) {
    (q.ticket.Some? && ExecutionOf(db, q.owner, q.operation).Some?) || CreatedBy(db, q.owner, q.operation).Some?
  }

  lemma RepeatedStays(db: Db, q: RequeryRequest, history: Id, turn: Id)
    requires RepeatedCase(db, q) || BeginRequery(db, q, history, turn).Abort?
             || !BeginRequery(db, q, history, turn).value.created
    ensures After(db, BeginRequery(db, q, history, turn)) == db
  {
    hide Begin, NewRecord, Resolve, Attach, SetInput;
  }

  lemma BegunWith(db: Db, q: Request, turn: Id)
    ensures Begin(db, q, turn).Commit? && Begin(db, q, turn).value.token.Some? ==> Begin(db, q, turn).value.turn == turn
  {
  }

  lemma AttachMoves(db: Db, q: RequeryRequest, kind: Kind, history: Id, token: Token)
    requires q.ticket.Some? ==> q.ticket.value.execution !in db.executions
    ensures var db' := Attach(db, q, kind, history, token);
            && Moves(db, db') && db'.records == db.records && db'.turns == db.turns && db'.epoch == db.epoch
            && db'.executions.Keys == db.executions.Keys + (if q.ticket.Some? then {q.ticket.value.execution} else {})
  {
    hide Moves;
    StayMoves(db);
    if q.ticket.Some? {
      var k := q.ticket.value;
      var b := Submission(q.owner, history, "", q.operation, k.requestHash, None, q.epoch, kind, k.operationKind, None);
      InsertMoves(db, k.execution, NewExecution(b, token));
    }
  }

  // Rows are only changed, and none is added.
  ghost predicate Within(db: Db, db': Db) {
    && Moves(db, db')
    && db'.records.Keys <= db.records.Keys && db'.turns.Keys <= db.turns.Keys
    && db'.executions.Keys <= db.executions.Keys
    && db'.epoch == db.epoch
  }

  lemma ProgressMoves(db: Db, owner: nat, e: Id, reason: StopReason, expirable: bool)
    requires Consistent(db)
    ensures Within(db, After(db, MarkRunning(db, owner, e)))
            && Within(db, After(db, RequestStop(db, owner, e, reason, expirable)))
  {
    hide Consistent, Moves, Current;
    StayMoves(db);
    if OwnedExecution(db, owner, e).Some? {
      var x := db.executions[e];
      LiveReason(db, e);
      if x.status.Accepted? {
        InsertMoves(db, e, x.(status := Running));
      }
      if x.status.Accepted? || x.status.Running? {
        InsertMoves(db, e, x.(status := Stopping, stopReason := Some(reason)));
      }
    }
  }

  lemma FinishMoves(db: Db, owner: nat, token: Token, snapshot: Option<string>, error: Option<string>, link: Option<Id>)
    requires Consistent(db)
    requires FinishAttempt(db, owner, token, snapshot, error, link).Commit? ==> Linked(db, token.turn, link)
    ensures Within(db, After(db, FinishAttempt(db, owner, token, snapshot, error, link)))
  {
    hide Consistent, Moves, SettleTurn, Linked;
    StayMoves(db);
    var r := FinishAttempt(db, owner, token, snapshot, error, link);
    if r.Commit? {
      var x := Ended(db.turns[token.turn], snapshot, error);
      var status := if snapshot.Some? then Succeeded else FailedStatus;
      SettleMoves(db, token.history, token.turn, x, db.records[token.history].generation, link, status, error);
      SettleWithin(db, token.history, token.turn, x, db.records[token.history].generation, link, status, error);
    }
  }

  lemma SettleWithin(db: Db, h: Id, t: Id, x: Turn, generation: nat, link: Option<Id>, status: Status,
                     error: Option<string>)
    requires h in db.records && t in db.turns && (link.Some? ==> link.value in db.executions)
    ensures var db' := SettleTurn(db, h, t, x, generation, link, status, error);
            && db'.records.Keys == db.records.Keys && db'.turns.Keys == db.turns.Keys
            && db'.executions.Keys == db.executions.Keys
            && db'.epoch == db.epoch
  {
  }

  lemma FinishStoppedMoves(db: Db, owner: nat, token: Token, e: Id, status: Status, error: string)
    requires Consistent(db)
    requires FinishStopped(db, owner, token, e, status, error).Commit? ==> Agree(TurnFailed, status)
    ensures Within(db, After(db, FinishStopped(db, owner, token, e, status, error)))
  {
    hide Consistent, Moves, SettleTurn;
    StayMoves(db);
    var r := FinishStopped(db, owner, token, e, status, error);
    if r.Commit? {
      var x := Ended(db.turns[token.turn], None, Some(error));
      SettleMoves(db, token.history, token.turn, x, db.records[token.history].generation, Some(e), status, Some(error));
      SettleWithin(db, token.history, token.turn, x, db.records[token.history].generation, Some(e), status,
                   Some(error));
    }
  }

  lemma ReconcileMoves(db: Db, epoch: Id, h: Id)
    requires Consistent(db)
    ensures Within(db, After(db, Reconcile(db, epoch, h)))
  {
    hide Moves, SettleTurn, Link, DistinctTurns, DistinctExecutions, DistinctRecords, Executions, RecordOk;
    StayMoves(db);
    if h in db.records && db.records[h].active.Some? && Reconcile(db, epoch, h).Commit? {
      var t := db.records[h].active.value;
      ActiveTurn(db, h, t);
      LinkIs(db, t);
      assert TurnOk(db, t);
      var link := Link(db, t);
      if link.Some? {
        LinkedIsLive(db, link.value);
      }
      var x := db.turns[t].(status := TurnUnconfirmed);
      var error := if link.Some? then db.executions[link.value].error else None;
      SettleMoves(db, h, t, x, db.records[h].generation + 1, link, Unconfirmed, error);
      SettleWithin(db, h, t, x, db.records[h].generation + 1, link, Unconfirmed, error);
    }
  }

  lemma EditMoves(db: Db, owner: nat, h: Id, title: string, revision: nat)
    ensures Within(db, After(db, Rename(db, owner, h, title, revision)))
            && Within(db, After(db, Delete(db, owner, h, revision)))
  {
    hide Moves;
    StayMoves(db);
    if h in db.records {
      RecordMovesIn(db, h, Retitle(db.records[h], title));
      DeleteMoves(db, h);
    }
  }

  // Rows that a transaction adds carry its own identifiers.
  ghost predicate Adds(db: Db, db': Db, ids: set<Id>) {
    && Moves(db, db')
    && db'.records.Keys <= db.records.Keys + ids && db'.turns.Keys <= db.turns.Keys + ids
    && db'.executions.Keys <= db.executions.Keys + ids
    && (db'.epoch != db.epoch ==> db'.epoch.Some? && db'.epoch.value in ids)
  }

  lemma CreateAdds(db: Db, owner: nat, kind: Kind, question: string, operation: Id, history: Id)
    requires history !in db.records
    ensures Adds(db, After(db, Create(db, owner, kind, question, operation, history)), {history})
  {
    hide Moves, NewRecord, CreatedBy;
    StayMoves(db);
    RecordMovesIn(db, history, NewRecord(owner, kind, Clip(question), question, operation, Creation(kind, question)));
  }

  lemma BeginAdds(db: Db, q: Request, turn: Id)
    requires turn !in db.turns
    ensures Adds(db, After(db, Begin(db, q, turn)), {turn})
  {
    hide Moves, Begin;
    BeginMoves(db, q, turn);
  }

  lemma BeginAnalysisAdds(db: Db, owner: nat, h: Id, operation: Id, revision: nat, epoch: Id, turn: Id)
    requires turn !in db.turns
    ensures Adds(db, After(db, BeginAnalysis(db, owner, h, operation, revision, epoch, turn)), {turn})
  {
    hide Moves, Begin;
    StayMoves(db);
    if Owned(db, owner, h).Some? {
      var r := db.records[h];
      BeginAdds(db, Request(owner, h, r.firstQuestion, operation, r.contextRevision, epoch, Resume(revision)), turn);
    }
  }

  lemma RestartAdds(db: Db, epoch: Id)
    ensures Adds(db, Restart(db, epoch), {epoch})
  {
    hide Moves;
    EpochMoves(db, epoch);
  }

  lemma ApplyAdds(w: World, op: Op)
    requires Inv(w) && Allowed(w, op)
    ensures Adds(w.db, Apply(w.db, op), NewIds(op))
  {
    hide Consistent, Create, Begin, BeginAnalysis, BeginExecution, BeginRequery, MarkRunning, RequestStop,
      FinishAttempt, FinishStopped, Rename, Delete, Reconcile, Restart, Linked, Moves;
    forall id | id in NewIds(op)
      ensures id !in w.db.records && id !in w.db.turns && id !in w.db.executions
    {
      NewIdsFresh(w, op, id);
    }
    var db := w.db;
    match op
    case DoCreate(owner, kind, question, operation, history) =>
      CreateAdds(db, owner, kind, question, operation, history);
    case DoBegin(q, turn) => BeginAdds(db, q, turn);
    case DoBeginAnalysis(owner, h, operation, revision, epoch, turn) =>
      BeginAnalysisAdds(db, owner, h, operation, revision, epoch, turn);
    case DoBeginExecution(b, turn, execution) => BeginExecutionMoves(db, b, turn, execution);
    case DoBeginRequery(q, history, turn) => BeginRequeryMoves(db, q, history, turn);
    case DoMarkRunning(owner, e) => ProgressMoves(db, owner, e, UserCancelled, true);
    case DoRequestStop(owner, e, reason, expirable) => ProgressMoves(db, owner, e, reason, expirable);
    case DoFinish(owner, token, snapshot, error, e) => FinishMoves(db, owner, token, snapshot, error, e);
    case DoFinishStopped(owner, token, e, status, error) => FinishStoppedMoves(db, owner, token, e, status, error);
    case DoRename(owner, h, title, revision) => EditMoves(db, owner, h, title, revision);
    case DoDelete(owner, h, revision) => EditMoves(db, owner, h, "", revision);
    case DoReconcile(epoch, h) => ReconcileMoves(db, epoch, h);
    case DoRestart(epoch) => RestartAdds(db, epoch);
  }

  lemma StepEvolves(w: World, op: Op)
    requires Inv(w) && Allowed(w, op)
    ensures Inv(Step(w, op)) && Evolves(w, Step(w, op))
  {
    hide Consistent, Moves, Apply;
    ApplyKeeps(w, op);
    ApplyAdds(w, op);
  }

  lemma EvolvesTwice(w: World, w': World, w'': World)
    requires Inv(w) && Inv(w') && Evolves(w, w') && Evolves(w', w'')
    ensures Evolves(w, w'')
  {
    hide Consistent;
    MovesOn(w, w', w'');
    FreshOn(w, w', w'');
  }

  lemma MovesOn(w: World, w': World, w'': World)
    requires Inv(w) && Inv(w') && Evolves(w, w') && Evolves(w', w'')
    ensures Moves(w.db, w''.db)
  {
    hide Consistent;
    forall t | t in w.db.turns
      ensures if t in w''.db.turns then TurnMoves(w.db.turns[t], w''.db.turns[t])
              else Gone(w''.db, w.db.turns[t].history)
    {
      assert t in w''.db.turns ==> t in w'.db.turns;
    }
    forall e | e in w.db.executions
      ensures if e in w''.db.executions then ExecutionMoves(w.db.executions[e], w''.db.executions[e])
              else Gone(w''.db, w.db.executions[e].history)
    {
      assert e in w''.db.executions ==> e in w'.db.executions;
    }
  }

  lemma FreshOn(w: World, w': World, w'': World)
    requires Fresh(w.db, w'.db, w.issued) && Fresh(w'.db, w''.db, w'.issued) && w.issued <= w'.issued
    ensures Fresh(w.db, w''.db, w.issued)
  {
  }

  /**
   * Every run keeps the invariant, and changes what was there before only forward: revisions,
   * generations and ordinals grow, a turn that has ended stays as it is, an execution moves up to
   * a terminal status and stays there, and rows go only with their history.
   */
  lemma {:induction false} RunEvolves(w: World, ops: seq<Op>)
    requires Inv(w) && AllAllowed(w, ops)
    ensures Inv(Run(w, ops)) && Evolves(w, Run(w, ops))
  {
    hide Consistent, Moves, Fresh, Step, Allowed, Inv;
    if ops == [] {
      Stay(w);
    } else {
      var init := ops[..|ops| - 1];
      RunEvolves(w, init);
      StepEvolves(Run(w, init), ops[|ops| - 1]);
      EvolvesTwice(w, Run(w, init), Run(w, ops));
    }
  }

  lemma Stay(w: World)
    ensures Evolves(w, w)
  {
  }

  const START := World(EMPTY_DB, {})

  lemma StartInv()
    ensures Inv(START)
  {
    EmptyConsistent();
  }

  /** From the empty database, every run of allowed transactions and restarts keeps the invariant. */
  lemma EveryRunConsistent(ops: seq<Op>)
    requires AllAllowed(START, ops)
    ensures Inv(Run(START, ops)) && Consistent(Run(START, ops).db)
  {
    hide *;
    StartInv();
    RunEvolves(START, ops);
    InvConsistent(Run(START, ops));
  }

  lemma InvConsistent(w: World)
    ensures Inv(w) ==> Consistent(w.db)
  {
  }

  // ---------------------------------------------------------------- what follows

  /** Stop versus completion: a stopping execution never succeeds, and its first reason stays. */
  lemma StopWins(w: World, ops: seq<Op>, e: Id)
    requires Inv(w) && AllAllowed(w, ops) && e in w.db.executions && w.db.executions[e].status.Stopping?
    requires e in Run(w, ops).db.executions
    ensures var x, x' := w.db.executions[e], Run(w, ops).db.executions[e];
            && !x'.status.Succeeded? && x'.stopReason == x.stopReason
            && x'.history == x.history && x'.turn == x.turn
            && InHistory(Run(w, ops).db, x.history, x.turn) && !Run(w, ops).db.turns[x.turn].status.TurnSucceeded?
  {
    hide Consistent, Run, AllAllowed;
    RunEvolves(w, ops);
    LiveReason(w.db, e);
    LiveWhileAccepted(Run(w, ops).db, e);
  }

  /**
   * Replaying an accepted operation later gives the same execution and changes nothing, as long as
   * its history is not deleted; with another hash it conflicts.
   */
  lemma ReplayLater(w: World, ops: seq<Op>, e: Id, b: Submission, turn: Id, execution: Id)
    requires Inv(w) && AllAllowed(w, ops) && e in w.db.executions
    requires b.owner == w.db.executions[e].owner && b.operation == w.db.executions[e].operation
    requires !Gone(Run(w, ops).db, w.db.executions[e].history)
    ensures var db' := Run(w, ops).db;
            BeginExecution(db', b, turn, execution)
            == if b.requestHash == w.db.executions[e].requestHash then Commit(Acceptance(e, None, false), db')
               else Abort(OperationConflict)
  {
    hide Consistent, Run, AllAllowed, ExecutionOf, Begin;
    RunEvolves(w, ops);
    ExecutionOfIs(Run(w, ops).db, b.owner, b.operation, e);
  }

  /** A requery that was accepted with an execution replays in the same way. */
  lemma RequeryLater(w: World, ops: seq<Op>, e: Id, q: RequeryRequest, history: Id, turn: Id)
    requires Inv(w) && AllAllowed(w, ops) && e in w.db.executions && q.ticket.Some?
    requires q.owner == w.db.executions[e].owner && q.operation == w.db.executions[e].operation
    requires !Gone(Run(w, ops).db, w.db.executions[e].history)
    ensures var db' := Run(w, ops).db;
            var x := w.db.executions[e];
            BeginRequery(db', q, history, turn)
            == if q.ticket.value.requestHash == x.requestHash
               then Commit(Requeried(x.history, Attempted(None, x.turn), Some(e), false), db')
               else Abort(OperationConflict)
  {
    hide Consistent, Run, AllAllowed, ExecutionOf, Begin, CreatedBy, Resolve, Repeated;
    RunEvolves(w, ops);
    var db' := Run(w, ops).db;
    ExecutionOfIs(db', q.owner, q.operation, e);
    OwnerOf(db', e);
  }

  lemma OwnerOf(db: Db, e: Id)
    requires Consistent(db) && e in db.executions
    ensures var x := db.executions[e]; x.history in db.records && db.records[x.history].owner == x.owner
  {
    assert ExecutionOk(db, e);
  }

  /** A token of an earlier generation or of an earlier process never changes anything again. */
  lemma StaleToken(w: World, ops: seq<Op>, token: Token)
    requires Inv(w) && AllAllowed(w, ops) && token.epoch in w.issued
    requires || (token.history in w.db.records && token.generation < w.db.records[token.history].generation)
             || w.db.epoch != Some(token.epoch)
    ensures Fenced(Run(w, ops).db, token)
  {
    hide Consistent, Run, AllAllowed;
    RunEvolves(w, ops);
    var db' := Run(w, ops).db;
    assert !Holds(db', token);
  }

  // No completion with this token commits.
  ghost predicate Fenced(db: Db, token: Token) {
    && (forall owner, snapshot, error, link :: FinishAttempt(db, owner, token, snapshot, error, link).Abort?)
    && (forall owner, e, status, message :: FinishStopped(db, owner, token, e, status, message).Abort?)
  }

  lemma EndedTurnFenced(db: Db, token: Token)
    requires Consistent(db) && (InHistory(db, token.history, token.turn) ==> !db.turns[token.turn].status.TurnAccepted?)
    ensures Fenced(db, token)
  {
    hide Consistent;
  }

  /** An issued token completes its turn at most once. */
  lemma CompletesOnce(w: World, op: Op, ops: seq<Op>)
    requires Inv(w) && Allowed(w, op) && AllAllowed(Step(w, op), ops)
    requires || (op.DoFinish? && FinishAttempt(w.db, op.owner, op.token, op.snapshot, op.error, op.link).Commit?)
             || (op.DoFinishStopped? && FinishStopped(w.db, op.owner, op.token, op.execution, op.status,
                                                      op.message).Commit?)
    ensures Fenced(Run(Step(w, op), ops).db, op.token)
  {
    hide Consistent, Run, AllAllowed, Fenced;
    var w1 := Step(w, op);
    StepEvolves(w, op);
    RunEvolves(w1, ops);
    var t := op.token.turn;
    FinishEnds(w, op);
    EndedTurnFenced(Run(w1, ops).db, op.token);
  }

  lemma FinishEnds(w: World, op: Op)
    requires || (op.DoFinish? && FinishAttempt(w.db, op.owner, op.token, op.snapshot, op.error, op.link).Commit?)
             || (op.DoFinishStopped? && FinishStopped(w.db, op.owner, op.token, op.execution, op.status,
                                                      op.message).Commit?)
    ensures var db' := Step(w, op).db; op.token.turn in db'.turns && !db'.turns[op.token.turn].status.TurnAccepted?
    ensures op.token.turn in w.db.turns
  {
  }

  /** Two edits never succeed against the same revision of a record. */
  lemma EditsOnce(w: World, op: Op, w': World, ops: seq<Op>, h: Id, owner: nat, title: string)
    requires Inv(w) && Allowed(w, op) && w' == Step(w, op) && AllAllowed(w', ops)
    requires h in w.db.records && (h in w'.db.records ==> w'.db.records[h] != w.db.records[h])
    ensures var db', revision := Run(w', ops).db, w.db.records[h].recordRevision;
            Rename(db', owner, h, title, revision).Abort? && Delete(db', owner, h, revision).Abort?
  {
    hide Consistent, Run, AllAllowed, Step, Allowed;
    StepEvolves(w, op);
    RunEvolves(w', ops);
    assert RecordMoves(w.db.records[h], w'.db.records[h]);
  }
}
