/** The history store: each method is one transaction over the tables. */
module HistoryStore {
  import opened Wrappers
  import opened ExecutionEvents
  import opened HistoryModel
  import opened HistoryInvariant
  import T = HistoryTransactions

  datatype Outcome<+V> = Done(value: V) | Raised(error: HistoryError)

  class PostgresHistoryStore {
    var records: map<Id, Record>
    var turns: map<Id, Turn>
    var executions: map<Id, Execution>
    var saved: map<Id, Saved>
    var epoch: Option<Id>

    function Tables(): Db
      reads this
    {
      Db(records, turns, executions, saved, epoch)
    }

    ghost predicate Valid()
      reads this
    {
      Consistent(Tables())
    }

    // The call has done what the transaction says.
    ghost predicate Follows<V>(r: Outcome<V>, before: Db, tx: Tx<V>)
      reads this
    {
      match tx
      case Commit(value, db) => r == Done(value) && Tables() == db
      case Abort(error) => r == Raised(error) && Tables() == before
    }

    constructor ()
      ensures Valid() && Tables() == EMPTY_DB
    {
      records, turns, executions, saved, epoch := map[], map[], map[], map[], None;
      new;
      EmptyConsistent();
    }

    // ---------------------------------------------------------------- selects

    method SelectTurn(h: Id, operation: Id) returns (r: Option<Id>)
      requires Valid()
      ensures r == TurnOf(Tables(), h, operation) && (r.Some? ==> r.value in turns)
    {
      if t :| t in turns && turns[t].history == h && turns[t].operation == operation {
        TurnOfIs(Tables(), h, operation, t);
        return Some(t);
      }
      return None;
    }

    method SelectExecution(owner: nat, operation: Id) returns (r: Option<Id>)
      requires Valid()
      ensures r == ExecutionOf(Tables(), owner, operation) && (r.Some? ==> r.value in executions)
    {
      if e :| e in executions && executions[e].owner == owner && executions[e].operation == operation {
        ExecutionOfIs(Tables(), owner, operation, e);
        return Some(e);
      }
      return None;
    }

    method SelectCreation(owner: nat, operation: Id) returns (r: Option<Id>)
      requires Valid()
      ensures r == CreatedBy(Tables(), owner, operation) && (r.Some? ==> r.value in records)
    {
      if h :| h in records && records[h].owner == owner && records[h].creationOperation == operation {
        CreatedByIs(Tables(), owner, operation, h);
        return Some(h);
      }
      return None;
    }

    // ---------------------------------------------------------------- accepting an attempt

    method Begin(q: T.Request, turn: Id) returns (r: Outcome<T.Attempted>)
      requires Valid()
      modifies `records, `turns
      ensures Follows(r, old(Tables()), T.Begin(old(Tables()), q, turn))
    {
      hide Consistent, TurnOf;
      if q.history !in records || records[q.history].owner != q.owner || records[q.history].deleted {
        return Raised(Unavailable);
      }
      var header := records[q.history];
      var previous := SelectTurn(q.history, q.operation);
      if previous.Some? {
        var row := turns[previous.value];
        if row.hash != q.digest {
          return Raised(OperationConflict);
        }
        if row.status == TurnAccepted {
          return Raised(Busy);
        }
        if row.status == TurnUnconfirmed {
          return Raised(SaveUnconfirmed);
        }
        return Done(T.Attempted(None, previous.value));
      }
      if header.active.Some? {
        return Raised(Busy);
      }
      if header.contextRevision != q.revision {
        return Raised(Stale);
      }
      if epoch != Some(q.epoch) {
        return Raised(StorageUnavailable);
      }
      var generation := header.generation + 1;
      turns := turns[turn := Turn(q.history, header.nextOrdinal, q.operation, q.digest, q.question, TurnAccepted,
                                  q.epoch, generation, None, None, None)];
      records := records[q.history := header.(active := Some(turn), generation := generation,
                                              nextOrdinal := header.nextOrdinal + 1,
                                              recordRevision := header.recordRevision + 1)];
      r := Done(T.Attempted(Some(Token(q.history, turn, q.epoch, generation)), turn));
    }

    method BeginAnalysis(owner: nat, h: Id, operation: Id, revision: nat, runtimeEpoch: Id, turn: Id)
      returns (r: Outcome<T.Attempted>)
      requires Valid()
      modifies `records, `turns
      ensures Follows(r, old(Tables()), T.BeginAnalysis(old(Tables()), owner, h, operation, revision, runtimeEpoch,
                                                        turn))
    {
      hide T.Begin, Consistent, TurnOf;
      if h !in records || records[h].owner != owner || records[h].deleted {
        return Raised(Unavailable);
      }
      var header := records[h];
      var existing := SelectTurn(h, operation);
      if existing.None? && header.recordRevision != revision {
        return Raised(Stale);
      }
      r := Begin(T.Request(owner, h, header.firstQuestion, operation, header.contextRevision, runtimeEpoch,
                           Resume(revision)), turn);
    }

    method BeginExecution(b: T.Submission, turn: Id, execution: Id) returns (r: Outcome<T.Acceptance>)
      requires Valid()
      modifies `records, `turns, `executions
      ensures Follows(r, old(Tables()), T.BeginExecution(old(Tables()), b, turn, execution))
    {
      hide T.Begin, Consistent, ExecutionOf;
      var existing := SelectExecution(b.owner, b.operation);
      if existing.Some? {
        if executions[existing.value].requestHash != b.requestHash {
          return Raised(OperationConflict);
        }
        return Done(T.Acceptance(existing.value, None, false));
      }
      if b.history !in records || records[b.history].owner != b.owner || records[b.history].deleted {
        return Raised(Unavailable);
      }
      var header := records[b.history];
      if header.kind != b.mode {
        return Raised(InvalidRequest);
      }
      var question, revision, digest := "", 0, Resume(0);
      if b.mode == AnalysisKind {
        if b.expectedRecordRevision.None? {
          return Raised(InvalidRequest);
        }
        if header.recordRevision != b.expectedRecordRevision.value {
          return Raised(Stale);
        }
        question, revision, digest := header.firstQuestion, header.contextRevision,
          Resume(b.expectedRecordRevision.value);
      } else {
        if b.revision.None? {
          return Raised(InvalidRequest);
        }
        question, revision, digest := b.question, b.revision.value, Attempt(b.question, b.revision.value);
      }
      ghost var before := Tables();
      var accepted := Begin(T.Request(b.owner, b.history, question, b.operation, revision, b.epoch, digest), turn);
      if accepted.Raised? {
        return Raised(accepted.error);
      }
      if accepted.value.token.None? {
        BegunNothing(before, T.Request(b.owner, b.history, question, b.operation, revision, b.epoch, digest), turn);
        return Raised(OperationConflict);
      }
      executions := executions[execution := T.NewExecution(b, accepted.value.token.value)];
      r := Done(T.Acceptance(execution, Some(accepted.value), true));
    }

    // ---------------------------------------------------------------- requery

    method BeginRequery(q: T.RequeryRequest, history: Id, turn: Id) returns (r: Outcome<T.Requeried>)
      requires Valid() && history !in records && turn !in turns
      modifies `records, `turns, `executions
      ensures Follows(r, old(Tables()), T.BeginRequery(old(Tables()), q, history, turn))
    {
      hide T.Begin, Consistent, ExecutionOf, CreatedBy, TurnOf, T.Resolve, NewRecord;
      if q.ticket.Some? {
        var known := SelectExecution(q.owner, q.operation);
        if known.Some? {
          var row := executions[known.value];
          if row.requestHash != q.ticket.value.requestHash {
            return Raised(OperationConflict);
          }
          if row.history !in records || records[row.history].owner != q.owner || records[row.history].deleted {
            return Raised(Unavailable);
          }
          return Done(T.Requeried(row.history, T.Attempted(None, row.turn), known, false));
        }
      }
      var existing := SelectCreation(q.owner, q.operation);
      if existing.Some? {
        r := Repeat(q, existing.value);
        return;
      }
      var material := T.Resolve(Tables(), q.owner, q.source);
      if material.Refused? {
        return Raised(material.error);
      }
      var m := material.value;
      var rollback := records;
      var record := NewRecord(q.owner, m.kind, m.title.GetOr(T.Clip(m.question)), m.question, q.operation,
                              Requery(q.source));
      InsertedRecord(Tables(), history, record, q.owner, m.kind, m.title.GetOr(T.Clip(m.question)), m.question,
                     q.operation, Requery(q.source));
      records := records[history := record];
      ghost var db1 := Tables();
      var accepted := Begin(T.Request(q.owner, history, m.question, q.operation, 0, q.epoch, Requery(q.source)), turn);
      if accepted.Raised? {
        records := rollback;
        return Raised(accepted.error);
      }
      FirstAttempt(db1, T.Request(q.owner, history, m.question, q.operation, 0, q.epoch, Requery(q.source)), turn);
      turns := turns[turn := turns[turn].(input := Some(m.input))];
      if q.ticket.None? {
        return Done(T.Requeried(history, accepted.value, None, true));
      }
      var k := q.ticket.value;
      var token := accepted.value.token.value;
      executions := executions[k.execution :=
                                 Execution(q.owner, token.history, token.turn, q.operation, k.requestHash, m.kind,
                                           k.operationKind, Status.Accepted, None, token.epoch, token.generation,
                                           None)];
      r := Done(T.Requeried(history, accepted.value, Some(k.execution), true));
    }

    method Repeat(q: T.RequeryRequest, h: Id) returns (r: Outcome<T.Requeried>)
      requires Valid() && h in records
      ensures Follows(r, Tables(), T.Repeated(Tables(), q, h))
    {
      hide Consistent, TurnOf;
      if q.ticket.Some? {
        return Raised(OperationConflict);
      }
      if records[h].creationHash != Requery(q.source) {
        return Raised(OperationConflict);
      }
      if records[h].deleted {
        return Raised(Unavailable);
      }
      var turn := SelectTurn(h, q.operation);
      if turn.None? {
        return Raised(StorageUnavailable);
      }
      if turns[turn.value].status == TurnAccepted {
        return Raised(Busy);
      }
      if turns[turn.value].status == TurnUnconfirmed {
        return Raised(SaveUnconfirmed);
      }
      r := Done(T.Requeried(h, T.Attempted(None, turn.value), None, false));
    }

    // ---------------------------------------------------------------- histories

    method Create(owner: nat, kind: Kind, question: string, operation: Id, history: Id) returns (r: Outcome<Id>)
      requires Valid()
      modifies `records
      ensures Follows(r, old(Tables()), T.Create(old(Tables()), owner, kind, question, operation, history))
    {
      hide Consistent, CreatedBy;
      var row := SelectCreation(owner, operation);
      if row.None? {
        records := records[history := NewRecord(owner, kind, T.Clip(question), question, operation,
                                                Creation(kind, question))];
        return Done(history);
      }
      if records[row.value].deleted {
        return Raised(Unavailable);
      }
      if records[row.value].creationHash != Creation(kind, question) {
        return Raised(OperationConflict);
      }
      r := Done(row.value);
    }

    method Rename(owner: nat, h: Id, title: string, revision: nat) returns (r: Outcome<Id>)
      modifies `records
      ensures Follows(r, old(Tables()), T.Rename(old(Tables()), owner, h, title, revision))
    {
      if h !in records || records[h].owner != owner || records[h].deleted {
        return Raised(Unavailable);
      }
      var header := records[h];
      if header.recordRevision != revision {
        return Raised(Stale);
      }
      records := records[h := header.(title := title, recordRevision := header.recordRevision + 1)];
      r := Done(h);
    }

    method Delete(owner: nat, h: Id, revision: nat) returns (r: Outcome<Id>)
      requires Valid()
      modifies `records, `turns, `executions
      ensures Follows(r, old(Tables()), T.Delete(old(Tables()), owner, h, revision))
    {
      hide Consistent, Cascade, ExecutionsOutside, TurnsOutside;
      CascadeIs(Tables(), h);
      if h !in records || records[h].owner != owner || records[h].deleted {
        return Raised(Unavailable);
      }
      var header := records[h];
      if header.active.Some? {
        return Raised(Busy);
      }
      if header.recordRevision != revision {
        return Raised(Stale);
      }
      records := records[h := header.(title := "", firstQuestion := "", lastSuccess := None, active := None,
                                      deleted := true,
                                      generation := header.generation + 1,
                                        recordRevision := header.recordRevision + 1)];
      executions := Cascade(executions, turns, h);
      turns := TurnsOutside(turns, h);
      r := Done(h);
    }

    // ---------------------------------------------------------------- executions

    method MarkRunning(owner: nat, e: Id) returns (r: Outcome<Id>)
      modifies `executions
      ensures Follows(r, old(Tables()), T.MarkRunning(old(Tables()), owner, e))
    {
      if e in executions && executions[e].owner == owner && executions[e].status == Status.Accepted {
        var x := executions[e];
        if x.history in records && records[x.history].owner == x.owner && records[x.history].active == Some(x.turn)
           && records[x.history].generation == x.generation
           && x.turn in turns && turns[x.turn].history == x.history && turns[x.turn].status == TurnAccepted
           && turns[x.turn].epoch == x.epoch && epoch == Some(x.epoch)
        {
          executions := executions[e := x.(status := Running)];
          return Done(e);
        }
      }
      if e !in executions || executions[e].owner != owner {
        return Raised(Unavailable);
      }
      if executions[e].status == Stopping {
        return Raised(ExecutionStopped(executions[e].stopReason));
      }
      if executions[e].status != Running {
        return Raised(SaveUnconfirmed);
      }
      r := Done(e);
    }

    method RequestStop(owner: nat, e: Id, reason: StopReason, expirable: bool) returns (r: Outcome<Id>)
      modifies `executions
      ensures Follows(r, old(Tables()), T.RequestStop(old(Tables()), owner, e, reason, expirable))
    {
      if e !in executions || executions[e].owner != owner {
        return Raised(Unavailable);
      }
      var x := executions[e];
      if x.history !in records || records[x.history].owner != owner || records[x.history].deleted {
        return Raised(Unavailable);
      }
      var history := records[x.history];
      if x.status == Stopping {
        return Done(e);
      }
      if x.status != Status.Accepted && x.status != Running {
        return Done(e);
      }
      if history.active != Some(x.turn) || history.generation != x.generation || epoch != Some(x.epoch) {
        return Raised(SaveUnconfirmed);
      }
      if reason == UserCancelled && x.mode == AnalysisKind && !expirable {
        return Raised(SaveUnconfirmed);
      }
      executions := executions[e := x.(status := Stopping, stopReason := Some(reason))];
      r := Done(e);
    }

    method FinishAttempt(owner: nat, token: Token, snapshot: Option<string>, error: Option<string>,
                         execution: Option<Id>)
      returns (r: Outcome<Id>)
      modifies `records, `turns, `executions
      ensures Follows(r, old(Tables()), T.FinishAttempt(old(Tables()), owner, token, snapshot, error, execution))
    {
      hide SettleTurn;
      ghost var before := Tables();
      if token.history !in records || records[token.history].owner != owner || records[token.history].deleted {
        return Raised(Unavailable);
      }
      var header := records[token.history];
      if execution.Some? {
        if execution.value !in executions || executions[execution.value].owner != owner {
          return Raised(Unavailable);
        }
        if executions[execution.value].status == Stopping {
          return Raised(ExecutionStopped(executions[execution.value].stopReason));
        }
        if executions[execution.value].status != Status.Accepted && executions[execution.value].status != Running {
          return Raised(SaveUnconfirmed);
        }
      }
      if header.active != Some(token.turn) || header.generation != token.generation || epoch != Some(token.epoch) {
        return Raised(SaveUnconfirmed);
      }
      if token.turn !in turns || turns[token.turn].history != token.history || turns[token.turn].status != TurnAccepted
         || turns[token.turn].epoch != token.epoch || turns[token.turn].generation != token.generation
      {
        return Raised(SaveUnconfirmed);
      }
      var success := snapshot.Some?;
      turns := turns[token.turn := turns[token.turn].(status := if success then TurnSucceeded else TurnFailed,
                                                      snapshot := snapshot, error := error)];
      records := records[token.history :=
                           header.(active := None, recordRevision := header.recordRevision + 1,
                                   contextRevision := header.contextRevision + (if success then 1 else 0),
                                   lastSuccess := if success then Some(token.turn) else header.lastSuccess)];
      if execution.Some? {
        executions := executions[execution.value :=
                                   executions[execution.value].(status := if success then Succeeded else FailedStatus,
                                                                error := error)];
      }
      Settled(before, Tables(), token.history, token.turn, T.Ended(before.turns[token.turn], snapshot, error),
              header.generation, execution, if success then Succeeded else FailedStatus, error);
      r := Done(token.turn);
    }

    method FinishStopped(owner: nat, token: Token, e: Id, status: Status, error: string) returns (r: Outcome<Id>)
      modifies `records, `turns, `executions
      ensures Follows(r, old(Tables()), T.FinishStopped(old(Tables()), owner, token, e, status, error))
    {
      if token.history !in records || records[token.history].owner != owner || records[token.history].deleted {
        return Raised(Unavailable);
      }
      var history := records[token.history];
      if history.active != Some(token.turn) || history.generation != token.generation || epoch != Some(token.epoch) {
        return Raised(SaveUnconfirmed);
      }
      if e !in executions || executions[e].owner != owner {
        return Raised(Unavailable);
      }
      var x := executions[e];
      if x.history != token.history || x.turn != token.turn || x.generation != token.generation
        || x.status != Stopping {
        return Raised(SaveUnconfirmed);
      }
      if token.turn !in turns || turns[token.turn].history != token.history || turns[token.turn].status != TurnAccepted
         || turns[token.turn].epoch != token.epoch || turns[token.turn].generation != token.generation
      {
        return Raised(SaveUnconfirmed);
      }
      turns := turns[token.turn := turns[token.turn].(status := TurnFailed, snapshot := None, error := Some(error))];
      records := records[token.history := history.(active := None, recordRevision := history.recordRevision + 1)];
      executions := executions[e := x.(status := status, error := Some(error))];
      r := Done(token.turn);
    }

    // ---------------------------------------------------------------- recovery

    // A new process takes the database over.
    method Restart(newEpoch: Id)
      modifies this
      ensures Tables() == T.Restart(old(Tables()), newEpoch)
    {
      epoch := Some(newEpoch);
      turns := UnconfirmAll(turns);
      executions := GiveUpAll(executions);
      records := ReleaseAll(records);
    }

    // Gives up the active turn of a history that no worker of this process runs.
    method Reconcile(runtimeEpoch: Id, h: Id) returns (r: Outcome<Id>)
      requires Valid()
      modifies `records, `turns, `executions
      ensures Follows(r, old(Tables()), T.Reconcile(old(Tables()), runtimeEpoch, h))
    {
      hide Consistent, GiveUpFor, T.Link;
      if h !in records || records[h].active.None? {
        return Done(h);
      }
      var t := records[h].active.value;
      if t !in turns || turns[t].status != TurnAccepted || turns[t].epoch != runtimeEpoch {
        return Raised(StorageUnavailable);
      }
      GivenUp(Tables(), h, t, runtimeEpoch);
      turns := turns[t := turns[t].(status := TurnUnconfirmed)];
      executions := GiveUpFor(executions, h, t, runtimeEpoch);
      records := records[h := records[h].(active := None, generation := records[h].generation + 1,
                                          recordRevision := records[h].recordRevision + 1)];
      r := Done(h);
    }
  }

  lemma BegunNothing(db: Db, q: T.Request, turn: Id)
    requires T.Begin(db, q, turn).Commit? && T.Begin(db, q, turn).value.token.None?
    ensures T.Begin(db, q, turn).db == db
  {
  }

  lemma InsertedRecord(db: Db, h: Id, r: Record, owner: nat, kind: Kind, title: string, question: string,
                       operation: Id, hash: Digest)
    requires Consistent(db) && h !in db.records && CreatedBy(db, owner, operation).None?
    requires r == NewRecord(owner, kind, title, question, operation, hash)
    ensures Consistent(db.(records := db.records[h := r]))
            && TurnOf(db.(records := db.records[h := r]), h, operation).None?
    ensures r.owner == owner && !r.deleted
  {
    hide Consistent, CreatedBy;
    T.NewRecordIs(r, owner, kind, title, question, operation, hash);
    T.NoCreation(db, owner, operation);
    RecordKeeps(db, h, r);
    NoTurns(db, h);
  }

  lemma NoTurns(db: Db, h: Id)
    requires Consistent(db) && h !in db.records
    ensures forall t {:trigger db.turns[t]} :: t in db.turns ==> db.turns[t].history != h
  {
    TurnsKnown(db);
  }

  // The first attempt of a new history has a token.
  lemma FirstAttempt(db: Db, q: T.Request, turn: Id)
    requires TurnOf(db, q.history, q.operation).None? && T.Begin(db, q, turn).Commit?
    ensures T.Begin(db, q, turn).value.token.Some? && T.Begin(db, q, turn).value.turn == turn
    ensures turn in T.Begin(db, q, turn).db.turns
  {
  }

  // What is left of the executions when the turns of a history are deleted
  function Cascade(executions: map<Id, Execution>, turns: map<Id, Turn>, h: Id): map<Id, Execution> {
    map e | e in executions && !(executions[e].turn in turns && turns[executions[e].turn].history == h) :: executions[e]
  }

  // The executions of a history are those of its turns.
  lemma CascadeIs(db: Db, h: Id)
    requires Consistent(db)
    ensures Cascade(db.executions, db.turns, h) == ExecutionsOutside(db.executions, h)
  {
    hide DistinctTurns, DistinctExecutions, DistinctRecords, Records, Turns;
    forall e | e in db.executions
      ensures db.executions[e].turn in db.turns && db.turns[db.executions[e].turn].history == db.executions[e].history
    {
      assert ExecutionOk(db, e);
    }
  }

  // The conditional update of a reconciliation
  function GiveUpFor(executions: map<Id, Execution>, h: Id, t: Id, epoch: Id): map<Id, Execution> {
    map e | e in executions ::
      if executions[e].history == h && executions[e].turn == t
        && executions[e].epoch == epoch then GiveUp(executions[e])
      else executions[e]
  }

  // Tables that hold the ended turn, the released record and the ended execution
  lemma Settled(db: Db, db': Db, h: Id, t: Id, x: Turn, generation: nat, link: Option<Id>, status: Status,
                error: Option<string>)
    requires h in db.records && (link.Some? ==> link.value in db.executions)
    requires db'.turns == db.turns[t := x] && db'.saved == db.saved && db'.epoch == db.epoch
    requires var r := db.records[h];
             var success := x.status.TurnSucceeded?;
             db'.records == db.records[h := r.(active := None, recordRevision := r.recordRevision + 1,
                                               generation := generation,
                                               contextRevision := r.contextRevision + (if success then 1 else 0),
                                               lastSuccess := if success then Some(t) else r.lastSuccess)]
    requires db'.executions == if link.None? then db.executions
                               else db.executions[link.value := db.executions[link.value].(status := status,
                                                                                           error := error)]
    ensures db' == SettleTurn(db, h, t, x, generation, link, status, error)
  {
  }

  lemma GivenUp(db: Db, h: Id, t: Id, epoch: Id)
    requires Consistent(db) && h in db.records && db.records[h].active == Some(t)
    requires t in db.turns && db.turns[t].status.TurnAccepted? && db.turns[t].epoch == epoch
    ensures GiveUpFor(db.executions, h, t, epoch)
            == match T.Link(db, t)
               case None => db.executions
               case Some(e) => db.executions[e := db.executions[e].(status := Unconfirmed)]
  {
    hide DistinctTurns, DistinctRecords, Turns, RecordOk;
    ActiveTurn(db, h, t);
    T.LinkIs(db, t);
    forall e | e in db.executions
      ensures ExecutionOk(db, e) && (T.Link(db, t) != Some(e) ==> db.executions[e].turn != t)
    {
      assert ExecutionOk(db, e);
      if T.Link(db, t) != Some(e) {
        NotLinked(db, t, T.Link(db, t), e);
      }
    }
  }
}
