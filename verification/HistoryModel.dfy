/** The rows of the history database: records, turns, executions and the runtime epoch. */
module HistoryModel {
  import opened Wrappers
  import opened ExecutionEvents

  type Id = string

  datatype Kind = QueryKind | AnalysisKind

  datatype Source = FromHistory(history: Id, turn: Option<Id>) | FromSaved(saved: Id)

  // `operation_hash` of a request, which is injective
  datatype Digest =
    | Creation(kind: Kind, question: string)
    | Attempt(question: string, revision: nat)
    | Resume(revision: nat)
    | Requery(source: Source)

  datatype Record = Record(
    owner: nat, kind: Kind, title: string, firstQuestion: string,
    creationOperation: Id, creationHash: Digest,
    contextRevision: nat, recordRevision: nat, nextOrdinal: nat,
    lastSuccess: Option<Id>, active: Option<Id>, generation: nat, deleted: bool)

  datatype TurnStatus = TurnAccepted | TurnSucceeded | TurnFailed | TurnUnconfirmed

  datatype Turn = Turn(
    history: Id, ordinal: nat, operation: Id, hash: Digest, question: string,
    status: TurnStatus, epoch: Id, generation: nat,
    snapshot: Option<string>, error: Option<string>, input: Option<string>)

  datatype Execution = Execution(
    owner: nat, history: Id, turn: Id, operation: Id, requestHash: string,
    mode: Kind, operationKind: string, status: Status, stopReason: Option<StopReason>,
    epoch: Id, generation: nat, error: Option<string>)

  // A saved result, as far as a requery reads it
  datatype Saved = Saved(owner: nat, kind: Kind, title: string, question: string, snapshot: string)

  datatype Db = Db(
    records: map<Id, Record>, turns: map<Id, Turn>, executions: map<Id, Execution>,
    saved: map<Id, Saved>, epoch: Option<Id>)

  datatype Token = Token(history: Id, turn: Id, epoch: Id, generation: nat)

  datatype HistoryError =
    | Unavailable | Busy | Stale | InvalidRequest | OperationConflict
    | SaveUnconfirmed | StorageUnavailable | NotSavable
    | ExecutionStopped(reason: Option<StopReason>)

  /** A transaction commits a new state or aborts and leaves the old one. */
  datatype Tx<+T> = Commit(value: T, db: Db) | Abort(error: HistoryError)

  // A check in front of a transaction
  datatype Checked<+T> = Passed(value: T) | Refused(error: HistoryError)

  // ---------------------------------------------------------------- queries

  function Owned(db: Db, owner: nat, h: Id): Option<Record> {
    if h in db.records && db.records[h].owner == owner && !db.records[h].deleted then Some(db.records[h]) else None
  }

  function OwnedExecution(db: Db, owner: nat, e: Id): Option<Execution> {
    if e in db.executions && db.executions[e].owner == owner then Some(db.executions[e]) else None
  }

  predicate IsCreation(db: Db, owner: nat, operation: Id, h: Id) {
    h in db.records && db.records[h].owner == owner && db.records[h].creationOperation == operation
  }

  predicate IsTurnOf(db: Db, h: Id, operation: Id, t: Id) {
    t in db.turns && db.turns[t].history == h && db.turns[t].operation == operation
  }

  predicate IsExecutionOf(db: Db, owner: nat, operation: Id, e: Id) {
    e in db.executions && db.executions[e].owner == owner && db.executions[e].operation == operation
  }

  ghost function CreatedBy(db: Db, owner: nat, operation: Id): Option<Id> {
    if h :| IsCreation(db, owner, operation, h) then Some(h) else None
  }

  ghost function TurnOf(db: Db, h: Id, operation: Id): Option<Id> {
    if t :| IsTurnOf(db, h, operation, t) then Some(t) else None
  }

  ghost function ExecutionOf(db: Db, owner: nat, operation: Id): Option<Id> {
    if e :| IsExecutionOf(db, owner, operation, e) then Some(e) else None
  }

  predicate IsLive(s: Status) {
    s.Accepted? || s.Running? || s.Stopping?
  }

  // ---------------------------------------------------------------- what every state keeps

  predicate InHistory(db: Db, h: Id, t: Id) {
    t in db.turns && db.turns[t].history == h
  }

  predicate Succeeds(db: Db, h: Id, t: Id) {
    InHistory(db, h, t) && db.turns[t].status.TurnSucceeded?
  }

  function SuccessesOf(db: Db, h: Id): set<Id> {
    set t | t in db.turns && Succeeds(db, h, t)
  }

  ghost predicate HasOrdinal(db: Db, h: Id, n: nat) {
    exists t :: InHistory(db, h, t) && db.turns[t].ordinal == n
  }

  // The latest success is the succeeded turn of highest ordinal.
  ghost predicate LastOk(db: Db, h: Id, last: Option<Id>) {
    match last
    case None => SuccessesOf(db, h) == {}
    case Some(t) =>
      Succeeds(db, h, t) && forall t' {:trigger Succeeds(db, h, t')} ::
        Succeeds(db, h, t') ==> db.turns[t'].ordinal <= db.turns[t].ordinal
  }

  // The active turn is accepted, and it is the newest.
  predicate IsActive(db: Db, h: Id, t: Id)
    requires h in db.records
  {
    InHistory(db, h, t) && db.turns[t].status.TurnAccepted? && db.turns[t].ordinal == db.records[h].nextOrdinal - 1
  }

  ghost predicate RecordOk(db: Db, h: Id)
    requires h in db.records
  {
    var r := db.records[h];
    && r.nextOrdinal >= 1
    && (r.active.Some? ==> IsActive(db, h, r.active.value))
    && (r.deleted ==> r.active.None?)
    && (!r.deleted ==>
          && r.contextRevision == |SuccessesOf(db, h)|
          && LastOk(db, h, r.lastSuccess)
          && forall n: nat {:trigger HasOrdinal(db, h, n)} :: 1 <= n < r.nextOrdinal ==> HasOrdinal(db, h, n))
  }

  ghost predicate TurnOk(db: Db, t: Id)
    requires t in db.turns
  {
    var x := db.turns[t];
    && x.history in db.records
    && var r := db.records[x.history];
       && !r.deleted
       && 1 <= x.ordinal < r.nextOrdinal && x.generation <= r.generation
       && (x.status.TurnAccepted? ==> r.active == Some(t) && x.generation == r.generation && Some(x.epoch) == db.epoch)
       && (x.status.TurnSucceeded? <==> x.snapshot.Some?)
  }

  predicate Agree(turn: TurnStatus, execution: Status) {
    match turn
    case TurnAccepted => IsLive(execution)
    case TurnSucceeded => execution.Succeeded?
    case TurnFailed => execution.FailedStatus? || execution.Cancelled? || execution.TimedOut?
    case TurnUnconfirmed => execution.Unconfirmed?
  }

  ghost predicate ExecutionOk(db: Db, e: Id)
    requires e in db.executions
  {
    var x := db.executions[e];
    && InHistory(db, x.history, x.turn)
    && x.history in db.records && db.records[x.history].owner == x.owner
    && x.generation == db.turns[x.turn].generation && x.epoch == db.turns[x.turn].epoch
    && Agree(db.turns[x.turn].status, x.status)
    && (x.status.Stopping? ==> x.stopReason.Some?)
    && (x.status.Accepted? || x.status.Running? ==> x.stopReason.None?)
  }

  // The unique constraints
  ghost predicate DistinctTurns(db: Db) {
    forall t, t' {:trigger db.turns[t], db.turns[t']} ::
      t in db.turns && t' in db.turns && t != t' && db.turns[t].history == db.turns[t'].history ==>
        && db.turns[t].ordinal != db.turns[t'].ordinal
        && db.turns[t].operation != db.turns[t'].operation
  }

  ghost predicate DistinctExecutions(db: Db) {
    forall e, e' {:trigger db.executions[e], db.executions[e']} ::
      e in db.executions && e' in db.executions && e != e' ==>
        && db.executions[e].turn != db.executions[e'].turn
        && (db.executions[e].owner == db.executions[e'].owner ==>
            db.executions[e].operation != db.executions[e'].operation)
  }

  ghost predicate DistinctRecords(db: Db) {
    forall h, h' {:trigger db.records[h], db.records[h']} ::
      h in db.records && h' in db.records && h != h' && db.records[h].owner == db.records[h'].owner ==>
        db.records[h].creationOperation != db.records[h'].creationOperation
  }

  ghost predicate Records(db: Db) {
    forall h {:trigger db.records[h]} :: h in db.records ==> RecordOk(db, h)
  }

  ghost predicate Turns(db: Db) {
    forall t {:trigger db.turns[t]} :: t in db.turns ==> TurnOk(db, t)
  }

  ghost predicate Executions(db: Db) {
    forall e {:trigger db.executions[e]} :: e in db.executions ==> ExecutionOk(db, e)
  }

  /** The invariant of the history database. */
  ghost predicate Consistent(db: Db) {
    && Records(db) && Turns(db) && Executions(db)
    && DistinctTurns(db) && DistinctExecutions(db) && DistinctRecords(db)
  }

  const EMPTY_DB := Db(map[], map[], map[], map[], None)

  lemma EmptyConsistent()
    ensures Consistent(EMPTY_DB)
  {
  }

  // ---------------------------------------------------------------- consequences

  /** At most one turn of a record is accepted, and it is the record's active turn. */
  lemma OneAccepted(db: Db, h: Id, t: Id)
    requires Consistent(db) && InHistory(db, h, t)
    ensures db.turns[t].status.TurnAccepted? <==> h in db.records && db.records[h].active == Some(t)
  {
    assert TurnOk(db, t);
    if h in db.records && db.records[h].active == Some(t) {
      assert RecordOk(db, h);
    }
  }

  /** The ordinals of a live record's turns are exactly 1 to `next_ordinal - 1`. */
  lemma OrdinalsExact(db: Db, h: Id, n: nat)
    requires Consistent(db) && h in db.records && !db.records[h].deleted
    ensures HasOrdinal(db, h, n) <==> 1 <= n < db.records[h].nextOrdinal
  {
    assert RecordOk(db, h);
    if t :| InHistory(db, h, t) && db.turns[t].ordinal == n {
      assert TurnOk(db, t);
    }
  }

  /** An execution is live exactly while its turn is accepted, and succeeded exactly when its turn is. */
  lemma LiveWhileAccepted(db: Db, e: Id)
    requires Consistent(db) && e in db.executions
    ensures var x := db.executions[e];
            && InHistory(db, x.history, x.turn)
            && (IsLive(x.status) <==> db.turns[x.turn].status.TurnAccepted?)
            && (x.status.Succeeded? <==> db.turns[x.turn].status.TurnSucceeded?)
            && (IsLive(x.status) ==> Some(x.epoch) == db.epoch)
  {
    hide RecordOk, DistinctTurns, DistinctExecutions, DistinctRecords;
    assert ExecutionOk(db, e);
    assert TurnOk(db, db.executions[e].turn);
  }

  // The unique rows that the queries select
  lemma TurnOfIs(db: Db, h: Id, operation: Id, t: Id)
    requires Consistent(db) && IsTurnOf(db, h, operation, t)
    ensures TurnOf(db, h, operation) == Some(t)
  {
  }

  lemma ExecutionOfIs(db: Db, owner: nat, operation: Id, e: Id)
    requires Consistent(db) && IsExecutionOf(db, owner, operation, e)
    ensures ExecutionOf(db, owner, operation) == Some(e)
  {
  }

  lemma CreatedByIs(db: Db, owner: nat, operation: Id, h: Id)
    requires Consistent(db) && IsCreation(db, owner, operation, h)
    ensures CreatedBy(db, owner, operation) == Some(h)
  {
  }
}
