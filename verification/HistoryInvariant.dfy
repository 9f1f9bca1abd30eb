/** The changes that transactions make to the history database, and that each keeps the invariant. */
module HistoryInvariant {
  import opened Wrappers
  import opened ExecutionEvents
  import opened HistoryModel

  // ---------------------------------------------------------------- frames

  // Two states with the same turns in one history
  ghost predicate SameTurns(db: Db, db': Db, h: Id) {
    && (forall t {:trigger InHistory(db, h, t)} :: InHistory(db, h, t) ==>
        InHistory(db', h, t) && db'.turns[t] == db.turns[t])
    && (forall t {:trigger InHistory(db', h, t)} :: InHistory(db', h, t) ==> InHistory(db, h, t))
  }

  lemma SameSuccesses(db: Db, db': Db, h: Id)
    requires SameTurns(db, db', h)
    ensures SuccessesOf(db', h) == SuccessesOf(db, h)
  {
    forall t
      ensures t in SuccessesOf(db', h) <==> t in SuccessesOf(db, h)
    {
      assert InHistory(db', h, t) <==> InHistory(db, h, t);
    }
  }

  lemma SameOrdinals(db: Db, db': Db, h: Id, n: nat)
    requires SameTurns(db, db', h) && HasOrdinal(db, h, n)
    ensures HasOrdinal(db', h, n)
  {
    var t :| InHistory(db, h, t) && db.turns[t].ordinal == n;
    assert InHistory(db', h, t) && db'.turns[t].ordinal == n;
  }

  lemma RecordFrame(db: Db, db': Db, h: Id)
    requires h in db.records && RecordOk(db, h) && SameTurns(db, db', h)
    requires h in db'.records
    requires db'.records[h] == db.records[h].(title := db'.records[h].title,
                                              recordRevision := db'.records[h].recordRevision)
    ensures RecordOk(db', h)
  {
    hide *;
    RecordParts(db, h);
    RecordParts(db', h);
    SameSuccesses(db, db', h);
    SameLast(db, db', h, db.records[h].lastSuccess);
    var r := db.records[h];
    if r.active.Some? {
      SameActive(db, db', h, r.active.value);
    }
    if !r.deleted {
      forall n: nat | 1 <= n < r.nextOrdinal
        ensures HasOrdinal(db', h, n)
      {
        SameOrdinals(db, db', h, n);
      }
    }
  }

  lemma SameTurn(db: Db, db': Db, h: Id, t: Id)
    requires SameTurns(db, db', h) && InHistory(db, h, t)
    ensures InHistory(db', h, t) && t in db'.turns && t in db.turns && db'.turns[t] == db.turns[t]
  {
  }

  lemma SameActive(db: Db, db': Db, h: Id, t: Id)
    requires SameTurns(db, db', h) && h in db.records && h in db'.records && IsActive(db, h, t)
    requires db'.records[h].nextOrdinal == db.records[h].nextOrdinal
    ensures IsActive(db', h, t)
  {
  }

  lemma SameLast(db: Db, db': Db, h: Id, last: Option<Id>)
    requires SameTurns(db, db', h)
    ensures LastOk(db, h, last) ==> LastOk(db', h, last)
  {
    SameSuccesses(db, db', h);
    if LastOk(db, h, last) && last.Some? {
      SameTurn(db, db', h, last.value);
      forall t | Succeeds(db', h, t)
        ensures db'.turns[t].ordinal <= db'.turns[last.value].ordinal
      {
        assert InHistory(db, h, t);
        assert Succeeds(db, h, t);
      }
    }
  }

  lemma RecordParts(db: Db, h: Id)
    requires h in db.records
    ensures RecordOk(db, h) <==>
              var r := db.records[h];
              && r.nextOrdinal >= 1
              && (r.active.Some? ==> IsActive(db, h, r.active.value))
              && (r.deleted ==> r.active.None?)
              && (!r.deleted ==>
                    && r.contextRevision == |SuccessesOf(db, h)|
                    && LastOk(db, h, r.lastSuccess)
                    && forall n: nat {:trigger HasOrdinal(db, h, n)} :: 1 <= n < r.nextOrdinal ==> HasOrdinal(db, h, n))
  {
  }

  // ---------------------------------------------------------------- a new turn

  function StartTurn(db: Db, h: Id, t: Id, x: Turn): Db
    requires h in db.records
  {
    var r := db.records[h];
    db.(turns := db.turns[t := x],
        records := db.records[h := r.(active := Some(t), generation := x.generation,
                                      nextOrdinal := r.nextOrdinal + 1, recordRevision := r.recordRevision + 1)])
  }

  // A turn that `_begin` may insert
  ghost predicate Startable(db: Db, h: Id, t: Id, x: Turn) {
    && h in db.records && !db.records[h].deleted && db.records[h].active.None?
    && t !in db.turns
    && x.history == h && x.ordinal == db.records[h].nextOrdinal && x.generation == db.records[h].generation + 1
    && x.status.TurnAccepted? && x.snapshot.None? && Some(x.epoch) == db.epoch
    && forall t' {:trigger db.turns[t']} :: t' in db.turns && db.turns[t'].history == h ==>
        db.turns[t'].operation != x.operation
  }

  lemma StartRecord(db: Db, h: Id, t: Id, x: Turn)
    requires Records(db) && Turns(db) && Startable(db, h, t, x)
    ensures RecordOk(StartTurn(db, h, t, x), h)
  {
    var db' := StartTurn(db, h, t, x);
    var r := db.records[h];
    assert RecordOk(db, h);
    assert SuccessesOf(db', h) == SuccessesOf(db, h);
    assert InHistory(db', h, t);
    assert HasOrdinal(db', h, r.nextOrdinal);
    forall n: nat | 1 <= n < r.nextOrdinal
      ensures HasOrdinal(db', h, n)
    {
      assert HasOrdinal(db, h, n);
      var t' :| InHistory(db, h, t') && db.turns[t'].ordinal == n;
      assert InHistory(db', h, t') && db'.turns[t'].ordinal == n;
    }
    if r.lastSuccess.Some? {
      assert Succeeds(db, h, r.lastSuccess.value);
      forall t' | Succeeds(db', h, t')
        ensures db'.turns[t'].ordinal <= db'.turns[r.lastSuccess.value].ordinal
      {
        assert Succeeds(db, h, t');
      }
    }
  }

  lemma StartOthers(db: Db, h: Id, t: Id, x: Turn, h': Id)
    requires Startable(db, h, t, x) && h' != h
    ensures SameTurns(db, StartTurn(db, h, t, x), h')
  {
  }

  lemma StartTurns(db: Db, h: Id, t: Id, x: Turn)
    requires Records(db) && Turns(db) && DistinctTurns(db) && Startable(db, h, t, x)
    ensures Turns(StartTurn(db, h, t, x)) && DistinctTurns(StartTurn(db, h, t, x))
  {
    hide Records, Turns, DistinctTurns;
    StartTurnsOk(db, h, t, x);
    StartTurnsDistinct(db, h, t, x);
  }

  lemma StartTurnsOk(db: Db, h: Id, t: Id, x: Turn)
    requires Records(db) && Turns(db) && Startable(db, h, t, x)
    ensures Turns(StartTurn(db, h, t, x))
  {
    var db' := StartTurn(db, h, t, x);
    assert RecordOk(db, h);
    forall t' | t' in db'.turns
      ensures TurnOk(db', t')
    {
      if t' != t {
        assert TurnOk(db, t');
      }
    }
  }

  lemma StartTurnsDistinct(db: Db, h: Id, t: Id, x: Turn)
    requires Turns(db) && DistinctTurns(db) && Startable(db, h, t, x)
    ensures DistinctTurns(StartTurn(db, h, t, x))
  {
    forall t' | t' in db.turns && db.turns[t'].history == h
      ensures db.turns[t'].ordinal < x.ordinal
    {
      assert TurnOk(db, t');
    }
    hide Turns, TurnOk;
  }

  lemma StartExecutions(db: Db, h: Id, t: Id, x: Turn)
    requires Executions(db) && Startable(db, h, t, x)
    ensures Executions(StartTurn(db, h, t, x))
  {
    var db' := StartTurn(db, h, t, x);
    forall e | e in db'.executions
      ensures ExecutionOk(db', e)
    {
      assert ExecutionOk(db, e);
    }
  }

  /** `_begin` keeps the invariant. */
  lemma StartKeeps(db: Db, h: Id, t: Id, x: Turn)
    requires Consistent(db) && Startable(db, h, t, x)
    ensures Consistent(StartTurn(db, h, t, x))
  {
    hide RecordOk, TurnOk, ExecutionOk, SameTurns;
    var db' := StartTurn(db, h, t, x);
    StartRecord(db, h, t, x);
    StartTurns(db, h, t, x);
    StartExecutions(db, h, t, x);
    forall h' | h' in db'.records
      ensures RecordOk(db', h')
    {
      if h' != h {
        StartOthers(db, h, t, x, h');
        RecordFrame(db, db', h');
      }
    }
  }

  // ---------------------------------------------------------------- a new execution

  function AddExecution(db: Db, e: Id, x: Execution): Db {
    db.(executions := db.executions[e := x])
  }

  // An execution that `insert_in_transaction` may insert for an accepted turn
  ghost predicate Addable(db: Db, e: Id, x: Execution) {
    && e !in db.executions
    && InHistory(db, x.history, x.turn) && db.turns[x.turn].status.TurnAccepted?
    && x.history in db.records && db.records[x.history].owner == x.owner
    && x.generation == db.turns[x.turn].generation && x.epoch == db.turns[x.turn].epoch
    && x.status.Accepted? && x.stopReason.None?
    && forall e' {:trigger db.executions[e']} :: e' in db.executions ==>
         db.executions[e'].turn != x.turn && !(db.executions[e'].owner == x.owner
                                               && db.executions[e'].operation == x.operation)
  }

  lemma OtherTablesKeep(db: Db, db': Db)
    requires db'.records == db.records && db'.turns == db.turns && db'.epoch == db.epoch
    ensures Records(db) ==> Records(db')
    ensures Turns(db) ==> Turns(db')
    ensures DistinctTurns(db) ==> DistinctTurns(db')
    ensures DistinctRecords(db) ==> DistinctRecords(db')
  {
    hide RecordOk;
    forall h | Records(db) && h in db'.records
      ensures RecordOk(db', h)
    {
      assert RecordOk(db, h);
      assert SameTurns(db, db', h);
      RecordFrame(db, db', h);
    }
    forall t | Turns(db) && t in db'.turns
      ensures TurnOk(db', t)
    {
      assert TurnOk(db, t);
    }
  }

  /** Inserting an execution for an accepted turn keeps the invariant. */
  lemma AddKeeps(db: Db, e: Id, x: Execution)
    requires Consistent(db) && Addable(db, e, x)
    ensures Consistent(AddExecution(db, e, x))
  {
    hide RecordOk, TurnOk, DistinctExecutions;
    var db' := AddExecution(db, e, x);
    OtherTablesKeep(db, db');
    forall e' | e' in db'.executions
      ensures ExecutionOk(db', e')
    {
      if e' != e {
        assert ExecutionOk(db, e');
      }
    }
    AddDistinct(db, e, x);
  }

  lemma AddDistinct(db: Db, e: Id, x: Execution)
    requires DistinctExecutions(db) && Addable(db, e, x)
    ensures DistinctExecutions(AddExecution(db, e, x))
  {
  }

  // ---------------------------------------------------------------- an execution moves

  // The same execution in another status
  ghost predicate SameExecution(x: Execution, x': Execution) {
    x' == x.(status := x'.status, stopReason := x'.stopReason, error := x'.error)
  }

  /** A change of status that fits the turn keeps the invariant. */
  lemma MoveKeeps(db: Db, e: Id, x: Execution)
    requires Consistent(db) && e in db.executions && SameExecution(db.executions[e], x)
    requires IsLive(db.executions[e].status) && IsLive(x.status)
    requires if x.status.Stopping? then x.stopReason.Some? else x.stopReason.None?
    ensures Consistent(AddExecution(db, e, x))
  {
    hide RecordOk, TurnOk, Turns, Executions, DistinctTurns, DistinctExecutions, DistinctRecords, SameExecution;
    OtherTablesKeep(db, AddExecution(db, e, x));
    MovedExecutions(db, e, x);
    MoveDistinct(db, e, x);
  }

  lemma MovedExecutions(db: Db, e: Id, x: Execution)
    requires Executions(db) && e in db.executions && SameExecution(db.executions[e], x)
    requires IsLive(db.executions[e].status) && IsLive(x.status)
    requires if x.status.Stopping? then x.stopReason.Some? else x.stopReason.None?
    ensures Executions(AddExecution(db, e, x))
  {
    var db' := AddExecution(db, e, x);
    assert ExecutionOk(db, e);
    forall e' | e' in db'.executions
      ensures ExecutionOk(db', e')
    {
      assert ExecutionOk(db, e');
    }
  }

  lemma MoveDistinct(db: Db, e: Id, x: Execution)
    requires DistinctExecutions(db) && e in db.executions && SameExecution(db.executions[e], x)
    ensures DistinctExecutions(AddExecution(db, e, x))
  {
  }

  // ---------------------------------------------------------------- the end of a turn

  /** The turn ends, the record lets it go, and the execution of the turn, if any, ends with it. */
  function SettleTurn(db: Db, h: Id, t: Id, x: Turn, generation: nat, link: Option<Id>,
                      status: Status, error: Option<string>): Db
    requires h in db.records && (link.Some? ==> link.value in db.executions)
  {
    var r := db.records[h];
    var success := x.status.TurnSucceeded?;
    db.(turns := db.turns[t := x],
        records := db.records[h := r.(active := None, recordRevision := r.recordRevision + 1, generation := generation,
                                      contextRevision := r.contextRevision + (if success then 1 else 0),
                                      lastSuccess := if success then Some(t) else r.lastSuccess)],
        executions := if link.None? then db.executions
                      else db.executions[link.value := db.executions[link.value].(status := status, error := error)])
  }

  // The execution of a turn, if it has one
  ghost predicate Linked(db: Db, t: Id, link: Option<Id>) {
    match link
    case Some(e) => e in db.executions && db.executions[e].turn == t
    case None => forall e {:trigger db.executions[e]} :: e in db.executions ==> db.executions[e].turn != t
  }

  // An end of the active turn of a record
  ghost predicate Settleable(db: Db, h: Id, t: Id, x: Turn, generation: nat, link: Option<Id>, status: Status) {
    && h in db.records && db.records[h].active == Some(t) && t in db.turns
    && x == db.turns[t].(status := x.status, snapshot := x.snapshot, error := x.error)
    && !x.status.TurnAccepted? && (x.status.TurnSucceeded? <==> x.snapshot.Some?)
    && generation >= db.records[h].generation
    && Linked(db, t, link) && Agree(x.status, status)
  }

  lemma SettleRecord(db: Db, h: Id, t: Id, x: Turn, generation: nat, link: Option<Id>, status: Status,
                     error: Option<string>)
    requires Records(db) && Turns(db) && Settleable(db, h, t, x, generation, link, status)
    ensures RecordOk(SettleTurn(db, h, t, x, generation, link, status, error), h)
  {
    hide Succeeds, LastOk, HasOrdinal, TurnOk;
    var db' := SettleTurn(db, h, t, x, generation, link, status, error);
    assert RecordOk(db, h);
    SettleCount(db, db', h, t, x);
    SettleLast(db, db', h, t, x);
    forall n: nat | 1 <= n < db.records[h].nextOrdinal
      ensures HasOrdinal(db', h, n)
    {
      SettleOrdinal(db, db', h, t, x, n);
    }
  }

  lemma SettleOrdinal(db: Db, db': Db, h: Id, t: Id, x: Turn, n: nat)
    requires InHistory(db, h, t) && x.history == h && x.ordinal == db.turns[t].ordinal && db'.turns == db.turns[t := x]
    requires HasOrdinal(db, h, n)
    ensures HasOrdinal(db', h, n)
  {
    var t' :| InHistory(db, h, t') && db.turns[t'].ordinal == n;
    assert InHistory(db', h, t') && db'.turns[t'].ordinal == n;
  }

  lemma SettleCount(db: Db, db': Db, h: Id, t: Id, x: Turn)
    requires InHistory(db, h, t) && db.turns[t].status.TurnAccepted? && x.history == h && db'.turns == db.turns[t := x]
    ensures SuccessesOf(db', h) == SuccessesOf(db, h) + (if x.status.TurnSucceeded? then {t} else {})
    ensures t !in SuccessesOf(db, h)
  {
  }

  lemma SettleLast(db: Db, db': Db, h: Id, t: Id, x: Turn)
    requires h in db.records && IsActive(db, h, t) && Turns(db) && db'.turns == db.turns[t := x]
    requires x == db.turns[t].(status := x.status, snapshot := x.snapshot, error := x.error) && !x.status.TurnAccepted?
    requires LastOk(db, h, db.records[h].lastSuccess)
    ensures LastOk(db', h, if x.status.TurnSucceeded? then Some(t) else db.records[h].lastSuccess)
  {
    hide TurnOk;
    SettleCount(db, db', h, t, x);
    forall t' | Succeeds(db', h, t')
      ensures t' == t || Succeeds(db, h, t')
      ensures db'.turns[t'].ordinal <= x.ordinal
    {
      if t' != t {
        assert Succeeds(db, h, t');
        OrdinalBelow(db, t');
      }
    }
  }

  lemma OrdinalBelow(db: Db, t: Id)
    requires Turns(db) && t in db.turns
    ensures db.turns[t].history in db.records && 1 <= db.turns[t].ordinal < db.records[db.turns[t].history].nextOrdinal
  {
    assert TurnOk(db, t);
  }

  lemma SettleTurns(db: Db, h: Id, t: Id, x: Turn, generation: nat, link: Option<Id>, status: Status,
                    error: Option<string>)
    requires Turns(db) && DistinctTurns(db) && InHistory(db, h, t) && Settleable(db, h, t, x, generation, link, status)
    ensures var db' := SettleTurn(db, h, t, x, generation, link, status, error); Turns(db') && DistinctTurns(db')
  {
    hide Turns, DistinctTurns;
    SettleTurnsOk(db, h, t, x, generation, link, status, error);
    SettleTurnsDistinct(db, h, t, x, generation, link, status, error);
  }

  lemma SettleTurnsOk(db: Db, h: Id, t: Id, x: Turn, generation: nat, link: Option<Id>, status: Status,
                      error: Option<string>)
    requires Turns(db) && InHistory(db, h, t) && Settleable(db, h, t, x, generation, link, status)
    ensures Turns(SettleTurn(db, h, t, x, generation, link, status, error))
  {
    var db' := SettleTurn(db, h, t, x, generation, link, status, error);
    forall t' | t' in db'.turns
      ensures TurnOk(db', t')
    {
      assert TurnOk(db, t');
    }
  }

  lemma SettleTurnsDistinct(db: Db, h: Id, t: Id, x: Turn, generation: nat, link: Option<Id>, status: Status,
                            error: Option<string>)
    requires DistinctTurns(db) && InHistory(db, h, t) && Settleable(db, h, t, x, generation, link, status)
    ensures DistinctTurns(SettleTurn(db, h, t, x, generation, link, status, error))
  {
  }

  lemma SettleExecutions(db: Db, h: Id, t: Id, x: Turn, generation: nat, link: Option<Id>, status: Status,
                         error: Option<string>)
    requires Executions(db) && DistinctExecutions(db) && InHistory(db, h, t)
             && Settleable(db, h, t, x, generation, link, status)
    ensures var db' := SettleTurn(db, h, t, x, generation, link, status, error);
            Executions(db') && DistinctExecutions(db')
  {
    var db' := SettleTurn(db, h, t, x, generation, link, status, error);
    forall e | e in db'.executions
      ensures ExecutionOk(db', e)
    {
      assert ExecutionOk(db, e);
      if link != Some(e) {
        NotLinked(db, t, link, e);
      }
    }
    if link.Some? {
      var y := db.executions[link.value];
      MoveDistinct(db, link.value, y.(status := status, error := error));
    }
  }

  lemma NotLinked(db: Db, t: Id, link: Option<Id>, e: Id)
    requires DistinctExecutions(db) && Linked(db, t, link) && e in db.executions && link != Some(e)
    ensures db.executions[e].turn != t
  {
  }

  /** Ending the active turn together with its execution keeps the invariant. */
  lemma SettleKeeps(db: Db, h: Id, t: Id, x: Turn, generation: nat, link: Option<Id>, status: Status,
                    error: Option<string>)
    requires Consistent(db) && Settleable(db, h, t, x, generation, link, status)
    ensures Consistent(SettleTurn(db, h, t, x, generation, link, status, error))
  {
    hide RecordOk, TurnOk, ExecutionOk, SameTurns;
    var db' := SettleTurn(db, h, t, x, generation, link, status, error);
    ActiveTurn(db, h, t);
    SettleRecord(db, h, t, x, generation, link, status, error);
    SettleTurns(db, h, t, x, generation, link, status, error);
    SettleExecutions(db, h, t, x, generation, link, status, error);
    forall h' | h' in db'.records
      ensures RecordOk(db', h')
    {
      if h' != h {
        OtherTurns(db, db', t, x, h');
        RecordFrame(db, db', h');
      }
    }
  }

  lemma ActiveTurn(db: Db, h: Id, t: Id)
    requires Records(db) && h in db.records && db.records[h].active == Some(t)
    ensures IsActive(db, h, t) && !db.records[h].deleted
  {
    assert RecordOk(db, h);
  }

  lemma OtherTurns(db: Db, db': Db, t: Id, x: Turn, h: Id)
    requires db'.turns == db.turns[t := x] && x.history != h && (t in db.turns ==> db.turns[t].history != h)
    ensures SameTurns(db, db', h)
  {
  }

  // ---------------------------------------------------------------- records

  function NewRecord(owner: nat, kind: Kind, title: string, question: string, operation: Id, hash: Digest): Record {
    Record(owner, kind, title, question, operation, hash, 0, 0, 1, None, None, 0, false)
  }

  /** A new record has no turns yet. */
  lemma RecordKeeps(db: Db, h: Id, r: Record)
    requires Consistent(db) && h !in db.records
    requires r == NewRecord(r.owner, r.kind, r.title, r.firstQuestion, r.creationOperation, r.creationHash)
    requires forall h' {:trigger db.records[h']} :: h' in db.records ==>
               !IsCreation(db, r.owner, r.creationOperation, h')
    ensures Consistent(db.(records := db.records[h := r]))
  {
    var db' := db.(records := db.records[h := r]);
    assert DistinctRecords(db');
    hide RecordOk, TurnOk, ExecutionOk, Turns, Executions;
    hide DistinctTurns, DistinctExecutions, DistinctRecords, IsCreation;
    NewRecordOk(db, h, r);
    forall h' | h' in db'.records
      ensures RecordOk(db', h')
    {
      if h' != h {
        assert SameTurns(db, db', h');
        RecordFrame(db, db', h');
      }
    }
    RowsKeep(db, db');
    RowsDistinct(db, db');
  }

  lemma NewRecordOk(db: Db, h: Id, r: Record)
    requires Turns(db) && h !in db.records
    requires r == NewRecord(r.owner, r.kind, r.title, r.firstQuestion, r.creationOperation, r.creationHash)
    ensures RecordOk(db.(records := db.records[h := r]), h)
  {
    var db' := db.(records := db.records[h := r]);
    TurnsKnown(db);
    assert SuccessesOf(db', h) == {};
  }

  lemma TurnsKnown(db: Db)
    requires Turns(db)
    ensures forall t {:trigger db.turns[t]} :: t in db.turns ==> db.turns[t].history in db.records
  {
    forall t | t in db.turns
      ensures db.turns[t].history in db.records
    {
      assert TurnOk(db, t);
    }
  }

  // Turns and executions do not look at titles, nor at records that are not theirs.
  lemma RowsKeep(db: Db, db': Db)
    requires Turns(db) && Executions(db) && db'.turns == db.turns && db'.executions == db.executions
             && db'.epoch == db.epoch
    requires forall h {:trigger db.records[h]} :: h in db.records ==>
      h in db'.records && db'.records[h] == db.records[h].(title := db'.records[h].title,
                                                           recordRevision := db'.records[h].recordRevision)
    ensures Turns(db') && Executions(db')
  {
    forall t | t in db'.turns
      ensures TurnOk(db', t)
    {
      assert TurnOk(db, t);
    }
    forall e | e in db'.executions
      ensures ExecutionOk(db', e)
    {
      assert ExecutionOk(db, e);
    }
  }

  function Retitle(r: Record, title: string): Record {
    r.(title := title, recordRevision := r.recordRevision + 1)
  }

  lemma RetitleKeeps(db: Db, h: Id, title: string)
    requires Consistent(db) && h in db.records
    ensures Consistent(db.(records := db.records[h := Retitle(db.records[h], title)]))
  {
    hide RecordOk, TurnOk, ExecutionOk, Turns, Executions, DistinctTurns, DistinctExecutions, DistinctRecords;
    var db' := db.(records := db.records[h := Retitle(db.records[h], title)]);
    forall h' | h' in db'.records
      ensures RecordOk(db', h')
    {
      assert SameTurns(db, db', h');
      RecordFrame(db, db', h');
    }
    RowsKeep(db, db');
    RowsDistinct(db, db');
    RetitledDistinct(db, h, title);
  }

  // What the unique constraints look at
  lemma RowsDistinct(db: Db, db': Db)
    requires db'.turns == db.turns && db'.executions == db.executions
    requires DistinctTurns(db) && DistinctExecutions(db)
    ensures DistinctTurns(db') && DistinctExecutions(db')
  {
  }

  lemma RetitledDistinct(db: Db, h: Id, title: string)
    requires DistinctRecords(db) && h in db.records
    ensures DistinctRecords(db.(records := db.records[h := Retitle(db.records[h], title)]))
  {
  }

  // ---------------------------------------------------------------- deletion

  function TurnsOutside(turns: map<Id, Turn>, h: Id): map<Id, Turn> {
    map t | t in turns && turns[t].history != h :: turns[t]
  }

  function ExecutionsOutside(executions: map<Id, Execution>, h: Id): map<Id, Execution> {
    map e | e in executions && executions[e].history != h :: executions[e]
  }

  /** The record stays as a tombstone; its turns and executions go. */
  function DeleteRecord(db: Db, h: Id): Db
    requires h in db.records
  {
    var r := db.records[h];
    db.(records := db.records[h := r.(title := "", firstQuestion := "", lastSuccess := None, active := None,
                                      deleted := true,
                                      generation := r.generation + 1, recordRevision := r.recordRevision + 1)],
        turns := TurnsOutside(db.turns, h), executions := ExecutionsOutside(db.executions, h))
  }

  lemma DeleteRows(db: Db, h: Id)
    requires Turns(db) && Executions(db) && h in db.records
    ensures Turns(DeleteRecord(db, h)) && Executions(DeleteRecord(db, h))
  {
    var db' := DeleteRecord(db, h);
    forall t | t in db'.turns
      ensures TurnOk(db', t)
    {
      assert TurnOk(db, t);
    }
    forall e | e in db'.executions
      ensures ExecutionOk(db', e)
    {
      assert ExecutionOk(db, e);
    }
  }

  lemma DeleteRecordOk(db: Db, h: Id)
    requires h in db.records && db.records[h].nextOrdinal >= 1
    ensures RecordOk(DeleteRecord(db, h), h)
  {
  }

  /** Deleting a record keeps the invariant. */
  lemma DeleteKeeps(db: Db, h: Id)
    requires Consistent(db) && h in db.records
    ensures Consistent(DeleteRecord(db, h))
  {
    hide TurnOk, ExecutionOk, Turns, Executions;
    var db' := DeleteRecord(db, h);
    assert RecordOk(db, h);
    DeleteRows(db, h);
    DeleteRecordOk(db, h);
    DeleteDistinct(db, h);
    hide RecordOk, DistinctTurns, DistinctExecutions, DistinctRecords;
    forall h' | h' in db'.records
      ensures RecordOk(db', h')
    {
      if h' != h {
        assert SameTurns(db, db', h');
        RecordFrame(db, db', h');
      }
    }
  }

  lemma DeleteDistinct(db: Db, h: Id)
    requires DistinctTurns(db) && DistinctExecutions(db) && DistinctRecords(db) && h in db.records
    ensures var db' := DeleteRecord(db, h); DistinctTurns(db') && DistinctExecutions(db') && DistinctRecords(db')
  {
  }

  // ---------------------------------------------------------------- a new process

  function Unconfirm(x: Turn): Turn {
    if x.status.TurnAccepted? then x.(status := TurnUnconfirmed) else x
  }

  function GiveUp(x: Execution): Execution {
    if IsLive(x.status) then x.(status := Unconfirmed) else x
  }

  function Release(r: Record): Record {
    if r.active.Some? then r.(active := None, generation := r.generation + 1, recordRevision := r.recordRevision + 1)
      else r
  }

  function UnconfirmAll(turns: map<Id, Turn>): map<Id, Turn> {
    map t | t in turns :: Unconfirm(turns[t])
  }

  function GiveUpAll(executions: map<Id, Execution>): map<Id, Execution> {
    map e | e in executions :: GiveUp(executions[e])
  }

  function ReleaseAll(records: map<Id, Record>): map<Id, Record> {
    map h | h in records :: Release(records[h])
  }

  /** A new epoch: nothing that an earlier process accepted is still running. */
  function NewEpoch(db: Db, epoch: Id): Db {
    db.(epoch := Some(epoch), turns := UnconfirmAll(db.turns), executions := GiveUpAll(db.executions),
        records := ReleaseAll(db.records))
  }

  lemma EpochTurns(db: Db, epoch: Id)
    requires Turns(db) && DistinctTurns(db)
    ensures Turns(NewEpoch(db, epoch)) && DistinctTurns(NewEpoch(db, epoch))
  {
    var db' := NewEpoch(db, epoch);
    forall t | t in db'.turns
      ensures TurnOk(db', t)
    {
      assert TurnOk(db, t);
    }
    forall t, t' | t in db'.turns && t' in db'.turns && t != t' && db'.turns[t].history == db'.turns[t'].history
      ensures db'.turns[t].ordinal != db'.turns[t'].ordinal && db'.turns[t].operation != db'.turns[t'].operation
    {
      assert db.turns[t].history == db.turns[t'].history;
    }
  }

  lemma EpochExecutions(db: Db, epoch: Id)
    requires Executions(db) && DistinctExecutions(db)
    ensures Executions(NewEpoch(db, epoch)) && DistinctExecutions(NewEpoch(db, epoch))
  {
    var db' := NewEpoch(db, epoch);
    forall e | e in db'.executions
      ensures ExecutionOk(db', e)
    {
      assert ExecutionOk(db, e);
    }
    EpochExecutionsDistinct(db, epoch);
  }

  lemma EpochExecutionsDistinct(db: Db, epoch: Id)
    requires DistinctExecutions(db)
    ensures DistinctExecutions(NewEpoch(db, epoch))
  {
    var db' := NewEpoch(db, epoch);
    forall e, e' | e in db'.executions && e' in db'.executions && e != e'
      ensures db'.executions[e].turn != db'.executions[e'].turn
      ensures db'.executions[e].owner == db'.executions[e'].owner ==>
                db'.executions[e].operation != db'.executions[e'].operation
    {
      assert db.executions[e].turn != db.executions[e'].turn;
    }
  }

  lemma EpochRecord(db: Db, epoch: Id, h: Id)
    requires h in db.records && RecordOk(db, h)
    ensures RecordOk(NewEpoch(db, epoch), h)
  {
    var db' := NewEpoch(db, epoch);
    var r := db.records[h];
    forall t
      ensures Succeeds(db', h, t) <==> Succeeds(db, h, t)
    {
    }
    assert SuccessesOf(db', h) == SuccessesOf(db, h);
    if !r.deleted {
      forall n: nat | 1 <= n < r.nextOrdinal
        ensures HasOrdinal(db', h, n)
      {
        assert HasOrdinal(db, h, n);
        var t :| InHistory(db, h, t) && db.turns[t].ordinal == n;
        assert InHistory(db', h, t) && db'.turns[t].ordinal == n;
      }
    }
  }

  lemma EpochDistinct(db: Db, epoch: Id)
    requires DistinctRecords(db)
    ensures DistinctRecords(NewEpoch(db, epoch))
  {
    var db' := NewEpoch(db, epoch);
    forall h, h' | h in db'.records && h' in db'.records && h != h' && db'.records[h].owner == db'.records[h'].owner
      ensures db'.records[h].creationOperation != db'.records[h'].creationOperation
    {
      assert db.records[h].owner == db.records[h'].owner;
    }
  }

  /** The recovery of a new process keeps the invariant, and leaves nothing accepted. */
  lemma EpochKeeps(db: Db, epoch: Id)
    requires Consistent(db)
    ensures Consistent(NewEpoch(db, epoch))
    ensures forall t :: t in NewEpoch(db, epoch).turns ==> !NewEpoch(db, epoch).turns[t].status.TurnAccepted?
  {
    hide RecordOk, TurnOk, ExecutionOk;
    var db' := NewEpoch(db, epoch);
    EpochTurns(db, epoch);
    EpochExecutions(db, epoch);
    EpochDistinct(db, epoch);
    forall h | h in db'.records
      ensures RecordOk(db', h)
    {
      assert RecordOk(db, h);
      EpochRecord(db, epoch, h);
    }
  }
}
