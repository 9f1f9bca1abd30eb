/**
 * Any series of calls on one analysis run, by anyone and with any outcomes, with cancellations,
 * deletions and sweeps of expired runs in between.
 */
module AnalysisSeries {
  import opened Wrappers
  import opened TaskScheduler
  import opened AnalysisRun

  datatype Call =
    | Analyzing(owner: string, question: string, now: int, world: World)
    | Cancelling(owner: string, question: string, createdAt: int)
    | Deleting(owner: string, question: string, now: int)
    | Sweeping(now: int)

  // An answer comes from an analysis only.
  type Answer = Option<CallResult>

  // The register and the checkpoint after a call, and the queries that the call issued
  datatype Moment = Moment(row: Option<Row>, state: State, issues: seq<string>)

  predicate Ended(row: Option<Row>) {
    row.Some? && !row.value.status.RunActive?
  }

  predicate IsExpired(row: Option<Row>) {
    row.Some? && row.value.status.RunExpired?
  }

  /** What one call may do. */
  ghost predicate CallStep(m: Moment, m': Moment, r: Answer) {
    && Sound(m'.state) && (m'.row.Some? ==> !m'.row.value.status.RunNew?)
    && (Ended(m.row) ==> m'.issues == [] && Ended(m'.row))
    && (!Ended(m'.row) ==> Keeps(m.state, m'.state))
    && (forall t :: t in m'.issues ==> !IsDone(m.state, t))
    && (IsCompleted(m.row) && IsCompleted(m'.row) ==> m'.state == m.state)
    && (IsExpired(m.row) ==> IsExpired(m'.row))
    && (r.Some? && r.value.Reported? ==>
          IsCompleted(m'.row) && AllDone(m'.state) && r.value == FinalAnswer(m'.state))
  }

  ghost predicate Chain(trace: seq<Moment>, results: seq<Answer>) {
    && |trace| == |results| + 1
    && forall k :: 0 <= k < |results| ==> CallStep(trace[k], trace[k + 1], results[k])
  }

  lemma KeepsSelf(s: State)
    ensures Keeps(s, s)
  {
  }

  ghost predicate Possible(c: Call) {
    c.Analyzing? ==> WorldOk(c.world)
  }

  method CallOnce(run: BusinessAnalysisRun, c: Call) returns (r: Answer, ghost m: Moment)
    requires run.Valid() && Possible(c)
    modifies run
    ensures run.Valid() && m == Moment(run.row, run.state, m.issues) && run.issued == old(run.issued) + m.issues
    ensures r.Some? <==> c.Analyzing?
    ensures c.Deleting? ==> IsExpired(run.row)
    ensures c.Cancelling? && (old(run.row).Some? ==>
                              old(run.row).value.owner == c.owner && old(run.row).value.question == c.question) ==>
              IsExpired(run.row)
    ensures CallStep(Moment(old(run.row), old(run.state), []), m, r)
  {
    hide Keeps, IsDone, AllDone, At, Sound, Favourable, Calm, StuckBeforePlan, WorldOk, RetryableFailure;
    KeepsSelf(run.state);
    ghost var before := run.issued;
    run.ValidSound();
    r := None;
    match c {
      case Analyzing(owner, question, now, world) =>
        var answer := run.Analyze(owner, question, now, world);
        r := Some(answer);
      case Cancelling(owner, question, createdAt) =>
        var _ := run.Cancel(owner, question, createdAt);
      case Deleting(owner, question, now) =>
        run.Withdraw(owner, question, now);
      case Sweeping(now) =>
        run.CleanupExpired(now);
    }
    run.ValidSound();
    assert run.issued == before + run.issued[|before|..];
    m := Moment(run.row, run.state, run.issued[|before|..]);
  }

  /** Calls one after the other. */
  method AnalyzeSeries(run: BusinessAnalysisRun, calls: seq<Call>)
    returns (results: seq<Answer>, ghost trace: seq<Moment>)
    requires run.Valid() && forall i :: 0 <= i < |calls| ==> Possible(calls[i])
    modifies run
    ensures run.Valid() && |results| == |calls| && Chain(trace, results)
    ensures trace[0] == Moment(old(run.row), old(run.state), [])
    ensures trace[|calls|].row == run.row && trace[|calls|].state == run.state
  {
    hide CallStep, Possible;
    results := [];
    trace := [Moment(run.row, run.state, [])];
    for i := 0 to |calls|
      invariant run.Valid() && |results| == i && Chain(trace, results)
      invariant trace[0] == Moment(old(run.row), old(run.state), [])
      invariant trace[i].row == run.row && trace[i].state == run.state
    {
      ghost var last := trace[i];
      var r; ghost var m;
      r, m := CallOnce(run, calls[i]);
      SameStart(last, m, r);
      results := results + [r];
      trace := trace + [m];
    }
  }

  lemma SameStart(last: Moment, m: Moment, r: Answer)
    requires CallStep(Moment(last.row, last.state, []), m, r)
    ensures CallStep(last, m, r)
  {
    hide Keeps, IsDone, AllDone, Sound, FinalAnswer;
  }

  // ---------------------------------------------------------------- what holds along a series

  // While a run is not ended, nothing that was done gets lost.
  lemma {:induction false} KeptUntil(trace: seq<Moment>, results: seq<Answer>, i: nat, j: nat)
    requires Chain(trace, results) && i <= j < |trace| && !Ended(trace[j].row)
    ensures !Ended(trace[i].row) && Keeps(trace[i].state, trace[j].state)
    decreases j - i
  {
    hide Keeps, IsDone, AllDone, Sound, FinalAnswer;
    if i < j {
      assert CallStep(trace[j - 1], trace[j], results[j - 1]);
      KeptUntil(trace, results, i, j - 1);
      KeepsTwice(trace[i].state, trace[j - 1].state, trace[j].state);
    } else {
      KeepsSelf(trace[i].state);
    }
  }

  lemma {:induction false} EndedLater(trace: seq<Moment>, results: seq<Answer>, i: nat, j: nat)
    requires Chain(trace, results) && i <= j < |trace|
    ensures Ended(trace[i].row) ==> Ended(trace[j].row)
    ensures i < j && trace[j].row.Some? ==> !trace[j].row.value.status.RunNew?
    ensures IsExpired(trace[i].row) ==> IsExpired(trace[j].row)
    ensures IsCompleted(trace[i].row) && IsCompleted(trace[j].row) ==> trace[j].state == trace[i].state
    decreases j - i
  {
    hide Keeps, IsDone, AllDone, Sound, FinalAnswer;
    if i < j {
      assert CallStep(trace[j - 1], trace[j], results[j - 1]);
      EndedLater(trace, results, i, j - 1);
    }
  }

  /**
   * Over any series of calls: the stored results are always a prefix of the plan with all but the last
   * done, a task that is done is in no later query, and nothing is queried once the run is completed or
   * expired.
   */
  lemma SeriesSafe(trace: seq<Moment>, results: seq<Answer>, i: nat, j: nat)
    requires Chain(trace, results) && i < j < |trace|
    ensures Sound(trace[j].state)
    ensures forall t :: t in trace[j].issues ==> !IsDone(trace[i].state, t)
    ensures Ended(trace[i].row) ==> trace[j].issues == [] && Ended(trace[j].row)
  {
    hide Keeps, IsDone, AllDone, Sound, FinalAnswer;
    assert CallStep(trace[j - 1], trace[j], results[j - 1]);
    EndedLater(trace, results, i, j - 1);
    if !Ended(trace[j - 1].row) {
      KeptUntil(trace, results, i, j - 1);
      KeepsTwice(trace[i].state, trace[j - 1].state, trace[j - 1].state) by { KeepsSelf(trace[j - 1].state); }
    }
  }

  /** All reports of one run are the same report, with every task done. */
  lemma OneReport(trace: seq<Moment>, results: seq<Answer>, i: nat, j: nat)
    requires Chain(trace, results) && i < j < |results|
    requires results[i].Some? && results[i].value.Reported? && results[j].Some? && results[j].value.Reported?
    ensures results[i] == results[j] && AllDone(trace[j + 1].state)
  {
    hide Keeps, IsDone, AllDone, Sound, FinalAnswer;
    assert CallStep(trace[i], trace[i + 1], results[i]) && CallStep(trace[j], trace[j + 1], results[j]);
    EndedLater(trace, results, i + 1, j + 1);
  }

  // ---------------------------------------------------------------- a run that is lost

  /**
   * A failure in front of the plan stays: after one call whose extraction fails, a later call in which
   * everything goes well gives the same failure again, and no task is ever queried.
   */
  method LostRun(owner: string, question: string, now: int, failing: World, later: int, favourable: World)
    returns (run: BusinessAnalysisRun, first: CallResult, second: CallResult)
    requires WorldOk(failing) && Calm(failing) && !failing.extraction.Extracted?
    requires WorldOk(favourable) && Favourable(favourable) && later < now + RUN_TTL
    ensures first == Unable(ExtractionFailure(failing.extraction)) && second == first
    ensures StuckBeforePlan(run.state) && run.issued == []
    ensures run.row == Some(Row(owner, question, RunActive, now + RUN_TTL))
  {
    run := new BusinessAnalysisRun();
    hide Keeps, IsDone, AllDone, At, Sound, Favourable, Calm, WorldOk, FinalAnswer, RetryableFailure;
    first := run.Analyze(owner, question, now, failing);
    BeforePlan(FRESH, failing);
    second := run.Analyze(owner, question, later, favourable);
  }
}
