/** The multi-pass scheduler over a dependency graph, and what its results mean. */
module TaskScheduler {
  import opened Wrappers
  import opened AnalysisPlan
  import opened PlanValidation

  datatype TaskStatus = Completed | Failed | Skipped

  datatype TaskResult = TaskResult(taskId: string, status: TaskStatus, rows: seq<string>, rowCount: nat,
                                   truncated: bool,
                                   error: Option<string>)

  // What the adapter and the query service answer for a task
  datatype Outcome =
    | SemanticInvalid | AdapterError | QueryRaised
    | Success(rows: seq<string>, rowCount: nat, truncated: bool)
    | Failure(code: string)
    | InvalidAnswer

  function Broken(t: Task, code: string): TaskResult {
    TaskResult(t.id, Failed, [], 0, false, Some(code))
  }

  function ExecuteOne(t: Task, o: Outcome): (r: TaskResult)
    ensures r.taskId == t.id && !r.status.Skipped? && (r.status.Completed? <==> o.Success?)
  {
    match o
    case SemanticInvalid => Broken(t, "TASK_SEMANTIC_INVALID")
    case AdapterError => Broken(t, "TASK_ADAPTER_ERROR")
    case QueryRaised => Broken(t, "TASK_EXECUTION_ERROR")
    case Success(rows, count, truncated) => TaskResult(t.id, Completed, rows, count, truncated, None)
    case Failure(code) => Broken(t, code)
    case InvalidAnswer => Broken(t, "TASK_RESULT_INVALID")
  }

  function Skip(t: Task): TaskResult {
    TaskResult(t.id, Skipped, [], 0, false, Some("DEPENDENCY_FAILED"))
  }

  type Results = map<string, TaskResult>

  // ---------------------------------------------------------------- the meaning of a plan

  ghost predicate Ready(results: Results, t: Task) {
    forall d :: d in t.dependsOn ==> d in results
  }

  ghost predicate Succeeds(results: Results, t: Task) {
    forall d :: d in t.dependsOn ==> d in results && results[d].status.Completed?
  }

  // A task runs when all of its dependencies have completed, and is skipped otherwise.
  ghost predicate MeansAt(results: Results, t: Task, answer: Task -> Outcome) {
    && t.id in results && Ready(results, t)
    && results[t.id] == if Succeeds(results, t) then ExecuteOne(t, answer(t)) else Skip(t)
  }

  ghost predicate Meaning(g: Graph, results: Results, answer: Task -> Outcome) {
    && (forall id :: id in results ==> id in g)
    && (forall id :: id in g ==> MeansAt(results, g[id], answer))
  }

  predicate Alike(a: Results, b: Results, id: string) {
    id in a && id in b && a[id] == b[id]
  }

  /** A plan has one meaning: however two sets of results were reached, each task ends the same in both. */
  lemma {:induction false} OneMeaning(g: Graph, a: Results, b: Results, answer: Task -> Outcome, id: string, n: nat)
    requires Meaning(g, a, answer) && Meaning(g, b, answer) && id in g && DepthAtMost(g, id, n)
    requires forall x :: x in g ==> g[x].id == x
    ensures Alike(a, b, id)
    decreases n
  {
    assert MeansAt(a, g[id], answer) && MeansAt(b, g[id], answer);
    forall d | d in g[id].dependsOn
      ensures Alike(a, b, d)
    {
      DepthBelow(g, id, d, n);
      OneMeaning(g, a, b, answer, d, n - 1);
    }
  }

  lemma SameResults(g: Graph, a: Results, b: Results, answer: Task -> Outcome)
    requires Meaning(g, a, answer) && Meaning(g, b, answer) && Founded(g) && forall x :: x in g ==> g[x].id == x
    ensures a == b
  {
    hide Meaning, DepthAtMost;
    SameKeys(g, a, answer);
    SameKeys(g, b, answer);
    var n: nat :| AllAtMost(g, n);
    forall id | id in g
      ensures a[id] == b[id]
    {
      OneMeaning(g, a, b, answer, id, n);
    }
  }

  lemma SameKeys(g: Graph, a: Results, answer: Task -> Outcome)
    requires Meaning(g, a, answer) && forall x :: x in g ==> g[x].id == x
    ensures a.Keys == g.Keys
  {
    forall id | id in g
      ensures id in a
    {
      assert MeansAt(a, g[id], answer);
    }
  }

  // The same tasks, in whatever order
  ghost predicate Reordered(a: seq<Task>, b: seq<Task>) {
    DistinctIds(a) && DistinctIds(b) && forall t :: t in a <==> t in b
  }

  /** Two orders of the same tasks have the same graph. */
  lemma OneGraph(a: seq<Task>, b: seq<Task>)
    requires Reordered(a, b)
    ensures GraphOf(a) == GraphOf(b)
  {
    hide GraphOf, DistinctIds;
    GraphIndexes(a);
    GraphIndexes(b);
    SubGraph(GraphOf(a), GraphOf(b), a, b);
    SubGraph(GraphOf(b), GraphOf(a), b, a);
  }

  lemma SubGraph(g: Graph, h: Graph, a: seq<Task>, b: seq<Task>)
    requires Indexes(g, a) && Indexes(h, b) && forall t :: t in a ==> t in b
    ensures forall id :: id in g ==> id in h && h[id] == g[id]
  {
    forall id | id in g
      ensures id in h && h[id] == g[id]
    {
      assert g[id] in b;
    }
  }

  lemma DepthBelow(g: Graph, id: string, d: string, n: nat)
    requires id in g && d in g[id].dependsOn && d in g && DepthAtMost(g, id, n)
    ensures n > 0 && DepthAtMost(g, d, n - 1)
  {
    assert ChainFrom(g, d, [d]);
    ChainStep(g, id, [d]);
    assert ChainFrom(g, id, [id] + [d]);
    forall p | ChainFrom(g, d, p)
      ensures |p| <= n
    {
      ChainStep(g, id, p);
      assert ChainFrom(g, id, [id] + p);
    }
  }

  // ---------------------------------------------------------------- the state of a run

  // What has been decided so far, and the queries issued for it
  ghost predicate Decided(g: Graph, results: Results, issued: seq<string>, answer: Task -> Outcome) {
    && (forall id :: id in results ==> id in g && MeansAt(results, g[id], answer) && DepthAtMost(g, id, |results| - 1))
    && Issued(g, results, issued)
  }

  /** Each query is issued once, for the tasks that are not skipped, and after those it depends on. */
  ghost predicate Issued(g: Graph, results: Results, issued: seq<string>) {
    && NoDuplicates(issued)
    && (forall id :: id in issued <==> id in results && !results[id].status.Skipped?)
    && (forall k {:trigger issued[k]} :: 0 <= k < |issued| ==> issued[k] in g && Earlier(issued, k, g[issued[k]]))
  }

  // The queries of the dependencies come first.
  ghost predicate Earlier(issued: seq<string>, k: int, t: Task)
    requires 0 <= k <= |issued|
  {
    forall d :: d in t.dependsOn ==> d in issued[..k]
  }

  // The tasks that are still to be decided
  ghost predicate Undecided(g: Graph, results: Results, rest: seq<Task>) {
    && (forall t :: t in rest ==> t.id in g && g[t.id] == t && t.id !in results)
    && DistinctIds(rest)
    && (forall id :: id in g && id !in results ==> g[id] in rest)
  }

  lemma DeeperBound(g: Graph, id: string, m: int, n: int)
    requires DepthAtMost(g, id, m) && m <= n
    ensures DepthAtMost(g, id, n)
  {
  }

  lemma MeansGrow(results: Results, t: Task, x: TaskResult, u: Task, answer: Task -> Outcome)
    requires t.id !in results && MeansAt(results, u, answer)
    ensures MeansAt(results[t.id := x], u, answer)
  {
    var results' := results[t.id := x];
    assert Succeeds(results', u) <==> Succeeds(results, u);
  }

  // One more decision
  lemma Decide(g: Graph, results: Results, issued: seq<string>, t: Task, answer: Task -> Outcome)
    requires Decided(g, results, issued, answer) && t.id in g && g[t.id] == t && t.id !in results && Ready(results, t)
    ensures var runs := Succeeds(results, t);
            var x := if runs then ExecuteOne(t, answer(t)) else Skip(t);
            Decided(g, results[t.id := x], if runs then issued + [t.id] else issued, answer)
  {
    hide MeansAt, DepthAtMost, ExecuteOne;
    var runs := Succeeds(results, t);
    var x := if runs then ExecuteOne(t, answer(t)) else Skip(t);
    var results' := results[t.id := x];
    forall id | id in results'
      ensures id in g && MeansAt(results', g[id], answer) && DepthAtMost(g, id, |results'| - 1)
    {
      if id != t.id {
        MeansGrow(results, t, x, g[id], answer);
        DeeperBound(g, id, |results| - 1, |results'| - 1);
      } else {
        MeansNow(results, t, x, answer);
        DepthFromBelow(g, t.id, |results|);
      }
    }
    IssueMore(g, results, issued, t, x, runs);
  }

  lemma MeansNow(results: Results, t: Task, x: TaskResult, answer: Task -> Outcome)
    requires t.id !in results && Ready(results, t)
    requires x == if Succeeds(results, t) then ExecuteOne(t, answer(t)) else Skip(t)
    ensures MeansAt(results[t.id := x], t, answer)
  {
    assert Succeeds(results[t.id := x], t) <==> Succeeds(results, t);
  }

  lemma IssueMore(g: Graph, results: Results, issued: seq<string>, t: Task, x: TaskResult, runs: bool)
    requires t.id in g && g[t.id] == t && t.id !in results && runs == Succeeds(results, t) && x.status.Skipped? == !runs
    requires Issued(g, results, issued)
    ensures Issued(g, results[t.id := x], if runs then issued + [t.id] else issued)
  {
    if runs {
      var issued' := issued + [t.id];
      assert forall k :: 0 <= k <= |issued| ==> issued'[..k] == issued[..k];
      assert issued[..|issued|] == issued;
      forall k | 0 <= k < |issued'|
        ensures issued'[k] in g && Earlier(issued', k, g[issued'[k]])
      {
        if k < |issued| {
          assert issued[k] in g;
        }
      }
    }
  }

  lemma RemoveDistinct(next: seq<Task>, t: Task, later: seq<Task>)
    requires DistinctIds(next + ([t] + later))
    ensures DistinctIds(next + later) && forall u :: u in next + later ==> u.id != t.id
  {
    var before, rest := next + ([t] + later), next + later;
    assert forall i :: 0 <= i < |next| ==> before[i] == next[i] == rest[i];
    assert before[|next|] == t;
    assert forall i :: |next| <= i < |rest| ==> before[i + 1] == rest[i];
  }

  lemma Remove(g: Graph, results: Results, next: seq<Task>, t: Task, later: seq<Task>, x: TaskResult)
    requires Undecided(g, results, next + ([t] + later)) && forall id :: id in g ==> g[id].id == id
    ensures Undecided(g, results[t.id := x], next + later)
  {
    hide DistinctIds;
    RemoveDistinct(next, t, later);
    assert forall u :: u in next + ([t] + later) <==> u in next + later || u == t;
  }

  // The task waits for one that was undecided when the pass began.
  lemma Waits(g: Graph, results: Results, pending: seq<Task>, now: Results, t: Task, passes: nat)
    requires DependenciesExist(g) && Undecided(g, results, pending) && results.Keys <= now.Keys
    requires t.id in g && g[t.id] == t && !Ready(now, t) && forall id :: id in g ==> g[id].id == id
    requires forall u :: u in pending ==> DepthAtLeast(g, u.id, passes)
    ensures DepthAtLeast(g, t.id, passes + 1)
  {
    var d :| d in t.dependsOn && d !in now;
    assert g[d] in pending;
    DepthStep(g, t.id, d, passes);
  }

  // When no task is ready, chains never end.
  lemma {:induction false} StuckForever(g: Graph, results: Results, pending: seq<Task>, t: Task, n: nat)
    requires DependenciesExist(g) && Undecided(g, results, pending) && t in pending
    requires (forall u :: u in pending ==> !Ready(results, u)) && forall id :: id in g ==> g[id].id == id
    ensures DepthAtLeast(g, t.id, n)
    decreases n
  {
    hide DepthAtLeast, Undecided, Ready;
    var d := WaitsFor(g, results, pending, t);
    if n == 0 {
      DepthZero(g, t.id);
    } else {
      StuckForever(g, results, pending, g[d], n - 1);
      DepthStep(g, t.id, d, n - 1);
    }
  }

  lemma WaitsFor(g: Graph, results: Results, pending: seq<Task>, t: Task) returns (d: string)
    requires DependenciesExist(g) && Undecided(g, results, pending) && t in pending && !Ready(results, t)
    requires forall id :: id in g ==> g[id].id == id
    ensures t.id in g && g[t.id] == t && d in t.dependsOn && d in g && g[d] in pending && g[d].id == d
  {
    d :| d in t.dependsOn && d !in results;
  }

  lemma BothDepths(g: Graph, id: string, n: nat, m: int)
    requires DepthAtLeast(g, id, n) && DepthAtMost(g, id, m)
    ensures n <= m
  {
    var p :| ChainFrom(g, id, p) && |p| == n + 1;
  }

  // Every task has a finite depth.
  ghost predicate Founded(g: Graph) {
    DependenciesExist(g) && exists n: nat :: AllAtMost(g, n)
  }

  ghost predicate AllAtMost(g: Graph, n: int) {
    forall id :: id in g ==> DepthAtMost(g, id, n)
  }

  // ---------------------------------------------------------------- the order of the list

  /** A run over a list gets stuck, or ends with the meaning of its graph and a result for each task in order. */
  ghost predicate Ended(tasks: seq<Task>, answer: Task -> Outcome, r: Option<seq<TaskResult>>, results: Results,
                        issued: seq<string>)
  {
    && (r.Some? <==> Founded(GraphOf(tasks)))
    && (r.Some? ==>
          && |r.value| == |tasks| && Meaning(GraphOf(tasks), results, answer)
          && (forall i :: 0 <= i < |tasks| ==> tasks[i].id in results && r.value[i] == results[tasks[i].id])
          && Issued(GraphOf(tasks), results, issued))
  }

  /** A result that carries nothing but an error */
  ghost predicate Empty(r: TaskResult, status: TaskStatus, code: string) {
    r.status == status && r.rows == [] && r.rowCount == 0 && !r.truncated && r.error == Some(code)
  }

  /**
   * What a task's result holds. A task that was skipped says so. Otherwise the answer to its query decides: a success
   * keeps its rows, its count and whether it was cut off, and each way to fail has its own code.
   */
  ghost predicate Tells(r: TaskResult, ran: bool, o: Outcome) {
    if !ran then Empty(r, Skipped, "DEPENDENCY_FAILED")
    else
      match o
      case Success(rows, count, truncated) =>
        r.status.Completed? && r.rows == rows && r.rowCount == count && r.truncated == truncated && r.error.None?
      case Failure(code) => Empty(r, Failed, code)
      case SemanticInvalid => Empty(r, Failed, "TASK_SEMANTIC_INVALID")
      case AdapterError => Empty(r, Failed, "TASK_ADAPTER_ERROR")
      case QueryRaised => Empty(r, Failed, "TASK_EXECUTION_ERROR")
      case InvalidAnswer => Empty(r, Failed, "TASK_RESULT_INVALID")
  }

  // The tasks that a task depends on have all completed.
  ghost predicate Enabled(tasks: seq<Task>, list: seq<TaskResult>, t: Task)
    requires |list| == |tasks|
  {
    forall j :: 0 <= j < |tasks| && tasks[j].id in t.dependsOn ==> list[j].status.Completed?
  }

  /** Each result of a run is that of its own task: the query was issued exactly when all dependencies completed. */
  ghost predicate Reports(tasks: seq<Task>, answer: Task -> Outcome, list: seq<TaskResult>, issued: seq<string>) {
    && |list| == |tasks|
    && forall i :: 0 <= i < |tasks| ==>
         && list[i].taskId == tasks[i].id
         && (tasks[i].id in issued <==> Enabled(tasks, list, tasks[i]))
         && Tells(list[i], tasks[i].id in issued, answer(tasks[i]))
  }

  lemma RunReports(tasks: seq<Task>, answer: Task -> Outcome, r: Option<seq<TaskResult>>, results: Results,
                   issued: seq<string>)
    requires DistinctIds(tasks) && Ended(tasks, answer, r, results, issued) && r.Some?
    ensures Reports(tasks, answer, r.value, issued)
  {
    hide GraphOf, Founded, Issued, Tells;
    IssuedIs(GraphOf(tasks), results, issued);
    GraphIndexes(tasks);
    forall i | 0 <= i < |tasks|
      ensures r.value[i].taskId == tasks[i].id
      ensures tasks[i].id in issued <==> Enabled(tasks, r.value, tasks[i])
      ensures Tells(r.value[i], tasks[i].id in issued, answer(tasks[i]))
    {
      var t := tasks[i];
      assert MeansAt(results, GraphOf(tasks)[t.id], answer);
      ResultTells(results, t, answer);
      EnabledIs(tasks, r.value, results, t);
    }
  }

  lemma IssuedIs(g: Graph, results: Results, issued: seq<string>)
    requires Issued(g, results, issued)
    ensures forall id :: id in issued <==> id in results && !results[id].status.Skipped?
  {
  }

  lemma ResultTells(results: Results, t: Task, answer: Task -> Outcome)
    requires MeansAt(results, t, answer)
    ensures results[t.id].taskId == t.id && (results[t.id].status.Skipped? <==> !Succeeds(results, t))
    ensures Tells(results[t.id], Succeeds(results, t), answer(t))
  {
  }

  lemma EnabledIs(tasks: seq<Task>, list: seq<TaskResult>, results: Results, t: Task)
    requires |list| == |tasks| && Ready(results, t)
    requires forall i :: 0 <= i < |tasks| ==> tasks[i].id in results && list[i] == results[tasks[i].id]
    requires forall d :: d in results ==> exists i :: 0 <= i < |tasks| && tasks[i].id == d
    ensures Enabled(tasks, list, t) <==> Succeeds(results, t)
  {
  }

  /**
   * The order of the list does not matter: of two runs over the same tasks both get stuck, or both give every task
   * the same result and issue the same queries.
   */
  lemma OrderIrrelevant(a: seq<Task>, b: seq<Task>, answer: Task -> Outcome, x: Option<seq<TaskResult>>,
                        y: Option<seq<TaskResult>>, resultsA: Results, resultsB: Results, issuedA: seq<string>,
                        issuedB: seq<string>)
    requires Reordered(a, b) && Ended(a, answer, x, resultsA, issuedA) && Ended(b, answer, y, resultsB, issuedB)
    ensures x.Some? <==> y.Some?
    ensures x.Some? ==>
              && resultsA == resultsB && multiset(x.value) == multiset(y.value)
              && multiset(issuedA) == multiset(issuedB)
              && forall i, j :: 0 <= i < |a| && 0 <= j < |b| && a[i].id == b[j].id ==> x.value[i] == y.value[j]
  {
    hide GraphOf, Meaning, Founded, Earlier, DistinctIds;
    OneGraph(a, b);
    if x.Some? {
      GraphNamed(a);
      SameResults(GraphOf(a), resultsA, resultsB, answer);
      Permuted(issuedA, issuedB);
      ResultsDistinct(a, answer, x.value, resultsA);
      ResultsDistinct(b, answer, y.value, resultsB);
      forall r
        ensures r in x.value <==> r in y.value
      {
        ResultIn(a, b, x.value, y.value, resultsA, r);
        ResultIn(b, a, y.value, x.value, resultsA, r);
      }
      Permuted(x.value, y.value);
    }
  }

  lemma GraphNamed(tasks: seq<Task>)
    requires DistinctIds(tasks)
    ensures forall id :: id in GraphOf(tasks) ==> GraphOf(tasks)[id].id == id
  {
    GraphIndexes(tasks);
  }

  lemma {:induction false} ResultsDistinct(tasks: seq<Task>, answer: Task -> Outcome, list: seq<TaskResult>,
                                           results: Results)
    requires DistinctIds(tasks) && Meaning(GraphOf(tasks), results, answer) && |list| == |tasks|
    requires forall i :: 0 <= i < |tasks| ==> tasks[i].id in results && list[i] == results[tasks[i].id]
    ensures forall i, j :: 0 <= i < j < |list| ==> list[i] != list[j]
  {
    GraphIndexes(tasks);
    forall i | 0 <= i < |tasks|
      ensures list[i].taskId == tasks[i].id
    {
      assert MeansAt(results, GraphOf(tasks)[tasks[i].id], answer);
    }
  }

  lemma ResultIn(a: seq<Task>, b: seq<Task>, x: seq<TaskResult>, y: seq<TaskResult>, results: Results, r: TaskResult)
    requires |x| == |a| && |y| == |b| && forall t :: t in a ==> t in b
    requires forall i :: 0 <= i < |a| ==> a[i].id in results && x[i] == results[a[i].id]
    requires forall i :: 0 <= i < |b| ==> b[i].id in results && y[i] == results[b[i].id]
    ensures r in x ==> r in y
  {
    if r in x {
      var i :| 0 <= i < |x| && x[i] == r;
      assert a[i] in b;
      var j :| 0 <= j < |b| && b[j] == a[i];
      assert y[j] == r;
    }
  }

  // Two lists without repetition and with the same elements
  lemma Permuted<T>(a: seq<T>, b: seq<T>)
    requires forall i, j :: 0 <= i < j < |a| ==> a[i] != a[j]
    requires forall i, j :: 0 <= i < j < |b| ==> b[i] != b[j]
    requires forall x :: x in a <==> x in b
    ensures multiset(a) == multiset(b)
  {
    forall x
      ensures multiset(a)[x] == multiset(b)[x]
    {
      CountOnce(a, x);
      CountOnce(b, x);
    }
  }

  lemma {:induction false} CountOnce<T>(s: seq<T>, x: T)
    requires forall i, j :: 0 <= i < j < |s| ==> s[i] != s[j]
    ensures multiset(s)[x] == if x in s then 1 else 0
  {
    if s != [] {
      var init, last := s[..|s| - 1], s[|s| - 1];
      CountOnce(init, x);
      assert s == init + [last];
    }
  }

  // ---------------------------------------------------------------- the scheduler

  /** One pass over the pending tasks: what is ready is decided, the rest waits. */
  method Pass(ghost g: Graph, pending: seq<Task>, answer: Task -> Outcome, results: Results, issued: seq<string>,
              ghost passes: nat)
    returns (progressed: bool, next: seq<Task>, results': Results, issued': seq<string>)
    requires forall id :: id in g ==> g[id].id == id
    requires Decided(g, results, issued, answer) && Undecided(g, results, pending)
    requires DependenciesExist(g) ==> forall u :: u in pending ==> DepthAtLeast(g, u.id, passes)
    ensures Decided(g, results', issued', answer) && Undecided(g, results', next)
    ensures DependenciesExist(g) ==> forall u :: u in next ==> DepthAtLeast(g, u.id, passes + 1)
    ensures if progressed then |next| < |pending| else next == pending && results' == results
    ensures !progressed ==> forall u :: u in pending ==> !Ready(results, u)
  {
    hide Decided, Undecided, DepthAtLeast, Ready, Succeeds, ExecuteOne, DependenciesExist, Skip;
    progressed, next, results', issued' := false, [], results, issued;
    assert [] + pending[0..] == pending;
    for i := 0 to |pending|
      invariant Decided(g, results', issued', answer) && Undecided(g, results', next + pending[i..])
      invariant results.Keys <= results'.Keys
      invariant DependenciesExist(g) ==> forall u :: u in next ==> DepthAtLeast(g, u.id, passes + 1)
      invariant if progressed then |next| < i else next == pending[..i] && results' == results
      invariant !progressed ==> forall u :: u in next ==> !Ready(results, u)
    {
      var t := pending[i];
      assert pending[i..] == [t] + pending[i + 1..];
      UndecidedOne(g, results', next, t, pending[i + 1..]);
      var ready := CheckReady(results', t);
      if !ready {
        WaitStep(g, results, pending, results', next, t, passes);
        Reassociate(next, t, pending, i);
        next := next + [t];
      } else {
        var runs := CheckCompleted(results', t);
        var x := if runs then ExecuteOne(t, answer(t)) else Skip(t);
        Decide(g, results', issued', t, answer);
        Remove(g, results', next, t, pending[i + 1..], x);
        if runs {
          issued' := issued' + [t.id];
        }
        results' := results'[t.id := x];
        progressed := true;
      }
    }
    assert next + pending[|pending|..] == next && pending[..|pending|] == pending;
  }

  lemma WaitStep(g: Graph, results: Results, pending: seq<Task>, now: Results, next: seq<Task>, t: Task, passes: nat)
    requires Undecided(g, results, pending) && results.Keys <= now.Keys
    requires t.id in g && g[t.id] == t && !Ready(now, t) && forall id :: id in g ==> g[id].id == id
    requires DependenciesExist(g) ==> forall u :: u in pending ==> DepthAtLeast(g, u.id, passes)
    requires DependenciesExist(g) ==> forall u :: u in next ==> DepthAtLeast(g, u.id, passes + 1)
    ensures DependenciesExist(g) ==> forall u :: u in next + [t] ==> DepthAtLeast(g, u.id, passes + 1)
  {
    hide DepthAtLeast, Ready, Undecided, DependenciesExist;
    if DependenciesExist(g) {
      Waits(g, results, pending, now, t, passes);
    }
  }

  lemma Reassociate(next: seq<Task>, t: Task, pending: seq<Task>, i: nat)
    requires i < |pending| && t == pending[i]
    ensures (next + [t]) + pending[i + 1..] == next + ([t] + pending[i + 1..])
    ensures pending[..i + 1] == pending[..i] + [t]
  {
  }

  lemma UndecidedOne(g: Graph, results: Results, next: seq<Task>, t: Task, later: seq<Task>)
    requires Undecided(g, results, next + ([t] + later))
    ensures t.id in g && g[t.id] == t && t.id !in results
  {
    assert t in next + ([t] + later);
  }

  method CheckReady(results: Results, t: Task) returns (ready: bool)
    ensures ready <==> Ready(results, t)
  {
    for i := 0 to |t.dependsOn|
      invariant forall k :: 0 <= k < i ==> t.dependsOn[k] in results
    {
      if t.dependsOn[i] !in results {
        return false;
      }
    }
    return true;
  }

  method CheckCompleted(results: Results, t: Task) returns (runs: bool)
    requires Ready(results, t)
    ensures runs <==> Succeeds(results, t)
  {
    for i := 0 to |t.dependsOn|
      invariant forall k :: 0 <= k < i ==> results[t.dependsOn[k]].status.Completed?
    {
      if !results[t.dependsOn[i]].status.Completed? {
        return false;
      }
    }
    return true;
  }

  /**
   * Runs a plan with distinct identifiers. It gets stuck exactly when a dependency is missing or
   * cyclic. Otherwise there is one result per task in plan order, the results are the meaning of
   * the graph, each query is issued once and after those it depends on, and the number of passes
   * is at most the depth of the graph plus one.
   */
  method Execute(tasks: seq<Task>, answer: Task -> Outcome)
    returns (r: Option<seq<TaskResult>>, results: Results, issued: seq<string>, ghost passes: nat)
    requires DistinctIds(tasks)
    ensures Ended(tasks, answer, r, results, issued)
    ensures r.Some? ==> Reports(tasks, answer, r.value, issued)
    ensures DependenciesExist(GraphOf(tasks)) ==> forall depth: nat :: AllAtMost(GraphOf(tasks), depth) ==>
              passes <= depth + 1
  {
    hide Decided, Undecided, DepthAtLeast, Ready, GraphOf, AllAtMost, Meaning, Indexes, DistinctIds;
    ghost var g := GraphOf(tasks);
    GraphIndexes(tasks);
    StartRun(g, tasks, answer);
    var pending := tasks;
    results, issued, passes := map[], [], 0;
    while pending != []
      invariant Decided(g, results, issued, answer) && Undecided(g, results, pending)
      invariant DependenciesExist(g) ==> forall u :: u in pending ==> DepthAtLeast(g, u.id, passes)
      invariant DependenciesExist(g) ==> forall depth: nat :: AllAtMost(g, depth) ==> passes <= depth + 1
      decreases |pending|
    {
      var progressed: bool;
      var next: seq<Task>;
      ghost var before := results;
      if DependenciesExist(g) {
        PassCount(g, results, pending, passes);
      }
      progressed, next, results, issued := Pass(g, pending, answer, results, issued, passes);
      passes := passes + 1;
      if !progressed {
        Stuck(g, before, pending);
        return None, results, issued, passes;
      }
      pending := next;
    }
    EndRun(g, results, issued, answer);
    var list: seq<TaskResult> := [];
    for i := 0 to |tasks|
      invariant |list| == i && forall k :: 0 <= k < i ==> tasks[k].id in results && list[k] == results[tasks[k].id]
    {
      EveryResult(g, tasks, results, answer, i);
      list := list + [results[tasks[i].id]];
    }
    r := Some(list);
    RunReports(tasks, answer, r, results, issued);
  }

  lemma StartRun(g: Graph, tasks: seq<Task>, answer: Task -> Outcome)
    requires Indexes(g, tasks) && DistinctIds(tasks)
    ensures Decided(g, map[], [], answer) && Undecided(g, map[], tasks)
    ensures forall id :: id in g ==> g[id].id == id
    ensures forall u :: u in tasks ==> DepthAtLeast(g, u.id, 0)
  {
    forall u | u in tasks
      ensures DepthAtLeast(g, u.id, 0)
    {
      DepthZero(g, u.id);
    }
  }

  // A pass begins with a task of at least that depth.
  lemma PassCount(g: Graph, results: Results, pending: seq<Task>, passes: nat)
    requires pending != [] && Undecided(g, results, pending)
    requires forall u :: u in pending ==> DepthAtLeast(g, u.id, passes)
    ensures forall depth: nat :: AllAtMost(g, depth) ==> passes <= depth
  {
    var u := pending[0];
    assert u in pending;
    forall depth: nat | AllAtMost(g, depth)
      ensures passes <= depth
    {
      BothDepths(g, u.id, passes, depth);
    }
  }

  lemma Stuck(g: Graph, results: Results, pending: seq<Task>)
    requires pending != [] && Undecided(g, results, pending) && (forall id :: id in g ==> g[id].id == id)
    requires forall u :: u in pending ==> !Ready(results, u)
    ensures !Founded(g)
  {
    hide DepthAtLeast, Ready;
    var u := pending[0];
    assert u in pending;
    if DependenciesExist(g) {
      forall n: nat
        ensures !AllAtMost(g, n)
      {
        StuckForever(g, results, pending, u, n + 1);
        if AllAtMost(g, n) {
          BothDepths(g, u.id, n + 1, n);
        }
      }
    }
  }

  lemma EndRun(g: Graph, results: Results, issued: seq<string>, answer: Task -> Outcome)
    requires Decided(g, results, issued, answer) && Undecided(g, results, []) && forall id :: id in g ==> g[id].id == id
    ensures Meaning(g, results, answer) && Founded(g) && Issued(g, results, issued)
  {
    hide DepthAtMost, Issued, MeansAt;
    NoneLeft(g, results);
    AllReady(g, results, issued, answer);
    forall id | id in g
      ensures DepthAtMost(g, id, |results|)
    {
      DeeperBound(g, id, |results| - 1, |results|);
    }
    assert AllAtMost(g, |results|);
  }

  lemma AllReady(g: Graph, results: Results, issued: seq<string>, answer: Task -> Outcome)
    requires Decided(g, results, issued, answer) && forall id :: id in g ==> id in results
    ensures DependenciesExist(g)
  {
    hide DepthAtMost, Issued;
    forall id, d | id in g && d in g[id].dependsOn
      ensures d in g
    {
      assert MeansAt(results, g[id], answer);
    }
  }

  lemma NoneLeft(g: Graph, results: Results)
    requires Undecided(g, results, [])
    ensures forall id :: id in g ==> id in results
  {
  }

  lemma EveryResult(g: Graph, tasks: seq<Task>, results: Results, answer: Task -> Outcome, i: nat)
    requires Indexes(g, tasks) && Meaning(g, results, answer) && i < |tasks|
    ensures tasks[i].id in results
  {
    assert MeansAt(results, g[tasks[i].id], answer);
  }

  /** An accepted plan never gets stuck. */
  lemma AcceptedRuns(tasks: seq<Task>, c: Catalog, key: string -> string, maxDepth: int, maxTasks: int)
    requires Acceptable(tasks, c, key, maxDepth, maxTasks)
    ensures DistinctIds(tasks) && DependenciesExist(GraphOf(tasks)) && AllAtMost(GraphOf(tasks), maxDepth)
            && Founded(GraphOf(tasks))
  {
    hide Resolvable, DepthAtMost;
    GraphIndexes(tasks);
    AllExist(GraphOf(tasks), tasks);
    forall id | id in GraphOf(tasks)
      ensures DepthAtMost(GraphOf(tasks), id, maxDepth)
    {
      AcceptedAcyclic(tasks, c, key, maxDepth, maxTasks, id);
    }
    assert AllAtMost(GraphOf(tasks), maxDepth);
  }
}
