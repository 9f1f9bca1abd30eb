/** What a report must say about the tasks behind it. */
module ReportReferences {
  import opened Wrappers
  import opened AnalysisPlan
  import opened PlanValidation
  import opened TaskScheduler
  import AnalysisRun

  datatype Reason = ReasonFailed | ReasonSkipped | EmptyResult | Truncated

  datatype Incomplete = Incomplete(taskId: string, reasons: seq<Reason>)

  datatype ReferenceError = ResultsInvalid | ResultDuplicate | NothingCompleted | EvidenceInvalid | IncompleteInvalid

  // The task ended with rows, all of them.
  predicate Full(r: TaskResult) {
    r.status.Completed? && r.rowCount > 0 && !r.truncated
  }

  // The reasons of `r`, and nothing else
  ghost predicate ReasonsOf(r: TaskResult, reasons: seq<Reason>) {
    && (ReasonFailed in reasons <==> r.status.Failed?)
    && (ReasonSkipped in reasons <==> r.status.Skipped?)
    && (EmptyResult in reasons <==> r.status.Completed? && r.rowCount == 0)
    && (Truncated in reasons <==> r.truncated)
    && forall i, j :: 0 <= i < j < |reasons| ==> reasons[i] != reasons[j]
  }

  // The ids of the tasks that are not full, in the order of the results
  function Gaps(results: seq<TaskResult>): seq<string> {
    if results == [] then []
    else
      var last := results[|results| - 1];
      Gaps(results[..|results| - 1]) + if Full(last) then [] else [last.taskId]
  }

  function Ids(list: seq<Incomplete>): (r: seq<string>)
    ensures |r| == |list|
  {
    seq(|list|, i requires 0 <= i < |list| => list[i].taskId)
  }

  // The tasks that are not full, in order, each with its reasons
  ghost predicate Marks(list: seq<Incomplete>, results: seq<TaskResult>) {
    && Ids(list) == Gaps(results)
    && forall e :: e in list ==>
         e.reasons != [] && exists r :: r in results && r.taskId == e.taskId && ReasonsOf(r, e.reasons)
  }

  /** The tasks that the report must mark: exactly those that are not full, each with its reasons. */
  method IncompleteTasks(results: seq<TaskResult>) returns (list: seq<Incomplete>)
    ensures Marks(list, results)
  {
    list := [];
    for i := 0 to |results|
      invariant Ids(list) == Gaps(results[..i])
      invariant forall e :: e in list ==>
                  e.reasons != [] && exists r :: r in results && r.taskId == e.taskId && ReasonsOf(r, e.reasons)
    {
      assert results[..i + 1][..i] == results[..i];
      var r := results[i];
      var reasons := Reasons(r);
      if reasons != [] {
        ghost var before := list;
        list := list + [Incomplete(r.taskId, reasons)];
        assert Ids(list) == Ids(before) + [r.taskId];
      }
    }
    assert results[..|results|] == results;
  }

  method Reasons(r: TaskResult) returns (reasons: seq<Reason>)
    ensures ReasonsOf(r, reasons) && (reasons == [] <==> Full(r))
  {
    reasons := [];
    if r.status.Failed? {
      reasons := reasons + [ReasonFailed];
    } else if r.status.Skipped? {
      reasons := reasons + [ReasonSkipped];
    } else if r.rowCount == 0 {
      reasons := reasons + [EmptyResult];
    }
    if r.truncated {
      reasons := reasons + [Truncated];
    }
  }

  // ---------------------------------------------------------------- the checks of a report

  function ById(results: seq<TaskResult>): map<string, TaskResult> {
    if results == [] then map[]
    else ById(results[..|results| - 1])[results[|results| - 1].taskId := results[|results| - 1]]
  }

  ghost predicate Distinct(results: seq<TaskResult>) {
    forall i, j :: 0 <= i < j < |results| ==> results[i].taskId != results[j].taskId
  }

  lemma {:induction false} ByIdFinds(results: seq<TaskResult>, id: string)
    requires Distinct(results)
    ensures id in ById(results) <==> exists r :: r in results && r.taskId == id
    ensures id in ById(results) ==> ById(results)[id] in results && ById(results)[id].taskId == id
    ensures forall r :: r in results && r.taskId == id ==> id in ById(results) && ById(results)[id] == r
  {
    if results != [] {
      ByIdFinds(results[..|results| - 1], id);
    }
  }

  // A completed task of that name
  ghost predicate Evidence(results: seq<TaskResult>, id: string) {
    exists r :: r in results && r.taskId == id && r.status.Completed?
  }

  lemma EvidenceFound(results: seq<TaskResult>, id: string)
    requires Distinct(results)
    ensures Evidence(results, id) <==> id in ById(results) && ById(results)[id].status.Completed?
  {
    ByIdFinds(results, id);
  }

  ghost predicate SomeCompleted(results: seq<TaskResult>) {
    exists r :: r in results && r.status.Completed?
  }

  /** What makes the references of a report right. */
  ghost predicate WellReferenced(results: seq<TaskResult>, blank: string -> bool, evidence: seq<string>,
                                 incomplete: seq<string>) {
    && (forall r :: r in results ==> !blank(r.taskId)) && Distinct(results) && SomeCompleted(results)
    && (forall id :: id in evidence ==> Evidence(results, id))
    && incomplete == Gaps(results)
  }

  method ValidateTaskResults(results: seq<TaskResult>, blank: string -> bool) returns (e: Option<ReferenceError>)
    ensures e.None? <==> (forall r :: r in results ==> !blank(r.taskId)) && Distinct(results)
    ensures e == Some(ResultsInvalid) ==> exists r :: r in results && blank(r.taskId)
    ensures e == Some(ResultDuplicate) ==> !Distinct(results)
    ensures e.Some? ==> e.value in {ResultsInvalid, ResultDuplicate}
  {
    var ids: seq<string> := [];
    for i := 0 to |results|
      invariant |ids| == i && forall k :: 0 <= k < i ==> ids[k] == results[k].taskId && !blank(results[k].taskId)
      invariant forall j, k :: 0 <= j < k < i ==> results[j].taskId != results[k].taskId
    {
      if blank(results[i].taskId) {
        return Some(ResultsInvalid);
      }
      if results[i].taskId in ids {
        return Some(ResultDuplicate);
      }
      ids := ids + [results[i].taskId];
    }
    e := None;
  }

  /** The checks around the report of a run, from its task results to the references of the candidate. */
  method CheckReport(results: seq<TaskResult>, blank: string -> bool, evidence: seq<string>, incomplete: seq<string>)
    returns (e: Option<ReferenceError>)
    ensures e.None? <==> WellReferenced(results, blank, evidence, incomplete)
    ensures e == Some(ResultsInvalid) ==> exists r :: r in results && blank(r.taskId)
    ensures e == Some(ResultDuplicate) ==> !Distinct(results)
    ensures e == Some(NothingCompleted) ==> !SomeCompleted(results)
    ensures e == Some(EvidenceInvalid) ==> exists id :: id in evidence && !Evidence(results, id)
    ensures e == Some(IncompleteInvalid) ==> incomplete != Gaps(results) && forall id :: id in evidence ==>
              Evidence(results, id)
  {
    e := ValidateTaskResults(results, blank);
    if e.Some? {
      return;
    }
    var completed := CompletedOf(results);
    if completed == [] {
      return Some(NothingCompleted);
    }
    var expected := IncompleteTasks(results);
    var byId := ById(results);
    for i := 0 to |evidence|
      invariant forall k :: 0 <= k < i ==> Evidence(results, evidence[k])
    {
      EvidenceFound(results, evidence[i]);
      if evidence[i] !in byId || !byId[evidence[i]].status.Completed? {
        assert evidence[i] in evidence && !Evidence(results, evidence[i]);
        return Some(EvidenceInvalid);
      }
    }
    if incomplete != Ids(expected) {
      return Some(IncompleteInvalid);
    }
    e := None;
  }

  method CompletedOf(results: seq<TaskResult>) returns (completed: seq<TaskResult>)
    ensures completed != [] <==> SomeCompleted(results)
  {
    completed := [];
    for i := 0 to |results|
      invariant forall r :: r in completed ==> r in results && r.status.Completed?
      invariant completed == [] ==> forall k :: 0 <= k < i ==> !results[k].status.Completed?
    {
      if results[i].status.Completed? {
        completed := completed + [results[i]];
      }
    }
    if completed != [] {
      assert completed[0] in results;
    }
  }

  // ---------------------------------------------------------------- what a reader can rely on

  lemma {:induction false} GapsHold(results: seq<TaskResult>, id: string)
    ensures id in Gaps(results) <==> exists r :: r in results && r.taskId == id && !Full(r)
  {
    if results != [] {
      var init := results[..|results| - 1];
      GapsHold(init, id);
      assert results == init + [results[|results| - 1]];
    }
  }

  /**
   * In an accepted report every task is marked as incomplete or has completed with all of its rows,
   * and a task that failed or was skipped is marked and is no evidence.
   */
  lemma ReportAccounts(results: seq<TaskResult>, blank: string -> bool, evidence: seq<string>, incomplete: seq<string>,
                       r: TaskResult)
    requires WellReferenced(results, blank, evidence, incomplete) && r in results
    ensures r.taskId in incomplete <==> !Full(r)
    ensures !r.status.Completed? ==> r.taskId in incomplete && r.taskId !in evidence
  {
    GapsHold(results, r.taskId);
    ByIdFinds(results, r.taskId);
  }

  lemma MarkOf(list: seq<Incomplete>, results: seq<TaskResult>, r: TaskResult) returns (e: Incomplete)
    requires Distinct(results) && Marks(list, results) && r in results && !Full(r)
    ensures e in list && e.taskId == r.taskId && ReasonsOf(r, e.reasons)
  {
    GapsHold(results, r.taskId);
    var k :| 0 <= k < |Ids(list)| && Ids(list)[k] == r.taskId;
    e := list[k];
    var x :| x in results && x.taskId == e.taskId && ReasonsOf(x, e.reasons);
    ByIdFinds(results, r.taskId);
  }

  /**
   * From the answers to the queries to the marks of the report: a task whose query answered with all of its rows,
   * and some, is the only kind that is not marked; one whose rows were cut off is marked as such, one without rows
   * as empty, one whose query failed as failed, and one whose dependencies did not all complete as skipped.
   */
  lemma AnswersMarked(tasks: seq<Task>, answer: Task -> Outcome, results: seq<TaskResult>, issued: seq<string>,
                      list: seq<Incomplete>, i: nat)
    requires DistinctIds(tasks) && Reports(tasks, answer, results, issued) && i < |tasks| && Marks(list, results)
    ensures var t, o := tasks[i], answer(tasks[i]);
            if t.id in issued && o.Success? && o.rowCount > 0 && !o.truncated then t.id !in Ids(list)
            else
              exists e :: e in list && e.taskId == t.id
                          && (Truncated in e.reasons <==> t.id in issued && o.Success? && o.truncated)
                          && (EmptyResult in e.reasons <==> t.id in issued && o.Success? && o.rowCount == 0)
                          && (ReasonFailed in e.reasons <==> t.id in issued && !o.Success?)
                          && (ReasonSkipped in e.reasons <==> t.id !in issued)
  {
    var t, r := tasks[i], results[i];
    assert Tells(r, t.id in issued, answer(t));
    assert r in results && r.taskId == t.id;
    DistinctResults(tasks, answer, results, issued);
    if Full(r) {
      GapsHold(results, t.id);
      ByIdFinds(results, t.id);
    } else {
      var e := MarkOf(list, results, r);
    }
  }

  lemma DistinctResults(tasks: seq<Task>, answer: Task -> Outcome, results: seq<TaskResult>, issued: seq<string>)
    requires DistinctIds(tasks) && Reports(tasks, answer, results, issued)
    ensures Distinct(results)
  {
  }

  /** A run reaches its report with every task done, so that only empty results can be marked. */
  lemma OnlyEmptyMarked(s: AnalysisRun.State, r: TaskResult, reasons: seq<Reason>)
    requires AnalysisRun.At(AnalysisRun.SummarizeNode, s) && r in s.results && ReasonsOf(r, reasons)
    ensures forall x :: x in reasons ==> x == EmptyResult
    ensures |reasons| <= 1
  {
    var i :| 0 <= i < |s.results| && s.results[i] == r;
    assert AnalysisRun.Done(s.results[i]);
    forall x | x in reasons
      ensures x == EmptyResult
    {
      match x
      case ReasonFailed =>
      case ReasonSkipped =>
      case EmptyResult =>
      case Truncated =>
    }
    if |reasons| > 1 {
      assert reasons[0] in reasons && reasons[1] in reasons;
    }
  }
}
