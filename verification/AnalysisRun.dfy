/** A resumable analysis run: the checkpointed task loop behind the register of runs. */
module AnalysisRun {
  import opened Wrappers
  import opened PlanValidation
  import opened TaskScheduler

  datatype Code = Clarification | CannotAnswer | ContextError | LlmError | DatabaseError | QueryTimeout

  datatype RunFailure = RunFailure(code: Code, reason: string)

  /** What the checkpoint keeps between calls. */
  datatype State = State(plan: Option<seq<string>>, results: seq<TaskResult>, attributed: bool, report: Option<string>,
                         failure: Option<RunFailure>)

  const FRESH := State(None, [], false, None, None)

  predicate Done(r: TaskResult) {
    r.status.Completed? && !r.truncated
  }

  predicate AllDone(s: State) {
    s.plan.Some? && |s.results| == |s.plan.value| && forall i :: 0 <= i < |s.results| ==> Done(s.results[i])
  }

  /** The stored results are a prefix of the plan in which all but possibly the last are done. */
  ghost predicate Sound(s: State) {
    && (s.plan.None? ==> s.results == [])
    && (s.plan.Some? ==>
          && s.plan.value != [] && NoDuplicates(s.plan.value) && |s.results| <= |s.plan.value|
          && (forall i :: 0 <= i < |s.results| ==> s.results[i].taskId == s.plan.value[i])
          && (forall i :: 0 <= i < |s.results| - 1 ==> Done(s.results[i])))
    && (s.attributed ==> AllDone(s))
    && (s.report.Some? ==> s.attributed)
  }

  // ---------------------------------------------------------------- the world of one call

  datatype Extraction = ContextDown | ExtractionFailed(reason: string) | Extracted

  datatype Planning = PlanRejected(failure: RunFailure) | Planned(tasks: seq<string>)

  // Whether the caller stops the run at a node, before it starts or before its result is stored
  datatype Pace = Go | StopBefore | StopWithin

  // What the collaborators answer during one call
  datatype World = World(
    extraction: Extraction, planning: Planning, bound: bool,
    answer: (string, nat) -> TaskResult,
    attribution: Option<string>,  // the reason of a failure
    summary: Option<RunFailure>, report: string,
    pace: nat -> Pace, stopAfter: bool, expiredMeanwhile: bool)

  // A planned comparison has distinct tasks, and answers are for the task that was asked.
  ghost predicate WorldOk(w: World) {
    && (w.planning.Planned? ==> w.planning.tasks != [] && NoDuplicates(w.planning.tasks))
    && (forall t, n :: w.answer(t, n).taskId == t)
  }

  // ---------------------------------------------------------------- the nodes

  function Extract(s: State, w: World): State {
    if s.plan.Some? then s.(failure := None)
    else
      match w.extraction
      case ContextDown => s.(failure := Some(RunFailure(ContextError, "ANALYSIS_CONTEXT_UNAVAILABLE")))
      case ExtractionFailed(reason) => s.(failure := Some(RunFailure(LlmError, reason)))
      case Extracted => s
  }

  function Validate(s: State, w: World): State {
    if s.failure.Some? then s
    else if s.plan.Some? then s.(failure := None)
    else
      match w.planning
      case PlanRejected(f) => s.(failure := Some(f))
      case Planned(tasks) => s.(plan := Some(tasks))
  }

  predicate RetryableResult(r: TaskResult) {
    || r.error == Some("CONTEXT_ERROR") || r.error == Some("DATABASE_ERROR")
    || r.error == Some("LLM_ERROR") || r.error == Some("QUERY_TIMEOUT")
  }

  // The place of the first task that is not done
  function NextTask(s: State): nat
    requires s.plan.Some?
  {
    if s.results != [] && !Done(s.results[|s.results| - 1]) then |s.results| - 1 else |s.results|
  }

  // The task is queried once more when it failed in a way that may pass.
  function Tries(w: World, t: string): nat {
    if w.answer(t, 0).status.Failed? && RetryableResult(w.answer(t, 0)) then 2 else 1
  }

  function Queried(w: World, t: string): seq<string> {
    if Tries(w, t) == 2 then [t, t] else [t]
  }

  function ExecuteNext(s: State, w: World): State
    requires s.plan.Some? && NextTask(s) <= |s.plan.value|
  {
    if !w.bound then s.(failure := Some(RunFailure(ContextError, "ANALYSIS_EXECUTION_FAILURE")))
    else if NextTask(s) == |s.plan.value| then s
    else
      var t := s.plan.value[NextTask(s)];
      var r := w.answer(t, Tries(w, t) - 1);
      s.(results := s.results[..NextTask(s)] + [r],
         failure := if Done(r) then None
                    else if r.truncated then Some(RunFailure(CannotAnswer, "ANALYSIS_TASK_TRUNCATED"))
                    else Some(RunFailure(CannotAnswer, "ANALYSIS_TASK_FAILED")))
  }

  function Attribute(s: State, w: World): State {
    match w.attribution
    case Some(reason) => s.(failure := Some(RunFailure(CannotAnswer, reason)))
    case None => s.(attributed := true)
  }

  function Summarize(s: State, w: World): State {
    match w.summary
    case Some(f) => s.(failure := Some(f))
    case None => s.(report := Some(w.report))
  }

  datatype Node = ExtractNode | ValidateNode | ExecuteNode | AttributeNode | SummarizeNode | End

  function RunNode(n: Node, s: State, w: World): State
    requires n.ExecuteNode? ==> s.plan.Some? && NextTask(s) <= |s.plan.value|
  {
    match n
    case ExtractNode => Extract(s, w)
    case ValidateNode => Validate(s, w)
    case ExecuteNode => ExecuteNext(s, w)
    case AttributeNode => Attribute(s, w)
    case SummarizeNode => Summarize(s, w)
    case End => s
  }

  function Route(n: Node, s: State): Node {
    match n
    case ExtractNode => ValidateNode
    case ValidateNode => if s.failure.Some? then End else ExecuteNode
    case ExecuteNode =>
      if s.failure.Some? then End
      else if s.plan.Some? && |s.results| == |s.plan.value| then AttributeNode
      else ExecuteNode
    case AttributeNode => if s.failure.Some? then End else SummarizeNode
    case _ => End
  }

  // The queries that a node issues
  function Issues(n: Node, s: State, w: World): seq<string>
    requires n.ExecuteNode? ==> s.plan.Some? && NextTask(s) <= |s.plan.value|
  {
    if n.ExecuteNode? && w.bound && NextTask(s) < |s.plan.value| then Queried(w, s.plan.value[NextTask(s)]) else []
  }

  // ---------------------------------------------------------------- what a node keeps

  // Where a state may be at a node
  ghost predicate At(n: Node, s: State) {
    && Sound(s)
    && (n.ExecuteNode? ==> s.plan.Some? && s.failure.None?)
    && (n.AttributeNode? || n.SummarizeNode? ==> AllDone(s) && s.failure.None?)
    && (n.SummarizeNode? ==> s.attributed)
    && (n.End? && s.failure.None? ==> s.report.Some?)
  }

  // Stored results that are done stay as they are, and a plan stays.
  ghost predicate Keeps(s: State, s': State) {
    && (s.plan.Some? ==> s'.plan == s.plan)
    && |s.results| <= |s'.results|
    && (forall i :: 0 <= i < |s.results| && Done(s.results[i]) ==> s'.results[i] == s.results[i])
  }

  ghost predicate IsDone(s: State, t: string) {
    exists i :: 0 <= i < |s.results| && s.results[i].taskId == t && Done(s.results[i])
  }

  lemma NextBound(s: State)
    requires Sound(s) && s.plan.Some?
    ensures NextTask(s) <= |s.plan.value|
    ensures NextTask(s) == |s.plan.value| <==> AllDone(s)
    ensures forall i :: 0 <= i < NextTask(s) ==> Done(s.results[i])
    ensures NextTask(s) < |s.plan.value| ==> !IsDone(s, s.plan.value[NextTask(s)])
  {
  }

  lemma ExecuteKeeps(s: State, w: World)
    requires At(ExecuteNode, s) && WorldOk(w) && NextTask(s) <= |s.plan.value|
    ensures var s' := ExecuteNext(s, w);
            At(Route(ExecuteNode, s'), s') && Keeps(s, s')
    ensures forall t :: t in Issues(ExecuteNode, s, w) ==> !IsDone(s, t)
  {
    NextBound(s);
  }

  lemma NodeKeeps(n: Node, s: State, w: World)
    requires At(n, s) && WorldOk(w)
    ensures n.ExecuteNode? ==> s.plan.Some? && NextTask(s) <= |s.plan.value|
    ensures var s' := RunNode(n, s, w);
            At(Route(n, s'), s') && Keeps(s, s') && forall t :: t in Issues(n, s, w) ==> !IsDone(s, t)
  {
    hide IsDone;
    if n.ExecuteNode? {
      NextBound(s);
      ExecuteKeeps(s, w);
    }
  }

  lemma KeepsTwice(a: State, b: State, c: State)
    requires Keeps(a, b) && Keeps(b, c)
    ensures Keeps(a, c)
    ensures forall t :: !IsDone(b, t) ==> !IsDone(a, t)
  {
    forall t | IsDone(a, t)
      ensures IsDone(b, t)
    {
      var i :| 0 <= i < |a.results| && a.results[i].taskId == t && Done(a.results[i]);
      assert b.results[i].taskId == t && Done(b.results[i]);
    }
  }

  function Rank(n: Node): nat {
    match n
    case ExtractNode => 5
    case ValidateNode => 4
    case ExecuteNode => 3
    case AttributeNode => 2
    case SummarizeNode => 1
    case End => 0
  }

  // The tasks that are left at a node
  function Left(s: State): nat {
    if s.plan.Some? && NextTask(s) <= |s.plan.value| then |s.plan.value| - NextTask(s) else 0
  }

  lemma NodeEnds(n: Node, s: State, w: World)
    requires At(n, s) && WorldOk(w) && !n.End?
    requires n.ExecuteNode? ==> s.plan.Some? && NextTask(s) <= |s.plan.value|
    ensures var s' := RunNode(n, s, w);
            var n' := Route(n, s');
            Rank(n') < Rank(n) || (n' == n && Left(s') < Left(s))
  {
    if n.ExecuteNode? {
      NextBound(s);
    }
  }

  // ---------------------------------------------------------------- a failure in front of the plan

  /** A failure that was stored before there was a plan is never cleared. */
  predicate StuckBeforePlan(s: State) {
    s.plan.None? && s.failure.Some?
  }

  // A call ends before there is a plan: the extraction fails, or an earlier failure was never cleared.
  predicate EndsEarly(s: State, w: World) {
    s.plan.None? && Extract(s, w).failure.Some?
  }

  // Where such a call stands at a node
  ghost predicate Early(s0: State, w: World, n: Node, s: State) {
    match n
    case ExtractNode => s == s0
    case ValidateNode => s == Extract(s0, w)
    case End => s == Extract(s0, w)
    case _ => false
  }

  lemma EarlyNode(s0: State, w: World, n: Node, s: State)
    requires EndsEarly(s0, w) && Early(s0, w, n, s) && !n.End?
    ensures !n.ExecuteNode? && Issues(n, s, w) == [] && Early(s0, w, Route(n, RunNode(n, s, w)), RunNode(n, s, w))
  {
  }

  lemma StuckEndsEarly(s: State, w: World)
    ensures StuckBeforePlan(s) ==> EndsEarly(s, w) && StuckBeforePlan(Extract(s, w))
    ensures EndsEarly(s, w) ==> StuckBeforePlan(Extract(s, w))
  {
  }

  lemma EarlyStuck(s0: State, w: World, n: Node, s: State)
    requires StuckBeforePlan(s0) && Early(s0, w, n, s)
    ensures StuckBeforePlan(s)
  {
  }

  // Nobody stops the call.
  ghost predicate Calm(w: World) {
    (forall n :: w.pace(n).Go?) && !w.stopAfter
  }

  function ExtractionFailure(x: Extraction): RunFailure
    requires !x.Extracted?
  {
    match x
    case ContextDown => RunFailure(ContextError, "ANALYSIS_CONTEXT_UNAVAILABLE")
    case ExtractionFailed(reason) => RunFailure(LlmError, reason)
  }

  // Everything goes well during a call.
  ghost predicate Favourable(w: World) {
    && w.extraction.Extracted? && w.planning.Planned? && w.bound && (forall t, n :: Done(w.answer(t, n)))
    && w.attribution.None? && w.summary.None? && (forall n :: w.pace(n).Go?) && !w.stopAfter && !w.expiredMeanwhile
  }

  lemma FavourableNode(n: Node, s: State, w: World)
    requires Favourable(w) && At(n, s) && !n.End? && (n.ExtractNode? ==> !StuckBeforePlan(s))
             && (!n.ExtractNode? ==> s.failure.None?)
    requires n.ExecuteNode? ==> s.plan.Some? && NextTask(s) <= |s.plan.value|
    ensures RunNode(n, s, w).failure.None?
  {
  }

  // ---------------------------------------------------------------- the course of a call

  datatype Step = Step(node: Node, state: State, asked: seq<string>)

  /** Where a call stands after some nodes, and the queries issued by then. */
  ghost function Course(s0: State, w: World, k: nat): (r: Step)
    requires Sound(s0) && WorldOk(w)
    ensures At(r.node, r.state)
  {
    if k == 0 then Step(ExtractNode, s0, [])
    else
      var c := Course(s0, w, k - 1);
      NodeKeeps(c.node, c.state, w);
      var s := RunNode(c.node, c.state, w);
      Step(Route(c.node, s), s, c.asked + Issues(c.node, c.state, w))
  }

  /**
   * A call runs node after node until the end, or until it is stopped: in front of a node, or within it, when its
   * queries have been issued and its result is not stored.
   */
  ghost predicate Took(s0: State, w: World, steps: nat, ended: bool, s: State, asked: seq<string>)
    requires Sound(s0) && WorldOk(w)
  {
    var c := Course(s0, w, steps);
    && (forall k :: 0 <= k < steps ==> w.pace(k).Go? && !Course(s0, w, k).node.End?)
    && s == c.state && (ended <==> c.node.End?)
    && if ended then asked == c.asked
       else
         match w.pace(steps)
         case Go => false
         case StopBefore => asked == c.asked
         case StopWithin => NodeReady(c.node, c.state) && asked == c.asked + Issues(c.node, c.state, w)
  }

  ghost predicate NodeReady(n: Node, s: State) {
    n.ExecuteNode? ==> s.plan.Some? && NextTask(s) <= |s.plan.value|
  }

  // ---------------------------------------------------------------- what a call that nobody stops comes to

  // A code that stands for a failure that may pass
  predicate PassingCode(code: Option<string>) {
    code.Some? && code.value in {"CONTEXT_ERROR", "DATABASE_ERROR", "LLM_ERROR", "QUERY_TIMEOUT"}
  }

  // A failure that may pass, told by its code
  predicate Transient(r: TaskResult) {
    r.status == Failed && PassingCode(r.error)
  }

  // A task is queried a second time after a failure that may pass, and the last answer counts.
  function LastAnswer(w: World, t: string): TaskResult {
    if Transient(w.answer(t, 0)) then w.answer(t, 1) else w.answer(t, 0)
  }

  function Asked(w: World, t: string): seq<string> {
    if Transient(w.answer(t, 0)) then [t, t] else [t]
  }

  function AskedFrom(w: World, plan: seq<string>, from: nat, to: nat): seq<string>
    requires to <= |plan|
  {
    if to <= from then [] else AskedFrom(w, plan, from, to - 1) + Asked(w, plan[to - 1])
  }

  // The tasks at the front of the plan that were done before
  function DoneBefore(s0: State): nat {
    if s0.results == [] || Done(s0.results[|s0.results| - 1]) then |s0.results| else |s0.results| - 1
  }

  // The plan of a call: the stored one, or the one that is made now
  function PlanOf(s0: State, w: World): Option<seq<string>> {
    if s0.plan.Some? then s0.plan
    else if w.planning.Planned? then Some(w.planning.tasks)
    else None
  }

  /** The first `n` results: what was done stays, and every other task has its last answer of this call. */
  ghost predicate ResultsUpTo(s0: State, w: World, plan: seq<string>, results: seq<TaskResult>, n: nat) {
    && n <= |results| && n <= |plan| && DoneBefore(s0) <= |s0.results|
    && forall i {:trigger results[i]} :: 0 <= i < n ==>
         results[i] == if i < DoneBefore(s0) then s0.results[i] else LastAnswer(w, plan[i])
  }

  // Where a call that nobody stops stands at a node, with the queries it has issued
  ghost predicate Halfway(s0: State, w: World, n: Node, s: State, asked: seq<string>) {
    match n
    case ExtractNode => s == s0 && asked == []
    case ValidateNode => !EndsEarly(s0, w) ==> s == s0.(failure := None) && asked == []
    case ExecuteNode =>
      && PlanOf(s0, w).Some? && s == s0.(plan := PlanOf(s0, w), results := s.results, failure := None)
      && var plan := PlanOf(s0, w).value;
         var m := NextTask(s);
         && m <= |plan| && DoneBefore(s0) <= m && ResultsUpTo(s0, w, plan, s.results, m)
         && asked == AskedFrom(w, plan, DoneBefore(s0), m)
         && (!w.bound ==> s.results == s0.results && asked == [])
         && (forall i :: 0 <= i < m ==> Done(s.results[i]))
    case AttributeNode => Ran(s0, w, s, asked) && s.attributed == s0.attributed && s.report == s0.report
    case SummarizeNode => Ran(s0, w, s, asked) && s.attributed && w.attribution.None? && s.report == s0.report
    case End => !EndsEarly(s0, w) ==> Ends(s0, w, s, asked)
  }

  // Every task has been done, before or in this call.
  ghost predicate Ran(s0: State, w: World, s: State, asked: seq<string>) {
    && PlanOf(s0, w).Some? && w.bound && s.plan == PlanOf(s0, w) && s.failure.None?
    && var plan := PlanOf(s0, w).value;
       && |s.results| == |plan| && ResultsUpTo(s0, w, plan, s.results, |plan|)
       && (forall i :: 0 <= i < |plan| ==> Done(s.results[i]))
       && asked == AskedFrom(w, plan, DoneBefore(s0), |plan|)
  }

  // The call ended at a task that is not done.
  ghost predicate Broke(s0: State, w: World, s: State, asked: seq<string>) {
    && PlanOf(s0, w).Some? && w.bound && s.plan == PlanOf(s0, w) && s.results != []
    && s.attributed == s0.attributed && s.report == s0.report
    && var plan, last := PlanOf(s0, w).value, s.results[|s.results| - 1];
       && |s.results| <= |plan| && ResultsUpTo(s0, w, plan, s.results, |s.results|)
       && (forall i :: 0 <= i < |s.results| - 1 ==> Done(s.results[i])) && !Done(last)
       && asked == AskedFrom(w, plan, DoneBefore(s0), |s.results|)
       && s.failure == Some(RunFailure(CannotAnswer, if last.truncated then "ANALYSIS_TASK_TRUNCATED"
                                                     else "ANALYSIS_TASK_FAILED"))
  }

  /**
   * How a call ends that gets past the extraction and that nobody stops. Without a plan the rejection is stored.
   * Otherwise the tasks that are not done are queried in the order of the plan until one cannot be done. When all
   * are done, the attribution and the summary decide, and the report is the one that the summary gave.
   */
  ghost predicate Ends(s0: State, w: World, s: State, asked: seq<string>) {
    if PlanOf(s0, w).None? then
      w.planning.PlanRejected? && s == s0.(failure := Some(w.planning.failure)) && asked == []
    else if !w.bound then
      && s == s0.(plan := PlanOf(s0, w), failure := Some(RunFailure(ContextError, "ANALYSIS_EXECUTION_FAILURE")))
      && asked == []
    else
      || Broke(s0, w, s, asked)
      || (Ran(s0, w, s.(failure := None), asked)
          && if w.attribution.Some? then
               && s.failure == Some(RunFailure(CannotAnswer, w.attribution.value))
               && s.attributed == s0.attributed && s.report == s0.report
             else
               && s.attributed && s.failure == w.summary
               && s.report == if w.summary.Some? then s0.report else Some(w.report))
  }

  lemma TransientIs(r: TaskResult)
    ensures Transient(r) <==> r.status.Failed? && RetryableResult(r)
  {
  }

  lemma AnswerIs(w: World, t: string)
    ensures LastAnswer(w, t) == w.answer(t, Tries(w, t) - 1) && Asked(w, t) == Queried(w, t)
  {
    TransientIs(w.answer(t, 0));
  }

  lemma HalfwayExecute(s0: State, w: World, s: State, asked: seq<string>)
    requires Halfway(s0, w, ExecuteNode, s, asked) && At(ExecuteNode, s) && NextTask(s) <= |s.plan.value|
    requires Sound(s0) && !EndsEarly(s0, w)
    ensures var s' := ExecuteNext(s, w);
            Halfway(s0, w, Route(ExecuteNode, s'), s', asked + Issues(ExecuteNode, s, w))
  {
    hide Transient, EndsEarly, RetryableResult, Sound, Done, ResultsUpTo, AskedFrom, Queried;
    NextBound(s);
    var plan, m := s.plan.value, NextTask(s);
    if w.bound && m < |plan| {
      HalfwayOne(s0, w, s, asked);
    } else {
      assert asked + [] == asked && (!w.bound ==> s == s0.(plan := PlanOf(s0, w), failure := None));
      if m == |plan| {
        AllIn(s0, w, s, asked);
      }
    }
  }

  lemma AllIn(s0: State, w: World, s: State, asked: seq<string>)
    requires Halfway(s0, w, ExecuteNode, s, asked) && Sound(s) && NextTask(s) == |s.plan.value|
    ensures |s.results| == |s.plan.value| && (w.bound ==> Ran(s0, w, s, asked))
  {
  }

  // One more task
  lemma HalfwayOne(s0: State, w: World, s: State, asked: seq<string>)
    requires Halfway(s0, w, ExecuteNode, s, asked) && Sound(s) && NextTask(s) < |s.plan.value| && w.bound
    ensures var s' := ExecuteNext(s, w);
            Halfway(s0, w, Route(ExecuteNode, s'), s', asked + Issues(ExecuteNode, s, w))
  {
    hide Transient, EndsEarly, RetryableResult, Sound, Queried, Asked, Tries;
    var plan, m := s.plan.value, NextTask(s);
    AnswerIs(w, plan[m]);
    assert AskedFrom(w, plan, DoneBefore(s0), m + 1) == asked + Asked(w, plan[m]);
    var s' := ExecuteNext(s, w);
    NextPlace(s);
    assert s'.results == s.results[..m] + [LastAnswer(w, plan[m])];
    assert ResultsUpTo(s0, w, plan, s'.results, m + 1);
  }

  lemma NextPlace(s: State)
    requires s.plan.Some?
    ensures NextTask(s) <= |s.results|
  {
  }

  lemma HalfwayExtract(s0: State, w: World, s: State, asked: seq<string>)
    requires Halfway(s0, w, ExtractNode, s, asked) && !EndsEarly(s0, w) && !StuckBeforePlan(s0)
    ensures Halfway(s0, w, ValidateNode, Extract(s, w), asked)
  {
  }

  lemma HalfwayValidate(s0: State, w: World, s: State, asked: seq<string>)
    requires Halfway(s0, w, ValidateNode, s, asked) && Sound(s0) && !EndsEarly(s0, w)
    ensures var s' := Validate(s, w); Halfway(s0, w, Route(ValidateNode, s'), s', asked)
  {
    hide Transient, EndsEarly, LastAnswer;
  }

  lemma HalfwayEnd(s0: State, w: World, n: Node, s: State, asked: seq<string>)
    requires n.AttributeNode? || n.SummarizeNode?
    requires Halfway(s0, w, n, s, asked) && At(n, s)
    ensures var s' := RunNode(n, s, w);
            Halfway(s0, w, Route(n, s'), s', asked + Issues(n, s, w))
  {
    hide Transient, EndsEarly;
    assert asked + Issues(n, s, w) == asked;
  }

  lemma HalfwayEarly(s0: State, w: World, n: Node, s: State, asked: seq<string>)
    requires EndsEarly(s0, w) && Early(s0, w, n, s) && !n.End?
    ensures var s' := RunNode(n, s, w); Halfway(s0, w, Route(n, s'), s', asked)
  {
  }

  // One more node of a call that nobody stops
  lemma HalfwayStep(s0: State, w: World, n: Node, s: State, asked: seq<string>)
    requires Halfway(s0, w, n, s, asked) && At(n, s) && Sound(s0) && !n.End?
    requires EndsEarly(s0, w) ==> Early(s0, w, n, s)
    requires n.ExecuteNode? ==> s.plan.Some? && NextTask(s) <= |s.plan.value|
    ensures var s' := RunNode(n, s, w);
            Halfway(s0, w, Route(n, s'), s', asked + Issues(n, s, w))
  {
    hide Halfway, Sound, At;
    StuckEndsEarly(s0, w);
    if EndsEarly(s0, w) {
      EarlyNode(s0, w, n, s);
      assert asked + Issues(n, s, w) == asked;
      HalfwayEarly(s0, w, n, s, asked);
    } else {
      match n
      case ExecuteNode => HalfwayExecute(s0, w, s, asked);
      case AttributeNode => HalfwayEnd(s0, w, n, s, asked);
      case SummarizeNode => HalfwayEnd(s0, w, n, s, asked);
      case ExtractNode =>
        assert asked + Issues(n, s, w) == asked;
        HalfwayExtract(s0, w, s, asked);
      case ValidateNode =>
        assert asked + Issues(n, s, w) == asked;
        HalfwayValidate(s0, w, s, asked);
    }
  }

  // ---------------------------------------------------------------- the run and its register

  datatype RunStatus = RunNew | RunActive | RunCompleted | RunExpired

  datatype Row = Row(owner: string, question: string, status: RunStatus, expiresAt: int)

  const RUN_TTL: int := 24 * 60 * 60

  datatype Claimed = Claimed(status: RunStatus) | Conflict(reason: string)

  datatype CallResult =
    | Reported(report: string, results: seq<TaskResult>)
    | Unable(failure: RunFailure)
    | Refused(reason: string)
    | Interrupted  // the execution was stopped
    | Raised       // the register refused to complete the run after a failure

  predicate RetryableFailure(f: RunFailure, results: seq<TaskResult>) {
    || (exists i :: 0 <= i < |results| && RetryableResult(results[i]))
    || f.code.ContextError? || f.code.DatabaseError? || f.code.LlmError? || f.code.QueryTimeout?
  }

  // The register lets a caller into the graph: a new run, or one that is active, unexpired and its own.
  predicate Open(row: Option<Row>, owner: string, question: string, now: int) {
    row.None? || (row.value.owner == owner && row.value.question == question && row.value.status.RunActive?
                  && row.value.expiresAt > now)
  }

  predicate IsCompleted(row: Option<Row>) {
    row.Some? && row.value.status.RunCompleted?
  }

  // Why the register turns a caller away
  function Refusal(row: Row, owner: string, question: string, now: int): Option<string> {
    if row.owner != owner then Some("ANALYSIS_RUN_OWNER_MISMATCH")
    else if row.question != question then Some("ANALYSIS_RUN_QUESTION_MISMATCH")
    else if row.status.RunExpired? || row.expiresAt <= now then Some("ANALYSIS_RUN_EXPIRED")
    else None
  }

  const STORE_UNAVAILABLE := Unable(RunFailure(ContextError, "ANALYSIS_RUN_STORE_UNAVAILABLE"))

  // A failure that leaves the run open
  predicate Resumable(s: State) {
    s.failure.Some? && RetryableFailure(s.failure.value, s.results)
  }

  /** A run is left open exactly for a failure that may pass, its own or that of a stored result. */
  lemma ResumableExact(s: State)
    ensures Resumable(s) <==>
              && s.failure.Some?
              && (|| s.failure.value.code in {ContextError, DatabaseError, LlmError, QueryTimeout}
                  || exists i :: 0 <= i < |s.results| && PassingCode(s.results[i].error))
  {
    forall i | 0 <= i < |s.results|
      ensures RetryableResult(s.results[i]) <==> PassingCode(s.results[i].error)
    {
    }
  }

  // What a run that is completed answers from its checkpoint
  function FinalAnswer(s: State): CallResult {
    if s.failure.Some? then Unable(s.failure.value)
    else if s.report.Some? then Reported(s.report.value, s.results)
    else Unable(RunFailure(ContextError, "ANALYSIS_CHECKPOINT_OUTPUT_INVALID"))
  }

  class BusinessAnalysisRun {
    var row: Option<Row>
    var state: State
    ghost var issued: seq<string>  // every query ever issued for this run

    ghost predicate Valid()
      reads this
    {
      && Sound(state)
      && (row.None? ==> state == FRESH)
      && (row.Some? ==> !row.value.status.RunNew?)
      && (IsCompleted(row) ==> At(End, state))
    }

    constructor ()
      ensures Valid() && row.None? && state == FRESH && issued == []
    {
      row, state, issued := None, FRESH, [];
    }

    // The time has come: the run is expired and its checkpoint is deleted.
    method CleanupExpired(now: int)
      requires Valid()
      modifies `row, `state
      ensures Valid()
      ensures if old(row).Some? && old(row).value.expiresAt <= now
              then row == Some(old(row).value.(status := RunExpired)) && state == FRESH
              else row == old(row) && state == old(state)
    {
      if row.Some? && row.value.expiresAt <= now && (row.value.status != RunExpired || state != FRESH) {
        row := Some(row.value.(status := RunExpired));
        state := FRESH;
      }
    }

    method Claim(owner: string, question: string, now: int) returns (r: Claimed)
      requires Valid()
      modifies `row
      ensures Valid()
      ensures row == if old(row).None? then Some(Row(owner, question, RunActive, now + RUN_TTL)) else old(row)
      ensures match Refusal(row.value, owner, question, now)
              case Some(reason) => r == Conflict(reason)
              case None => r.Claimed?
      ensures r.Claimed? ==> r.status == if old(row).None? then RunNew else row.value.status
    {
      var inserted := row.None?;
      if inserted {
        row := Some(Row(owner, question, RunActive, now + RUN_TTL));
      }
      if row.value.owner != owner {
        return Conflict("ANALYSIS_RUN_OWNER_MISMATCH");
      }
      if row.value.question != question {
        return Conflict("ANALYSIS_RUN_QUESTION_MISMATCH");
      }
      if row.value.status == RunExpired || row.value.expiresAt <= now {
        return Conflict("ANALYSIS_RUN_EXPIRED");
      }
      r := Claimed(if inserted then RunNew else row.value.status);
    }

    method MarkCompleted() returns (ok: bool)
      requires Valid() && At(End, state)
      modifies `row
      ensures Valid() && ok == (old(row).Some? && old(row).value.status.RunActive?)
      ensures row == if ok then Some(old(row).value.(status := RunCompleted)) else old(row)
    {
      ok := row.Some? && row.value.status == RunActive;
      if ok {
        row := Some(row.value.(status := RunCompleted));
      }
    }

    // A cancelled execution expires its run, and registers it as expired when it has not started yet.
    method Cancel(owner: string, question: string, createdAt: int) returns (ok: bool)
      requires Valid()
      modifies `row
      ensures Valid()
      ensures ok <==> old(row).None? || (old(row).value.owner == owner && old(row).value.question == question)
      ensures row == if old(row).None? then Some(Row(owner, question, RunExpired, createdAt + RUN_TTL))
                     else if ok then Some(old(row).value.(status := RunExpired)) else old(row)
    {
      if row.None? {
        row := Some(Row(owner, question, RunExpired, createdAt + RUN_TTL));
        return true;
      }
      if row.value.owner != owner || row.value.question != question {
        return false;
      }
      row := Some(row.value.(status := RunExpired));
      ok := true;
    }

    // A deleted history expires its run at once.
    method Withdraw(owner: string, question: string, now: int)
      requires Valid()
      modifies `row
      ensures Valid()
      ensures row == if old(row).None? then Some(Row(owner, question, RunExpired, now))
                     else Some(old(row).value.(status := RunExpired, expiresAt := now))
    {
      row := if row.None? then Some(Row(owner, question, RunExpired, now))
             else Some(row.value.(status := RunExpired, expiresAt := now));
    }

    lemma ValidSound()
      requires Valid()
      ensures Sound(state) && (row.None? ==> state == FRESH) && (row.Some? ==> !row.value.status.RunNew?)
      ensures IsCompleted(row) && state.failure.None? ==> AllDone(state)
    {
    }

    lemma SoundValid()
      requires Sound(state) && row.Some? && !IsCompleted(row) && !row.value.status.RunNew?
      ensures Valid()
    {
    }

    // Runs the nodes of the graph; `false` when the execution was stopped.
    method Invoke(w: World) returns (ended: bool, ghost steps: nat)
      requires Valid() && WorldOk(w) && row.Some? && !IsCompleted(row) && !row.value.status.RunNew?
      modifies `state, `issued
      ensures Valid() && Keeps(old(state), state) && old(issued) <= issued
      ensures forall t :: t in issued[|old(issued)|..] ==> !IsDone(old(state), t)
      ensures ended ==> At(End, state)
      ensures Sound(old(state)) && Took(old(state), w, steps, ended, state, issued[|old(issued)|..])
      ensures (forall n :: w.pace(n).Go?) ==> ended
      ensures EndsEarly(old(state), w) ==> issued == old(issued) && (ended ==> state == Extract(old(state), w))
      ensures StuckBeforePlan(old(state)) ==> StuckBeforePlan(state)
      ensures Favourable(w) && !StuckBeforePlan(old(state)) ==> ended && state.failure.None?
      ensures (forall n :: w.pace(n).Go?) && !EndsEarly(old(state), w) ==>
                Ends(old(state), w, state, issued[|old(issued)|..])
    {
      hide *;
      ValidSound();
      var node := ExtractNode;
      var step := 0;
      steps := 0;
      StartInvoke(state, issued, w);
      StartCourse(state, w, issued);
      while node != End
        invariant old(issued) <= issued && step == steps
        invariant Passed(old(state), w, steps, node, state, issued[|old(issued)|..])
        invariant (forall n :: w.pace(n).Go?) ==> Halfway(old(state), w, node, state, issued[|old(issued)|..])
        invariant WorldOk(w) && row == old(row) && Underway(old(state), old(issued), w, node, state, issued)
        decreases Rank(node), Left(state)
      {
        StepUnderway(old(state), old(issued), w, node, state, issued);
        NextCourse(old(state), w, steps, node, state, old(issued), issued);
        if w.pace(step) == StopBefore {
          UnderwayParts(old(state), old(issued), w, node, state, issued);
          Going(w, step);
          SoundValid();
          return false, steps;
        }
        if forall n :: w.pace(n).Go? {
          HalfwayNext(old(state), old(issued), w, node, state, issued);
        }
        issued := issued + Issues(node, state, w);
        if w.pace(step) == StopWithin {
          UnderwayParts(old(state), old(issued), w, node, state, issued);
          Going(w, step);
          SoundValid();
          return false, steps;
        }
        state := RunNode(node, state, w);
        node := Route(node, state);
        step := step + 1;
        steps := steps + 1;
      }
      EndCourse(old(state), w, steps, node, state, issued[|old(issued)|..]);
      UnderwayParts(old(state), old(issued), w, node, state, issued);
      SoundValid();
      ended := true;
    }

    // What a completed run answers
    method CompletedResult() returns (r: CallResult)
      requires Valid() && IsCompleted(row)
      ensures r == FinalAnswer(state)
      ensures state.failure.None? ==>
                AllDone(state) && state.report.Some? && r == Reported(state.report.value, state.results)
    {
      EndState(state);
      if state.failure.Some? {
        return Unable(state.failure.value);
      }
      if state.report.None? || !state.attributed {
        return Unable(RunFailure(ContextError, "ANALYSIS_CHECKPOINT_OUTPUT_INVALID"));
      }
      r := Reported(state.report.value, state.results);
    }

    /**
     * One call on the run. Only an open run executes tasks, a task that is done is never queried
     * again, success means that all tasks are done, a call that completes the run gives the answer
     * that every later call repeats, a failed extraction is stored in front of the plan, and when
     * everything goes well the call succeeds exactly when no failure was stored there.
     */
    method Analyze(owner: string, question: string, now: int, w: World) returns (r: CallResult)
      requires Valid() && WorldOk(w)
      modifies this
      ensures Valid() && row.Some? && old(issued) <= issued
      ensures row.value == (if old(row).None? then Row(owner, question, RunActive, now + RUN_TTL) else old(row).value)
                           .(status := row.value.status)
      ensures !Open(old(row), owner, question, now) ==>
                && issued == old(issued) && old(row).Some?
                && if old(row).value.expiresAt <= now
                   then state == FRESH && row == Some(old(row).value.(status := RunExpired))
                   else state == old(state) && row == old(row)
      ensures !Open(old(row), owner, question, now) ==>
                match Refusal(old(row).value, owner, question, now)
                case Some(reason) => r == Refused(reason)
                case None => r == FinalAnswer(state)
      ensures Open(old(row), owner, question, now) && row.value.status == RunCompleted ==> r == FinalAnswer(state)
      ensures Open(old(row), owner, question, now) && row.value.status == RunActive ==>
                || r == Interrupted
                || (state.failure.Some? && r == Unable(state.failure.value)
                    && RetryableFailure(state.failure.value, state.results))
      ensures Open(old(row), owner, question, now) && row.value.status == RunExpired ==>
                r == Raised || r == STORE_UNAVAILABLE
      ensures Open(old(row), owner, question, now) ==>
                && Keeps(old(state), state) && forall t :: t in issued[|old(issued)|..] ==> !IsDone(old(state), t)
      ensures Open(old(row), owner, question, now) && r.Reported? ==>
                && AllDone(state) && state.attributed && state.report == Some(r.report) && r.results == state.results
                && row.value.status == RunCompleted
      ensures Open(old(row), owner, question, now) && StuckBeforePlan(old(state)) ==>
                StuckBeforePlan(state) && issued == old(issued)
      ensures Open(old(row), owner, question, now) && Calm(w) ==> r != Interrupted
      ensures Open(old(row), owner, question, now) && Calm(w) && old(state).plan.None? && !w.extraction.Extracted? ==>
                && r == Unable(ExtractionFailure(w.extraction))
                && state == old(state).(failure := Some(ExtractionFailure(w.extraction)))
                && StuckBeforePlan(state) && row.value.status == RunActive && issued == old(issued)
      ensures Open(old(row), owner, question, now) && Favourable(w) && StuckBeforePlan(old(state)) ==>
                && r == Unable(old(state).failure.value) && state == old(state)
                && (RetryableFailure(old(state).failure.value, old(state).results) ==> row.value.status == RunActive)
      ensures Open(old(row), owner, question, now) && Favourable(w) ==> (r.Reported? <==> !StuckBeforePlan(old(state)))
      ensures old(row).Some? && old(row).value.status != RunActive ==> row.value.status != RunActive
      ensures Open(old(row), owner, question, now) ==>
                && Sound(old(state))
                && exists steps: nat, ended: bool ::
                     && Took(old(state), w, steps, ended, state, issued[|old(issued)|..])
                     && (r == Interrupted <==> !ended || w.stopAfter)
      ensures Open(old(row), owner, question, now) && Calm(w) && !EndsEarly(old(state), w) ==>
                Ends(old(state), w, state, issued[|old(issued)|..])
    {
      hide Sound, Keeps, IsDone, StuckBeforePlan, Favourable, AllDone, WorldOk, RetryableFailure, At, Extract,
        EndsEarly;
      CleanupExpired(now);
      var claimed := Claim(owner, question, now);
      if claimed.Conflict? {
        return Refused(claimed.reason);
      }
      if claimed.status == RunCompleted {
        r := CompletedResult();
        return;
      }
      FreshNotStuck();
      BeforePlan(state, w);
      ghost var steps: nat;
      var ended: bool;
      ended, steps := Invoke(w);
      FavourableEnd(w);
      assert Took(old(state), w, steps, ended, state, issued[|old(issued)|..]);
      if !ended || w.stopAfter {
        return Interrupted;
      }
      r := Conclude(owner, question, now, w.expiredMeanwhile);
    }

    // What a call that has run to its end answers, and whether the run is completed
    method Conclude(owner: string, question: string, now: int, expired: bool) returns (r: CallResult)
      requires Valid() && At(End, state)
      requires row.Some? && row.value.status.RunActive? && row.value.owner == owner && row.value.question == question
      modifies `row
      ensures Valid() && row.Some? && row.value == old(row).value.(status := row.value.status) && r != Interrupted
      ensures row.value.status == if Resumable(state) then RunActive else if expired then RunExpired else RunCompleted
      ensures match row.value.status
              case RunExpired => r == (if state.failure.Some? then Raised else STORE_UNAVAILABLE)
              case RunActive => state.failure.Some? && r == Unable(state.failure.value)
              case _ => r == FinalAnswer(state)
      ensures r.Reported? <==> state.failure.None? && !expired
      ensures r.Reported? ==> AllDone(state) && state.attributed && state.report == Some(r.report)
    {
      hide Sound, AllDone, RetryableFailure, At;
      EndState(state);
      if state.failure.Some? {
        if RetryableFailure(state.failure.value, state.results) {
          return Unable(state.failure.value);
        }
        if expired {
          var _ := Cancel(owner, question, now);
        }
        var marked := MarkCompleted();
        if !marked {
          return Raised;
        }
        return Unable(state.failure.value);
      }
      if expired {
        var _ := Cancel(owner, question, now);
      }
      var ok := MarkCompleted();
      if !ok {
        return STORE_UNAVAILABLE;
      }
      r := Reported(state.report.value, state.results);
    }
  }

  lemma FreshNotStuck()
    ensures !StuckBeforePlan(FRESH)
  {
  }

  // What a call without a plan comes to
  lemma BeforePlan(s: State, w: World)
    ensures StuckBeforePlan(s) ==>
              s.failure.Some? && EndsEarly(s, w) && (w.extraction.Extracted? ==> Extract(s, w) == s)
    ensures s.plan.None? && !w.extraction.Extracted? ==>
              var f := ExtractionFailure(w.extraction);
              && EndsEarly(s, w) && Extract(s, w) == s.(failure := Some(f))
              && RetryableFailure(f, s.results) && StuckBeforePlan(Extract(s, w))
  {
  }

  lemma FavourableEnd(w: World)
    ensures Favourable(w) ==> !w.stopAfter && !w.expiredMeanwhile && w.extraction.Extracted? && Calm(w)
  {
  }

  lemma EndState(s: State)
    requires At(End, s)
    ensures s.failure.None? ==> s.report.Some? && s.attributed && AllDone(s)
    ensures StuckBeforePlan(s) ==> s.failure.Some?
  {
  }

  // A call on the way, since it started at `s0` with the queries `before`
  ghost predicate Underway(s0: State, before: seq<string>, w: World, n: Node, s: State, issued: seq<string>) {
    && At(n, s) && Keeps(s0, s)
    && before <= issued && (forall t :: t in issued[|before|..] ==> !IsDone(s0, t))
    && (EndsEarly(s0, w) ==> issued == before && Early(s0, w, n, s))
    && (StuckBeforePlan(s0) ==> StuckBeforePlan(s))
    && (Favourable(w) && !StuckBeforePlan(s0) ==> if n.ExtractNode? then !StuckBeforePlan(s) else s.failure.None?)
  }

  lemma UnderwayParts(s0: State, before: seq<string>, w: World, n: Node, s: State, issued: seq<string>)
    requires Underway(s0, before, w, n, s, issued)
    ensures Sound(s) && At(n, s) && Keeps(s0, s)
    ensures before <= issued && forall t :: t in issued[|before|..] ==> !IsDone(s0, t)
    ensures EndsEarly(s0, w) ==> issued == before && (n.End? ==> s == Extract(s0, w))
    ensures StuckBeforePlan(s0) ==> StuckBeforePlan(s)
    ensures Favourable(w) && !StuckBeforePlan(s0) && n.End? ==> s.failure.None?
    ensures n.End? && !EndsEarly(s0, w) && Halfway(s0, w, n, s, issued[|before|..]) ==>
              Ends(s0, w, s, issued[|before|..])
  {
    hide Keeps, IsDone, Sound, StuckBeforePlan, Favourable, EndsEarly, Extract;
  }

  lemma StartInvoke(s: State, issued: seq<string>, w: World)
    requires Sound(s)
    ensures Underway(s, issued, w, ExtractNode, s, issued) && Halfway(s, w, ExtractNode, s, issued[|issued|..])
  {
    assert issued[|issued|..] == [];
    hide IsDone, StuckBeforePlan, Favourable, EndsEarly, Extract;
  }

  lemma StepUnderway(s0: State, before: seq<string>, w: World, n: Node, s: State, issued: seq<string>)
    requires Underway(s0, before, w, n, s, issued) && WorldOk(w) && !n.End?
    ensures n.ExecuteNode? ==> s.plan.Some? && NextTask(s) <= |s.plan.value|
    ensures var s' := RunNode(n, s, w);
            && (Rank(Route(n, s')) < Rank(n) || (Route(n, s') == n && Left(s') < Left(s)))
            && Underway(s0, before, w, n, s, issued + Issues(n, s, w))
            && Underway(s0, before, w, Route(n, s'), s', issued + Issues(n, s, w))
  {
    hide At, Keeps, IsDone, Sound, StuckBeforePlan, Favourable, RunNode, Issues, WorldOk, Extract, EndsEarly, Early,
      Rank, Left, Route;
    NodeKeeps(n, s, w);
    NodeEnds(n, s, w);
    var s' := RunNode(n, s, w);
    var more := Issues(n, s, w);
    KeepsTwice(s0, s, s');
    IssueNext(s0, s, before, issued, more);
    StuckEndsEarly(s0, w);
    if EndsEarly(s0, w) {
      EarlyNode(s0, w, n, s);
      assert issued + more == issued;
      if StuckBeforePlan(s0) {
        EarlyStuck(s0, w, Route(n, s'), s');
      }
    }
    if Favourable(w) && !StuckBeforePlan(s0) {
      FavourableNode(n, s, w);
      Unfailed(n, s');
    }
  }

  // The call has run so far without being stopped.
  ghost predicate Passed(s0: State, w: World, steps: nat, n: Node, s: State, asked: seq<string>) {
    && Sound(s0) && WorldOk(w) && Course(s0, w, steps) == Step(n, s, asked)
    && forall k :: 0 <= k < steps ==> w.pace(k).Go? && !Course(s0, w, k).node.End?
  }

  lemma StartCourse(s: State, w: World, issued: seq<string>)
    requires Sound(s) && WorldOk(w)
    ensures Passed(s, w, 0, ExtractNode, s, issued[|issued|..])
  {
    assert issued[|issued|..] == [];
  }

  lemma NextCourse(s0: State, w: World, steps: nat, n: Node, s: State, before: seq<string>, issued: seq<string>)
    requires before <= issued && Passed(s0, w, steps, n, s, issued[|before|..]) && !n.End?
    requires n.ExecuteNode? ==> s.plan.Some? && NextTask(s) <= |s.plan.value|
    ensures var all := (issued + Issues(n, s, w))[|before|..];
            && (w.pace(steps).StopBefore? ==> Took(s0, w, steps, false, s, issued[|before|..]))
            && (w.pace(steps).StopWithin? ==> Took(s0, w, steps, false, s, all))
            && (w.pace(steps).Go? ==> Passed(s0, w, steps + 1, Route(n, RunNode(n, s, w)), RunNode(n, s, w), all))
  {
    hide RunNode, Route, Issues, At, Sound, WorldOk;
    assert (issued + Issues(n, s, w))[|before|..] == issued[|before|..] + Issues(n, s, w);
  }

  lemma EndCourse(s0: State, w: World, steps: nat, n: Node, s: State, asked: seq<string>)
    requires Passed(s0, w, steps, n, s, asked) && n.End?
    ensures Took(s0, w, steps, true, s, asked)
  {
    hide At, Sound, WorldOk, RunNode, Route, Issues;
  }

  lemma HalfwayNext(s0: State, before: seq<string>, w: World, n: Node, s: State, issued: seq<string>)
    requires Underway(s0, before, w, n, s, issued) && !n.End? && Sound(s0)
    requires Halfway(s0, w, n, s, issued[|before|..])
    requires n.ExecuteNode? ==> s.plan.Some? && NextTask(s) <= |s.plan.value|
    ensures var s' := RunNode(n, s, w);
            Halfway(s0, w, Route(n, s'), s', (issued + Issues(n, s, w))[|before|..])
  {
    hide Halfway, At, Sound, Keeps, IsDone, Favourable, StuckBeforePlan, EndsEarly, Early, RunNode, Route, Issues;
    HalfwayStep(s0, w, n, s, issued[|before|..]);
    assert (issued + Issues(n, s, w))[|before|..] == issued[|before|..] + Issues(n, s, w);
  }

  lemma Unfailed(n: Node, s: State)
    requires s.failure.None?
    ensures !StuckBeforePlan(s) && !Route(n, s).ExtractNode?
  {
  }

  lemma Going(w: World, step: nat)
    ensures (forall n :: w.pace(n).Go?) || Favourable(w) ==> w.pace(step).Go?
  {
  }

  lemma IssueNext(a: State, b: State, before: seq<string>, issued: seq<string>, more: seq<string>)
    requires before <= issued && Keeps(a, b) && forall t :: t in issued[|before|..] ==> !IsDone(a, t)
    requires forall t :: t in more ==> !IsDone(b, t)
    ensures before <= issued + more && forall t :: t in (issued + more)[|before|..] ==> !IsDone(a, t)
  {
    hide Keeps, IsDone;
    KeepsStay(a, b);
    assert (issued + more)[|before|..] == issued[|before|..] + more;
  }

  lemma KeepsStay(a: State, b: State)
    requires Keeps(a, b)
    ensures forall t :: !IsDone(b, t) ==> !IsDone(a, t)
  {
    KeepsTwice(a, b, b);
  }
}
