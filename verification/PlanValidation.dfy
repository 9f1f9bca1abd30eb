/** Validation of an analysis plan: the memoised depth search over its dependency graph. */
module PlanValidation {
  import opened Wrappers
  import opened AnalysisPlan

  datatype Catalog = Catalog(metrics: map<string, set<string>>, dimensions: map<string, set<string>>)

  datatype PlanError =
    | LimitsInvalid | TaskLimitExceeded | TaskIdDuplicate | DependencyDuplicate | DependencyNotFound
    | DependencySelfReference | DependencyCycle | DepthLimitExceeded | MetricNotUnique | DimensionNotFound

  datatype PlanResult = Accepted(tasks: seq<Task>) | Rejected(error: PlanError)

  // ---------------------------------------------------------------- the depth search

  /** The dictionaries of the search: known depths, and the tasks on the way to the current one. */
  class DepthSearch {
    const byId: Graph
    var depths: map<string, nat>
    var visiting: set<string>

    ghost predicate Valid()
      reads this
    {
      && DependenciesExist(byId)
      && (forall id :: id in depths ==> id in byId && IsDepth(byId, id, depths[id]))
      && visiting <= byId.Keys
    }

    constructor (byId: Graph)
      requires DependenciesExist(byId)
      ensures Valid() && depths == map[] && visiting == {} && this.byId == byId
    {
      this.byId := byId;
      depths, visiting := map[], {};
    }

    // `trail` is the chain of open calls that has led here.
    ghost predicate Trail(trail: seq<string>, id: string)
      reads this
    {
      && (forall x :: x in visiting <==> x in trail)
      && (trail != [] ==> Chain(byId, trail) && id in byId[trail[|trail| - 1]].dependsOn)
    }

    /** The depth of a task, or `None` when a cycle can be reached from it. */
    method Depth(id: string, ghost trail: seq<string>) returns (r: Option<nat>)
      requires Valid() && id in byId && Trail(trail, id)
      modifies this
      ensures Valid()
      ensures r.Some? ==> IsDepth(byId, id, r.value) && visiting == old(visiting)
      ensures r.None? ==> ReachesCycle(byId, id)
      decreases byId.Keys - visiting
    {
      if id in depths {
        return Some(depths[id]);
      }
      if id in visiting {
        BackEdge(byId, trail, id);
        return None;
      }
      hide DepthAtMost, DepthAtLeast, ReachesCycle, Chain;
      ghost var open := visiting;
      visiting := visiting + {id};
      ChainSnoc(byId, trail, id);
      var dependsOn := byId[id].dependsOn;
      var value: int := 0;
      DepthZero(byId, id);
      for i := 0 to |dependsOn|
        invariant Valid() && visiting == open + {id}
        invariant value >= 0 && DepthAtLeast(byId, id, value)
        invariant forall j :: 0 <= j < i ==> DepthAtMost(byId, dependsOn[j], value - 1)
      {
        assert dependsOn[i] in byId;
        var below := Depth(dependsOn[i], trail + [id]);
        if below.None? {
          CycleStep(byId, id, dependsOn[i]);
          return None;
        }
        DepthStep(byId, id, dependsOn[i], below.value);
        value := if below.value + 1 > value then below.value + 1 else value;
      }
      AllBelow(byId, id, dependsOn, value);
      visiting := visiting - {id};
      depths := depths[id := value];
      r := Some(value);
    }
  }

  lemma AllBelow(g: Graph, id: string, dependsOn: seq<string>, n: int)
    requires id in g && n >= 0 && dependsOn == g[id].dependsOn
    requires forall j :: 0 <= j < |dependsOn| ==> DepthAtMost(g, dependsOn[j], n - 1)
    ensures DepthAtMost(g, id, n)
  {
    hide DepthAtMost;
    DepthFromBelow(g, id, n);
  }

  // An open call is called again: the chain from it back to itself repeats.
  lemma BackEdge(g: Graph, trail: seq<string>, id: string)
    requires id in trail && id in g && Chain(g, trail) && id in g[trail[|trail| - 1]].dependsOn
    ensures ReachesCycle(g, id)
  {
    var i :| 0 <= i < |trail| && trail[i] == id;
    ChainSuffix(g, trail, i);
    var p := trail[i..];
    ChainSnoc(g, p, id);
    var q := p + [id];
    assert q[0] == q[|p|];
    assert ChainFrom(g, id, q) && Repeats(q);
  }

  // ---------------------------------------------------------------- the plan

  function GraphOf(tasks: seq<Task>): Graph {
    if tasks == [] then map[] else GraphOf(tasks[..|tasks| - 1])[tasks[|tasks| - 1].id := tasks[|tasks| - 1]]
  }

  lemma {:induction false} GraphIndexes(tasks: seq<Task>)
    requires DistinctIds(tasks)
    ensures Indexes(GraphOf(tasks), tasks)
  {
    if tasks != [] {
      var init := tasks[..|tasks| - 1];
      GraphIndexes(init);
      assert forall i :: 0 <= i < |init| ==> init[i] == tasks[i];
    }
  }

  ghost predicate NoDuplicates(s: seq<string>) {
    forall i, j :: 0 <= i < j < |s| ==> s[i] != s[j]
  }

  ghost predicate DependsOk(g: Graph, t: Task) {
    NoDuplicates(t.dependsOn) && t.id !in t.dependsOn && forall d :: d in t.dependsOn ==> d in g
  }

  ghost predicate DependenciesOk(tasks: seq<Task>) {
    forall i :: 0 <= i < |tasks| ==> DependsOk(GraphOf(tasks), tasks[i])
  }

  ghost predicate DepthsWithin(g: Graph, tasks: seq<Task>, maxDepth: int) {
    forall i :: 0 <= i < |tasks| ==> DepthAtMost(g, tasks[i].id, maxDepth)
  }

  // A finite depth beyond the limit
  ghost predicate TooDeep(g: Graph, id: string, maxDepth: int) {
    exists n: nat :: IsDepth(g, id, n) && n > maxDepth
  }

  // The names that stand for exactly one entry of the catalog
  ghost predicate Unique(matches: map<string, set<string>>, key: string -> string, names: seq<string>) {
    forall i :: 0 <= i < |names| ==> key(names[i]) in matches && |matches[key(names[i])]| == 1
  }

  ghost predicate ResolvesTo(matches: map<string, set<string>>, key: string -> string, names: seq<string>,
                             resolved: seq<string>) {
    && |resolved| == |names|
    && forall i :: 0 <= i < |names| ==> key(names[i]) in matches && matches[key(names[i])] == {resolved[i]}
  }

  ghost predicate Resolvable(c: Catalog, key: string -> string, t: Task) {
    Unique(c.metrics, key, t.metrics) && Unique(c.dimensions, key, t.dimensions)
  }

  /** What a plan has to satisfy. */
  ghost predicate Acceptable(tasks: seq<Task>, c: Catalog, key: string -> string, maxDepth: int, maxTasks: int) {
    && maxDepth >= 0 && maxTasks > 0 && |tasks| <= maxTasks
    && DistinctIds(tasks) && DependenciesOk(tasks) && DepthsWithin(GraphOf(tasks), tasks, maxDepth)
    && forall i :: 0 <= i < |tasks| ==> Resolvable(c, key, tasks[i])
  }

  // The validated task: its names are resolved, and all else is as it was.
  ghost predicate Validated(c: Catalog, key: string -> string, t: Task, v: Task) {
    && v == t.(metrics := v.metrics, dimensions := v.dimensions)
    && ResolvesTo(c.metrics, key, t.metrics, v.metrics) && ResolvesTo(c.dimensions, key, t.dimensions, v.dimensions)
  }

  // The limits make sense, and the plan has no more tasks than allowed.
  predicate Sized(tasks: seq<Task>, maxDepth: int, maxTasks: int) {
    maxDepth >= 0 && maxTasks > 0 && |tasks| <= maxTasks
  }

  // The first dependency of a task that is unknown or the task itself
  ghost predicate FirstWrong(g: Graph, t: Task, j: nat) {
    && j < |t.dependsOn| && (t.dependsOn[j] !in g || t.dependsOn[j] == t.id)
    && forall k :: 0 <= k < j ==> t.dependsOn[k] in g && t.dependsOn[k] != t.id
  }

  ghost predicate DependencyFault(g: Graph, t: Task, e: PlanError) {
    match e
    case DependencyDuplicate => !NoDuplicates(t.dependsOn)
    case DependencyNotFound =>
      NoDuplicates(t.dependsOn) && exists j: nat :: FirstWrong(g, t, j) && t.dependsOn[j] !in g
    case DependencySelfReference =>
      NoDuplicates(t.dependsOn) && exists j: nat :: FirstWrong(g, t, j) && t.dependsOn[j] in g
    case _ => false
  }

  // The task is the first whose dependencies are wrong.
  ghost predicate FirstDependency(g: Graph, tasks: seq<Task>, i: nat, e: PlanError) {
    && i < |tasks| && DependencyFault(g, tasks[i], e)
    && forall k :: 0 <= k < i ==> DependsOk(g, tasks[k])
  }

  // The task is the first from which a cycle is reached or too long a chain begins.
  ghost predicate FirstDepth(g: Graph, tasks: seq<Task>, maxDepth: int, i: nat, e: PlanError) {
    && i < |tasks| && DepthsWithin(g, tasks[..i], maxDepth)
    && match e
       case DependencyCycle => ReachesCycle(g, tasks[i].id)
       case DepthLimitExceeded => TooDeep(g, tasks[i].id, maxDepth)
       case _ => false
  }

  // The task is the first with a name that does not stand for one entry; its metrics come before its dimensions.
  ghost predicate FirstName(c: Catalog, key: string -> string, tasks: seq<Task>, i: nat, e: PlanError) {
    && i < |tasks| && (forall k :: 0 <= k < i ==> Resolvable(c, key, tasks[k]))
    && match e
       case MetricNotUnique => !Unique(c.metrics, key, tasks[i].metrics)
       case DimensionNotFound =>
         Unique(c.metrics, key, tasks[i].metrics) && !Unique(c.dimensions, key, tasks[i].dimensions)
       case _ => false
  }

  /** The reason of a rejection: the first check that fails, at the first task that fails it. */
  ghost predicate Explains(e: PlanError, tasks: seq<Task>, c: Catalog, key: string -> string, maxDepth: int,
                           maxTasks: int) {
    var g := GraphOf(tasks);
    match e
    case LimitsInvalid => maxDepth < 0 || maxTasks <= 0
    case TaskLimitExceeded => maxDepth >= 0 && maxTasks > 0 && |tasks| > maxTasks
    case TaskIdDuplicate => Sized(tasks, maxDepth, maxTasks) && !DistinctIds(tasks)
    case DependencyDuplicate | DependencyNotFound | DependencySelfReference =>
      Sized(tasks, maxDepth, maxTasks) && DistinctIds(tasks) && exists i: nat :: FirstDependency(g, tasks, i, e)
    case DependencyCycle | DepthLimitExceeded =>
      && Sized(tasks, maxDepth, maxTasks) && DistinctIds(tasks) && DependenciesOk(tasks)
      && exists i: nat :: FirstDepth(g, tasks, maxDepth, i, e)
    case MetricNotUnique | DimensionNotFound =>
      && Sized(tasks, maxDepth, maxTasks) && DistinctIds(tasks) && DependenciesOk(tasks)
      && DepthsWithin(g, tasks, maxDepth)
      && exists i: nat :: FirstName(c, key, tasks, i, e)
  }

  lemma DistinctSnoc(init: seq<Task>, t: Task)
    ensures DistinctIds(init + [t]) <==> DistinctIds(init) && forall j :: 0 <= j < |init| ==> init[j].id != t.id
  {
    var all := init + [t];
    assert forall j :: 0 <= j < |init| ==> all[j] == init[j];
    assert all[|init|] == t;
  }

  lemma Indexed(tasks: seq<Task>, id: string)
    requires DistinctIds(tasks)
    ensures id in GraphOf(tasks) <==> exists j :: 0 <= j < |tasks| && tasks[j].id == id
  {
    GraphIndexes(tasks);
    if id in GraphOf(tasks) {
      var j :| 0 <= j < |tasks| && tasks[j] == GraphOf(tasks)[id];
    }
  }

  // One more task in the index
  lemma IndexStep(tasks: seq<Task>, i: nat)
    requires i < |tasks| && DistinctIds(tasks[..i])
    ensures GraphOf(tasks[..i + 1]) == GraphOf(tasks[..i])[tasks[i].id := tasks[i]]
    ensures DistinctIds(tasks[..i + 1]) <==> tasks[i].id !in GraphOf(tasks[..i])
  {
    hide DistinctIds;
    var init := tasks[..i];
    assert tasks[..i + 1] == init + [tasks[i]];
    assert (init + [tasks[i]])[..i] == init;
    DistinctSnoc(init, tasks[i]);
    Indexed(init, tasks[i].id);
  }

  lemma RepeatedId(tasks: seq<Task>, i: nat)
    requires i <= |tasks| && !DistinctIds(tasks[..i])
    ensures !DistinctIds(tasks)
  {
    var j, k :| 0 <= j < k < i && tasks[..i][j].id == tasks[..i][k].id;
    assert tasks[j].id == tasks[k].id;
  }

  method Index(tasks: seq<Task>) returns (r: Option<Graph>)
    ensures r.Some? <==> DistinctIds(tasks)
    ensures r.Some? ==> r.value == GraphOf(tasks) && Indexes(r.value, tasks)
  {
    hide GraphOf, DistinctIds, Indexes;
    var byId: Graph := map[];
    NoTasks();
    for i := 0 to |tasks|
      invariant DistinctIds(tasks[..i]) && byId == GraphOf(tasks[..i])
    {
      IndexStep(tasks, i);
      if tasks[i].id in byId {
        RepeatedId(tasks, i + 1);
        return None;
      }
      byId := byId[tasks[i].id := tasks[i]];
    }
    assert tasks[..|tasks|] == tasks;
    GraphIndexes(tasks);
    r := Some(byId);
  }

  lemma NoTasks()
    ensures forall tasks: seq<Task> :: |tasks| == 0 ==> DistinctIds(tasks) && GraphOf(tasks) == map[]
  {
  }

  /** An accepted plan has no cycle, and no chain longer than the limit. */
  lemma AcceptedAcyclic(tasks: seq<Task>, c: Catalog, key: string -> string, maxDepth: int, maxTasks: int, id: string)
    requires Acceptable(tasks, c, key, maxDepth, maxTasks) && id in GraphOf(tasks)
    ensures DependenciesExist(GraphOf(tasks))
    ensures DepthAtMost(GraphOf(tasks), id, maxDepth) && !ReachesCycle(GraphOf(tasks), id)
  {
    hide Resolvable, DepthAtMost, ReachesCycle;
    var g := GraphOf(tasks);
    GraphIndexes(tasks);
    AllExist(g, tasks);
    var i :| 0 <= i < |tasks| && tasks[i] == g[id];
    if ReachesCycle(g, id) {
      CycleUnbounded(g, id, maxDepth);
    }
  }

  method CheckDistinct(s: seq<string>) returns (ok: bool)
    ensures ok <==> NoDuplicates(s)
  {
    var seen: set<string> := {};
    for i := 0 to |s|
      invariant forall x :: x in seen <==> x in s[..i]
      invariant NoDuplicates(s[..i])
    {
      if s[i] in seen {
        var j :| 0 <= j < i && s[j] == s[i];
        return false;
      }
      seen := seen + {s[i]};
    }
    assert s[..|s|] == s;
    return true;
  }

  method CheckDependencies(byId: Graph, tasks: seq<Task>) returns (e: Option<PlanError>)
    ensures e.None? <==> forall i :: 0 <= i < |tasks| ==> DependsOk(byId, tasks[i])
    ensures e.Some? ==> e.value in {DependencyDuplicate, DependencyNotFound, DependencySelfReference}
    ensures e.Some? ==> exists i: nat :: FirstDependency(byId, tasks, i, e.value)
  {
    hide NoDuplicates;
    for i := 0 to |tasks|
      invariant forall k :: 0 <= k < i ==> DependsOk(byId, tasks[k])
    {
      var t := tasks[i];
      var distinct := CheckDistinct(t.dependsOn);
      if !distinct {
        assert !DependsOk(byId, t);
        assert FirstDependency(byId, tasks, i, DependencyDuplicate);
        return Some(DependencyDuplicate);
      }
      for j := 0 to |t.dependsOn|
        invariant forall k :: 0 <= k < j ==> t.dependsOn[k] in byId && t.dependsOn[k] != t.id
      {
        if t.dependsOn[j] !in byId {
          assert !DependsOk(byId, t) && FirstWrong(byId, t, j);
          assert FirstDependency(byId, tasks, i, DependencyNotFound);
          return Some(DependencyNotFound);
        }
        if t.dependsOn[j] == t.id {
          assert !DependsOk(byId, t) && FirstWrong(byId, t, j);
          assert FirstDependency(byId, tasks, i, DependencySelfReference);
          return Some(DependencySelfReference);
        }
      }
    }
    return None;
  }

  method CheckDepths(byId: Graph, tasks: seq<Task>, maxDepth: int) returns (e: Option<PlanError>)
    requires DependenciesExist(byId) && forall i :: 0 <= i < |tasks| ==> tasks[i].id in byId
    ensures e.None? <==> DepthsWithin(byId, tasks, maxDepth)
    ensures e.Some? ==> e.value in {DependencyCycle, DepthLimitExceeded}
    ensures e.Some? ==> exists i: nat :: FirstDepth(byId, tasks, maxDepth, i, e.value)
  {
    hide ReachesCycle, DepthAtMost, DepthAtLeast;
    var search := new DepthSearch(byId);
    for i := 0 to |tasks|
      invariant fresh(search) && search.Valid() && search.byId == byId && search.visiting == {}
      invariant DepthsWithin(byId, tasks[..i], maxDepth)
    {
      var depth := search.Depth(tasks[i].id, []);
      if depth.None? {
        CycleUnbounded(byId, tasks[i].id, maxDepth);
        assert FirstDepth(byId, tasks, maxDepth, i, DependencyCycle);
        return Some(DependencyCycle);
      }
      DepthCompared(byId, tasks[i].id, depth.value, maxDepth);
      if depth.value > maxDepth {
        assert FirstDepth(byId, tasks, maxDepth, i, DepthLimitExceeded);
        return Some(DepthLimitExceeded);
      }
    }
    assert tasks[..|tasks|] == tasks;
    return None;
  }

  lemma DepthCompared(g: Graph, id: string, n: nat, maxDepth: int)
    requires IsDepth(g, id, n)
    ensures DepthAtMost(g, id, maxDepth) <==> n <= maxDepth
  {
    var p :| ChainFrom(g, id, p) && |p| == n + 1;
  }

  method Resolve(matches: map<string, set<string>>, key: string -> string, names: seq<string>)
    returns (r: Option<seq<string>>)
    ensures r.Some? <==> Unique(matches, key, names)
    ensures r.Some? ==> ResolvesTo(matches, key, names, r.value)
  {
    var resolved: seq<string> := [];
    for i := 0 to |names|
      invariant Unique(matches, key, names[..i]) && ResolvesTo(matches, key, names[..i], resolved)
    {
      var found := if key(names[i]) in matches then matches[key(names[i])] else {};
      if |found| != 1 {
        return None;
      }
      var only :| only in found;
      Singleton(found, only);
      resolved := resolved + [only];
    }
    assert names[..|names|] == names;
    r := Some(resolved);
  }

  lemma Singleton(s: set<string>, x: string)
    requires |s| == 1 && x in s
    ensures s == {x}
  {
    assert |s - {x}| == 0;
    assert s - {x} == {};
  }

  method ResolveAll(tasks: seq<Task>, c: Catalog, key: string -> string)
    returns (e: Option<PlanError>, resolved: seq<Task>)
    ensures e.None? <==> forall i :: 0 <= i < |tasks| ==> Resolvable(c, key, tasks[i])
    ensures e.None? ==> |resolved| == |tasks| && forall i :: 0 <= i < |tasks| ==>
              Validated(c, key, tasks[i], resolved[i])
    ensures e.Some? ==> e.value in {MetricNotUnique, DimensionNotFound}
    ensures e.Some? ==> exists i: nat :: FirstName(c, key, tasks, i, e.value)
  {
    hide Unique, ResolvesTo;
    e, resolved := None, [];
    for i := 0 to |tasks|
      invariant |resolved| == i
      invariant forall k :: 0 <= k < i ==> Resolvable(c, key, tasks[k]) && Validated(c, key, tasks[k], resolved[k])
    {
      var metrics := Resolve(c.metrics, key, tasks[i].metrics);
      if metrics.None? {
        assert !Resolvable(c, key, tasks[i]) && FirstName(c, key, tasks, i, MetricNotUnique);
        return Some(MetricNotUnique), resolved;
      }
      var dimensions := Resolve(c.dimensions, key, tasks[i].dimensions);
      if dimensions.None? {
        assert !Resolvable(c, key, tasks[i]) && FirstName(c, key, tasks, i, DimensionNotFound);
        return Some(DimensionNotFound), resolved;
      }
      resolved := resolved + [tasks[i].(metrics := metrics.value, dimensions := dimensions.value)];
    }
  }

  /**
   * Validation is exact: it accepts a plan exactly when the plan is acceptable, resolves the names
   * of its tasks and changes nothing else, and a rejection names its reason.
   */
  method ValidateAnalysisPlan(tasks: seq<Task>, c: Catalog, key: string -> string, maxDepth: int, maxTasks: int)
    returns (r: PlanResult)
    ensures r.Accepted? <==> Acceptable(tasks, c, key, maxDepth, maxTasks)
    ensures r.Accepted? ==>
              |r.tasks| == |tasks| && forall i :: 0 <= i < |tasks| ==> Validated(c, key, tasks[i], r.tasks[i])
    ensures r.Rejected? ==> Explains(r.error, tasks, c, key, maxDepth, maxTasks)
  {
    hide GraphOf, DependsOk, Resolvable, DepthAtMost, ReachesCycle, TooDeep, Unique, Validated, NoDuplicates;
    if maxDepth < 0 || maxTasks <= 0 {
      return Rejected(LimitsInvalid);
    }
    if |tasks| > maxTasks {
      return Rejected(TaskLimitExceeded);
    }
    var byId := Index(tasks);
    if byId.None? {
      return Rejected(TaskIdDuplicate);
    }
    var dependencies := CheckDependencies(byId.value, tasks);
    if dependencies.Some? {
      return Rejected(dependencies.value);
    }
    AllExist(byId.value, tasks);
    var depths := CheckDepths(byId.value, tasks, maxDepth);
    if depths.Some? {
      return Rejected(depths.value);
    }
    var names, resolved := ResolveAll(tasks, c, key);
    if names.Some? {
      return Rejected(names.value);
    }
    r := Accepted(resolved);
  }

  /** There is at most one reason, so that the order of the checks is fixed. */
  lemma OneReason(e: PlanError, x: PlanError, tasks: seq<Task>, c: Catalog, key: string -> string, maxDepth: int,
                  maxTasks: int)
    requires Explains(e, tasks, c, key, maxDepth, maxTasks) && Explains(x, tasks, c, key, maxDepth, maxTasks)
    ensures e == x && !Acceptable(tasks, c, key, maxDepth, maxTasks)
  {
    hide GraphOf, DepthsWithin, DistinctIds, FirstDependency, FirstDepth, FirstName, DependsOk, Resolvable;
    var g := GraphOf(tasks);
    OneDependency(g, tasks, e, x);
    OneDependency(g, tasks, x, e);
    if DistinctIds(tasks) && DependenciesOk(tasks) {
      GraphIndexes(tasks);
      AllExist(g, tasks);
      OneDepth(g, tasks, maxDepth, e, x);
      OneDepth(g, tasks, maxDepth, x, e);
    }
    OneName(c, key, tasks, e, x);
  }

  lemma OneName(c: Catalog, key: string -> string, tasks: seq<Task>, e: PlanError, x: PlanError)
    ensures forall i: nat, j: nat :: FirstName(c, key, tasks, i, e) && FirstName(c, key, tasks, j, x) ==> e == x
    ensures forall i: nat :: FirstName(c, key, tasks, i, e) ==> i < |tasks| && !Resolvable(c, key, tasks[i])
  {
    hide Unique;
  }

  lemma OneDependency(g: Graph, tasks: seq<Task>, e: PlanError, x: PlanError)
    ensures forall i: nat, j: nat :: FirstDependency(g, tasks, i, e) && FirstDependency(g, tasks, j, x) ==> e == x
    ensures forall i: nat :: FirstDependency(g, tasks, i, e) ==> i < |tasks| && !DependsOk(g, tasks[i])
  {
    hide NoDuplicates;
  }

  lemma OneDepth(g: Graph, tasks: seq<Task>, maxDepth: int, e: PlanError, x: PlanError)
    requires DependenciesExist(g) && forall i :: 0 <= i < |tasks| ==> tasks[i].id in g
    ensures forall i: nat, j: nat ::
              FirstDepth(g, tasks, maxDepth, i, e) && FirstDepth(g, tasks, maxDepth, j, x) ==> e == x
    ensures forall i: nat :: FirstDepth(g, tasks, maxDepth, i, e) ==> !DepthsWithin(g, tasks, maxDepth)
  {
    hide DepthAtMost, ReachesCycle, TooDeep;
    forall id, n | id in g && ReachesCycle(g, id)
      ensures !DepthAtMost(g, id, n)
    {
      if DepthAtMost(g, id, n) {
        CycleUnbounded(g, id, n);
      }
    }
    forall id | TooDeep(g, id, maxDepth)
      ensures !DepthAtMost(g, id, maxDepth) && exists n :: DepthAtMost(g, id, n)
    {
      DeepIs(g, id, maxDepth);
    }
  }

  lemma DeepIs(g: Graph, id: string, maxDepth: int)
    requires TooDeep(g, id, maxDepth)
    ensures !DepthAtMost(g, id, maxDepth) && exists n :: DepthAtMost(g, id, n)
  {
    var n: nat :| IsDepth(g, id, n) && n > maxDepth;
    var p :| ChainFrom(g, id, p) && |p| == n + 1;
    assert DepthAtMost(g, id, n);
  }

  lemma AllExist(g: Graph, tasks: seq<Task>)
    requires Indexes(g, tasks) && forall i :: 0 <= i < |tasks| ==> DependsOk(g, tasks[i])
    ensures DependenciesExist(g)
  {
  }
}
