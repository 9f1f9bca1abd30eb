/** Analysis tasks, and the chains of their dependency graph. */
module AnalysisPlan {
  import opened Wrappers

  // `rest` is what validation passes through: type, description, time range, filters and output.
  datatype Task = Task(id: string, dependsOn: seq<string>, metrics: seq<string>, dimensions: seq<string>, rest: string)

  type Graph = map<string, Task>

  predicate DistinctIds(tasks: seq<Task>) {
    forall i, j :: 0 <= i < j < |tasks| ==> tasks[i].id != tasks[j].id
  }

  // The tasks by their identifiers
  ghost predicate Indexes(g: Graph, tasks: seq<Task>) {
    && (forall i :: 0 <= i < |tasks| ==> tasks[i].id in g && g[tasks[i].id] == tasks[i])
    && (forall id :: id in g ==> g[id] in tasks && g[id].id == id)
  }

  predicate DependenciesExist(g: Graph) {
    forall id, d :: id in g && d in g[id].dependsOn ==> d in g
  }

  // A chain follows dependencies from task to task.
  ghost predicate Chain(g: Graph, p: seq<string>) {
    && p != []
    && (forall i :: 0 <= i < |p| ==> p[i] in g)
    && (forall i {:trigger p[i]} :: 0 <= i < |p| - 1 ==> p[i + 1] in g[p[i]].dependsOn)
  }

  ghost predicate ChainFrom(g: Graph, id: string, p: seq<string>) {
    Chain(g, p) && p[0] == id
  }

  // No chain from the task is longer than its depth allows.
  ghost predicate DepthAtMost(g: Graph, id: string, n: int) {
    forall p {:trigger ChainFrom(g, id, p)} :: ChainFrom(g, id, p) ==> |p| <= n + 1
  }

  ghost predicate DepthAtLeast(g: Graph, id: string, n: nat) {
    exists p :: ChainFrom(g, id, p) && |p| == n + 1
  }

  /** The depth of a task is the length of its longest chain of dependencies. */
  ghost predicate IsDepth(g: Graph, id: string, n: nat) {
    DepthAtMost(g, id, n) && DepthAtLeast(g, id, n)
  }

  ghost predicate Repeats(p: seq<string>) {
    exists i, j :: 0 <= i < j < |p| && p[i] == p[j]
  }

  ghost predicate ReachesCycle(g: Graph, id: string) {
    exists p :: ChainFrom(g, id, p) && Repeats(p)
  }

  // ---------------------------------------------------------------- chains

  lemma ChainStep(g: Graph, id: string, p: seq<string>)
    requires id in g && Chain(g, p) && p[0] in g[id].dependsOn
    ensures ChainFrom(g, id, [id] + p)
  {
    var q := [id] + p;
    assert forall i :: 0 < i < |q| ==> q[i] == p[i - 1];
    forall i | 0 <= i < |q| - 1
      ensures q[i + 1] in g[q[i]].dependsOn
    {
      if i > 0 {
        assert p[i - 1] in g && p[i] in g[p[i - 1]].dependsOn;
      }
    }
  }

  lemma ChainTail(g: Graph, id: string, p: seq<string>)
    requires ChainFrom(g, id, p) && |p| > 1
    ensures p[1] in g[id].dependsOn && p[1] in g && ChainFrom(g, p[1], p[1..])
  {
    var q := p[1..];
    assert p[0] == id;
    assert forall i :: 0 <= i < |q| ==> q[i] == p[i + 1];
    forall i | 0 <= i < |q| - 1
      ensures q[i + 1] in g[q[i]].dependsOn
    {
      assert p[i + 1] in g;
    }
  }

  lemma ChainSuffix(g: Graph, p: seq<string>, n: nat)
    requires Chain(g, p) && n < |p|
    ensures ChainFrom(g, p[n], p[n..])
  {
    var q := p[n..];
    assert forall i :: 0 <= i < |q| ==> q[i] == p[n + i];
    forall i | 0 <= i < |q| - 1
      ensures q[i + 1] in g[q[i]].dependsOn
    {
      assert p[n + i] in g;
    }
  }

  lemma ChainSnoc(g: Graph, p: seq<string>, id: string)
    requires (p != [] ==> Chain(g, p) && id in g[p[|p| - 1]].dependsOn) && id in g
    ensures Chain(g, p + [id])
  {
    var q := p + [id];
    assert forall i :: 0 <= i < |p| ==> q[i] == p[i];
    forall i | 0 <= i < |q| - 1
      ensures q[i + 1] in g[q[i]].dependsOn
    {
      assert p[i] in g;
    }
  }

  lemma ChainPrefix(g: Graph, p: seq<string>, n: nat)
    requires Chain(g, p) && 0 < n <= |p|
    ensures Chain(g, p[..n])
  {
    var q := p[..n];
    forall i | 0 <= i < |q| - 1
      ensures q[i + 1] in g[q[i]].dependsOn
    {
      assert p[i] in g;
    }
  }

  lemma ChainJoin(g: Graph, a: seq<string>, b: seq<string>)
    requires Chain(g, a) && Chain(g, b) && b[0] in g[a[|a| - 1]].dependsOn
    ensures Chain(g, a + b)
  {
    var q := a + b;
    assert forall i :: 0 <= i < |a| ==> q[i] == a[i];
    assert forall i :: |a| <= i < |q| ==> q[i] == b[i - |a|];
    forall i | 0 <= i < |q| - 1
      ensures q[i + 1] in g[q[i]].dependsOn
    {
      if i < |a| {
        assert a[i] in g;
      } else {
        assert b[i - |a|] in g;
      }
    }
  }

  // A chain that repeats can go round once more.
  lemma GoRound(g: Graph, p: seq<string>, i: nat, j: nat) returns (q: seq<string>)
    requires Chain(g, p) && i < j < |p| && p[i] == p[j]
    ensures ChainFrom(g, p[0], q) && |q| == |p| + (j - i)
    ensures q[j] == q[j + (j - i)]
  {
    var a, b := p[..j], p[i..];
    q := a + b;
    ChainPrefix(g, p, j);
    ChainSuffix(g, p, i);
    assert p[j - 1] in g && p[j - 1 + 1] in g[p[j - 1]].dependsOn;
    hide Chain;
    ChainJoin(g, a, b);
    assert q[j] == b[0] && q[j + (j - i)] == b[j - i];
  }

  lemma {:induction false} GoRoundUntil(g: Graph, p: seq<string>, i: nat, j: nat, n: nat) returns (q: seq<string>)
    requires Chain(g, p) && i < j < |p| && p[i] == p[j]
    ensures ChainFrom(g, p[0], q) && |q| > n
    decreases n + 1 - |p|
  {
    if |p| > n {
      q := p;
    } else {
      var r := GoRound(g, p, i, j);
      q := GoRoundUntil(g, r, j, j + (j - i), n);
    }
  }

  /** A task that reaches a cycle has no depth. */
  lemma CycleUnbounded(g: Graph, id: string, n: int)
    requires ReachesCycle(g, id)
    ensures !DepthAtMost(g, id, n)
  {
    var p :| ChainFrom(g, id, p) && Repeats(p);
    var i, j :| 0 <= i < j < |p| && p[i] == p[j];
    var q := GoRoundUntil(g, p, i, j, if n < 0 then 0 else n + 1);
    assert ChainFrom(g, id, q);
  }

  // The depth of a task from the depths of its dependencies
  lemma DepthFromBelow(g: Graph, id: string, n: int)
    requires id in g && n >= 0 && forall d :: d in g[id].dependsOn && d in g ==> DepthAtMost(g, d, n - 1)
    ensures DepthAtMost(g, id, n)
  {
    forall p | ChainFrom(g, id, p)
      ensures |p| <= n + 1
    {
      if |p| > 1 {
        ChainTail(g, id, p);
        assert DepthAtMost(g, p[1], n - 1);
        assert ChainFrom(g, p[1], p[1..]);
      }
    }
  }

  lemma DepthStep(g: Graph, id: string, d: string, n: nat)
    requires id in g && d in g[id].dependsOn && DepthAtLeast(g, d, n)
    ensures DepthAtLeast(g, id, n + 1)
  {
    var p :| ChainFrom(g, d, p) && |p| == n + 1;
    ChainStep(g, id, p);
    assert ChainFrom(g, id, [id] + p);
  }

  lemma DepthZero(g: Graph, id: string)
    requires id in g
    ensures DepthAtLeast(g, id, 0)
  {
    assert ChainFrom(g, id, [id]);
  }

  lemma CycleStep(g: Graph, id: string, d: string)
    requires id in g && d in g[id].dependsOn && ReachesCycle(g, d)
    ensures ReachesCycle(g, id)
  {
    var p :| ChainFrom(g, d, p) && Repeats(p);
    ChainStep(g, id, p);
    var i, j :| 0 <= i < j < |p| && p[i] == p[j];
    var q := [id] + p;
    assert q[i + 1] == q[j + 1];
    assert ChainFrom(g, id, q) && Repeats(q);
  }
}
