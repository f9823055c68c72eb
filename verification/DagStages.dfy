/** Turning agent dependencies into ordered stages (buildStages in pkg/agent/agent.go): a
    depth-first pass that creates one task per agent, grouped by the depth of the first visit. */
module DagStages {
  import opened Graph

  datatype Task = Task(agent: Id, stage: nat)

  // ---------------------------------------------------------------- the recursive pass

  // The tasks created, in order, and the visited set afterwards.
  function Build(g: Links, a: Id, depth: nat, seen: set<Id>): (r: (seq<Task>, set<Id>))
    requires Closed(g) && a in g && seen <= g.Keys
    ensures seen + {a} <= r.1 <= g.Keys
    decreases g.Keys - seen, 0, 0
  {
    if a in seen then ([], seen)
    else
      var (tasks, seen') := BuildAll(g, g[a], depth + 1, seen + {a});
      (tasks + [Task(a, depth)], seen')
  }

  function BuildAll(g: Links, deps: seq<Id>, depth: nat, seen: set<Id>): (r: (seq<Task>, set<Id>))
    requires Closed(g) && seen <= g.Keys && forall i :: 0 <= i < |deps| ==> deps[i] in g
    ensures seen <= r.1 <= g.Keys
    decreases g.Keys - seen, 1, |deps|
  {
    if deps == [] then ([], seen)
    else
      var (first, seen') := Build(g, deps[0], depth, seen);
      var (rest, seen'') := BuildAll(g, deps[1..], depth, seen');
      (first + rest, seen'')
  }

  function Plan(g: Links, root: Id): seq<Task>
    requires Closed(g) && root in g
  {
    Build(g, root, 0, {}).0
  }

  // ---------------------------------------------------------------- one task per visited agent

  ghost predicate Has(tasks: seq<Task>, x: Id) { exists i :: 0 <= i < |tasks| && tasks[i].agent == x }

  ghost predicate OneEach(tasks: seq<Task>)
  {
    forall i, j :: 0 <= i < j < |tasks| ==> tasks[i].agent != tasks[j].agent
  }

  // The tasks are exactly one for each newly visited agent.
  ghost predicate Covers(tasks: seq<Task>, before: set<Id>, after: set<Id>)
  {
    OneEach(tasks) && forall x :: Has(tasks, x) <==> x in after && x !in before
  }

  lemma CoversAppend(a: seq<Task>, b: seq<Task>, s: set<Id>, t: set<Id>, u: set<Id>)
    requires Covers(a, s, t) && Covers(b, t, u) && s <= t <= u
    ensures Covers(a + b, s, u)
  {
    var c := a + b;
    forall x ensures Has(c, x) <==> Has(a, x) || Has(b, x) { HasAppend(a, b, x); }
    forall i, j | 0 <= i < j < |c| ensures c[i].agent != c[j].agent {
      if i < |a| <= j {
        assert Has(a, a[i].agent) && Has(b, b[j - |a|].agent);
      }
    }
  }

  lemma HasAppend(a: seq<Task>, b: seq<Task>, x: Id)
    ensures Has(a + b, x) <==> Has(a, x) || Has(b, x)
  {
    if Has(b, x) {
      var i :| 0 <= i < |b| && b[i].agent == x;
      assert (a + b)[|a| + i].agent == x;
    }
    if Has(a, x) {
      var i :| 0 <= i < |a| && a[i].agent == x;
      assert (a + b)[i].agent == x;
    }
  }

  lemma {:induction false} BuildCovers(g: Links, a: Id, depth: nat, seen: set<Id>)
    requires Closed(g) && a in g && seen <= g.Keys
    ensures Covers(Build(g, a, depth, seen).0, seen, Build(g, a, depth, seen).1)
    decreases g.Keys - seen, 0, 0
  {
    if a !in seen {
      BuildAllCovers(g, g[a], depth + 1, seen + {a});
      var (tasks, after) := BuildAll(g, g[a], depth + 1, seen + {a});
      var last := [Task(a, depth)];
      forall x ensures Has(tasks + last, x) <==> x in after && x !in seen {
        HasAppend(tasks, last, x);
        assert last[0].agent == a;
      }
      forall i | 0 <= i < |tasks| ensures tasks[i].agent != a { assert Has(tasks, tasks[i].agent); }
    }
  }

  lemma {:induction false} BuildAllCovers(g: Links, deps: seq<Id>, depth: nat, seen: set<Id>)
    requires Closed(g) && seen <= g.Keys && forall i :: 0 <= i < |deps| ==> deps[i] in g
    ensures Covers(BuildAll(g, deps, depth, seen).0, seen, BuildAll(g, deps, depth, seen).1)
    decreases g.Keys - seen, 1, |deps|
  {
    if deps != [] {
      BuildCovers(g, deps[0], depth, seen);
      var (first, mid) := Build(g, deps[0], depth, seen);
      BuildAllCovers(g, deps[1..], depth, mid);
      var (rest, after) := BuildAll(g, deps[1..], depth, mid);
      CoversAppend(first, rest, seen, mid, after);
    }
  }

  // ---------------------------------------------------------------- exactly the reachable agents

  ghost predicate Explored(g: Links, before: set<Id>, after: set<Id>)
  {
    forall x, i :: x in after && x !in before && x in g && 0 <= i < |g[x]| ==> g[x][i] in after
  }

  lemma {:induction false} BuildExplores(g: Links, a: Id, depth: nat, seen: set<Id>)
    requires Closed(g) && a in g && seen <= g.Keys
    ensures Explored(g, seen, Build(g, a, depth, seen).1)
    decreases g.Keys - seen, 0, 0
  {
    if a !in seen {
      BuildAllExplores(g, g[a], depth + 1, seen + {a});
    }
  }

  lemma {:induction false} BuildAllExplores(g: Links, deps: seq<Id>, depth: nat, seen: set<Id>)
    requires Closed(g) && seen <= g.Keys && forall i :: 0 <= i < |deps| ==> deps[i] in g
    ensures var after := BuildAll(g, deps, depth, seen).1;
            Explored(g, seen, after) && forall i :: 0 <= i < |deps| ==> deps[i] in after
    decreases g.Keys - seen, 1, |deps|
  {
    if deps != [] {
      BuildExplores(g, deps[0], depth, seen);
      BuildAllExplores(g, deps[1..], depth, Build(g, deps[0], depth, seen).1);
    }
  }

  lemma {:induction false} BuildReaches(g: Links, a: Id, depth: nat, seen: set<Id>, i: nat)
    requires Closed(g) && a in g && seen <= g.Keys && i < |Build(g, a, depth, seen).0|
    ensures Reaches(g, a, Build(g, a, depth, seen).0[i].agent)
    decreases g.Keys - seen, 0, 0
  {
    ReachesSelf(g, a);
    if i < |Build(g, a, depth, seen).0| - 1 {
      BuildAllReaches(g, a, g[a], depth + 1, seen + {a}, i);
    }
  }

  lemma {:induction false} BuildAllReaches(g: Links, a: Id, deps: seq<Id>, depth: nat, seen: set<Id>, i: nat)
    requires Closed(g) && a in g && seen <= g.Keys && forall k :: 0 <= k < |deps| ==> deps[k] in g[a]
    requires i < |BuildAll(g, deps, depth, seen).0|
    ensures ReachesByLink(g, a, BuildAll(g, deps, depth, seen).0[i].agent)
    ensures Reaches(g, a, BuildAll(g, deps, depth, seen).0[i].agent)
    decreases g.Keys - seen, 1, |deps|
  {
    var (first, mid) := Build(g, deps[0], depth, seen);
    if i < |first| {
      BuildReaches(g, deps[0], depth, seen, i);
      ReachesVia(g, a, deps[0], first[i].agent);
    } else {
      BuildAllReaches(g, a, deps[1..], depth, mid, i - |first|);
    }
  }

  // For any finite graph, cyclic or not: one task for each agent reachable from the root, and
  // none for any other.
  lemma PlanCoversReachable(g: Links, root: Id)
    requires Closed(g) && root in g
    ensures OneEach(Plan(g, root)) && forall x :: Has(Plan(g, root), x) <==> Reaches(g, root, x)
  {
    BuildCovers(g, root, 0, {});
    BuildExplores(g, root, 0, {});
    var (tasks, after) := Build(g, root, 0, {});
    forall x ensures Has(tasks, x) <==> Reaches(g, root, x) {
      if Has(tasks, x) {
        var i :| 0 <= i < |tasks| && tasks[i].agent == x;
        BuildReaches(g, root, 0, {}, i);
      }
      if Reaches(g, root, x) {
        var p :| PathTo(g, root, x, p);
        ReachStays(g, after, root, x, p);
      }
    }
  }

  // ---------------------------------------------------------------- stage numbers

  // Every stage from `depth` to the deepest used is used.
  ghost predicate NoGap(tasks: seq<Task>, depth: nat)
  {
    && (forall i :: 0 <= i < |tasks| ==> tasks[i].stage >= depth)
    && (forall i, e :: 0 <= i < |tasks| && depth <= e <= tasks[i].stage ==> Uses(tasks, e))
  }

  ghost predicate Uses(tasks: seq<Task>, e: nat) { exists j :: 0 <= j < |tasks| && tasks[j].stage == e }

  lemma UsesAppend(a: seq<Task>, b: seq<Task>, e: nat)
    requires Uses(a, e) || Uses(b, e)
    ensures Uses(a + b, e)
  {
    if Uses(a, e) {
      var i :| 0 <= i < |a| && a[i].stage == e;
      assert (a + b)[i].stage == e;
    } else {
      var i :| 0 <= i < |b| && b[i].stage == e;
      assert (a + b)[|a| + i].stage == e;
    }
  }

  lemma NoGapAppend(a: seq<Task>, b: seq<Task>, depth: nat)
    requires NoGap(a, depth) && NoGap(b, depth)
    ensures NoGap(a + b, depth)
  {
    forall i, e: nat | 0 <= i < |a + b| && depth <= e <= (a + b)[i].stage ensures Uses(a + b, e) {
      if i < |a| { assert (a + b)[i] == a[i]; } else { assert (a + b)[i] == b[i - |a|]; }
      UsesAppend(a, b, e);
    }
  }

  lemma {:induction false} BuildNoGap(g: Links, a: Id, depth: nat, seen: set<Id>)
    requires Closed(g) && a in g && seen <= g.Keys
    ensures var tasks := Build(g, a, depth, seen).0;
            NoGap(tasks, depth) && forall i :: 0 <= i < |tasks| - 1 ==> tasks[i].stage > depth
    decreases g.Keys - seen, 0, 0
  {
    if a !in seen {
      BuildAllNoGap(g, g[a], depth + 1, seen + {a});
      var tasks := BuildAll(g, g[a], depth + 1, seen + {a}).0;
      var last := [Task(a, depth)];
      assert last[0].stage == depth;
      forall i, e: nat | 0 <= i < |tasks + last| && depth <= e <= (tasks + last)[i].stage ensures Uses(tasks + last, e) {
        assert e > depth ==> i < |tasks| && (tasks + last)[i] == tasks[i];
        UsesAppend(tasks, last, e);
      }
    }
  }

  lemma {:induction false} BuildAllNoGap(g: Links, deps: seq<Id>, depth: nat, seen: set<Id>)
    requires Closed(g) && seen <= g.Keys && forall i :: 0 <= i < |deps| ==> deps[i] in g
    ensures NoGap(BuildAll(g, deps, depth, seen).0, depth)
    decreases g.Keys - seen, 1, |deps|
  {
    if deps != [] {
      BuildNoGap(g, deps[0], depth, seen);
      var (first, mid) := Build(g, deps[0], depth, seen);
      BuildAllNoGap(g, deps[1..], depth, mid);
      NoGapAppend(first, BuildAll(g, deps[1..], depth, mid).0, depth);
    }
  }

  // Stage 0 holds the root's task and no other, and stages are numbered without a gap.
  lemma PlanStages(g: Links, root: Id)
    requires Closed(g) && root in g
    ensures var tasks := Plan(g, root);
            && tasks != [] && tasks[|tasks| - 1] == Task(root, 0) && NoGap(tasks, 0)
            && forall i :: 0 <= i < |tasks| ==> (tasks[i].stage == 0 <==> i == |tasks| - 1)
  {
    BuildNoGap(g, root, 0, {});
  }

  // ---------------------------------------------------------------- the stages of a plan

  datatype Stage = Stage(id: nat, tasks: seq<Task>, isShuffleMap: bool)

  // The tasks of one stage, in creation order.
  function TasksAt(tasks: seq<Task>, d: nat): seq<Task>
  {
    if tasks == [] then []
    else
      var last := tasks[|tasks| - 1];
      TasksAt(tasks[..|tasks| - 1], d) + (if last.stage == d then [last] else [])
  }

  // A stage takes its own tasks and keeps their order.
  lemma {:induction false} TasksAtSplit(a: seq<Task>, b: seq<Task>, d: nat)
    ensures TasksAt(a + b, d) == TasksAt(a, d) + TasksAt(b, d)
    decreases b
  {
    if b == [] {
      assert a + b == a;
    } else {
      var n := |b| - 1;
      assert (a + b)[..|a + b| - 1] == a + b[..n] && (a + b)[|a + b| - 1] == b[n];
      TasksAtSplit(a, b[..n], d);
    }
  }

  lemma TasksAtOne(t: Task, d: nat)
    ensures TasksAt([t], d) == if t.stage == d then [t] else []
  {
    assert [t][..0] == [];
  }

  ghost predicate Grouped(m: map<nat, seq<Task>>, tasks: seq<Task>)
  {
    forall d: nat :: (d in m <==> Uses(tasks, d)) && (d in m ==> m[d] == TasksAt(tasks, d))
  }

  lemma {:induction false} UnusedEmpty(tasks: seq<Task>, d: nat)
    requires !Uses(tasks, d)
    ensures TasksAt(tasks, d) == []
  {
    if tasks != [] {
      var front := tasks[..|tasks| - 1];
      assert forall j :: 0 <= j < |front| ==> front[j] == tasks[j];
      UnusedEmpty(front, d);
    }
  }

  lemma GroupedSnoc(m: map<nat, seq<Task>>, tasks: seq<Task>, t: Task)
    requires Grouped(m, tasks)
    ensures Grouped(m[t.stage := (if t.stage in m then m[t.stage] else []) + [t]], tasks + [t])
  {
    var all := tasks + [t];
    assert all[..|all| - 1] == tasks && all[|tasks|] == t;
    if t.stage !in m { UnusedEmpty(tasks, t.stage); }
    forall d: nat ensures Uses(all, d) <==> Uses(tasks, d) || d == t.stage {
      if Uses(tasks, d) { UsesAppend(tasks, [t], d); }
      if Uses(all, d) && d != t.stage {
        var j :| 0 <= j < |all| && all[j].stage == d;
        assert tasks[j].stage == d;
      }
    }
  }

  // The highest stage number in use.
  ghost predicate IsDeepest(tasks: seq<Task>, max: nat)
  {
    (tasks != [] ==> Uses(tasks, max)) && forall i :: 0 <= i < |tasks| ==> tasks[i].stage <= max
  }

  // Stage max first, stage 0 last, each with its tasks.
  ghost predicate StagesOf(stages: seq<Stage>, tasks: seq<Task>, max: nat)
  {
    |stages| == max + 1 &&
    forall k :: 0 <= k <= max ==> stages[k] == Stage(max - k, TasksAt(tasks, max - k), max - k > 0)
  }

  class AgentDAG {
    const g: Links                        // dependencies by agent
    var visited: set<Id>
    var stageMap: map<nat, seq<Task>>
    var stages: seq<Stage>
    ghost var created: seq<Task>

    constructor (g: Links)
      ensures this.g == g && visited == {} && stageMap == map[] && stages == [] && created == []
    {
      this.g := g;
      visited, stageMap, stages, created := {}, map[], [], [];
    }

    method BuildRecursive(a: Id, depth: nat)
      requires Closed(g) && a in g && visited <= g.Keys && Grouped(stageMap, created)
      modifies this`visited, this`stageMap, this`created
      ensures created == old(created) + Build(g, a, depth, old(visited)).0
      ensures visited == Build(g, a, depth, old(visited)).1
      ensures Grouped(stageMap, created)
      decreases g.Keys - visited
    {
      if a in visited {
        assert created + [] == created;
        return;
      }
      visited := visited + {a};
      ghost var start := visited;
      ghost var (tasks, end) := BuildAll(g, g[a], depth + 1, start);
      for i := 0 to |g[a]|
        invariant start <= visited <= g.Keys && Grouped(stageMap, created)
        invariant var (rest, after) := BuildAll(g, g[a][i..], depth + 1, visited);
                  created + rest == old(created) + tasks && after == end
      {
        assert g[a][i..][1..] == g[a][i + 1..];
        BuildRecursive(g[a][i], depth + 1);
      }
      assert created == old(created) + tasks;
      var task := Task(a, depth);
      GroupedSnoc(stageMap, created, task);
      stageMap := stageMap[depth := (if depth in stageMap then stageMap[depth] else []) + [task]];
      created := created + [task];
      assert created == old(created) + (tasks + [task]);
    }

    // The largest key; map iteration order does not matter.
    method MaxDepth() returns (maxDepth: nat)
      ensures forall d :: d in stageMap ==> d <= maxDepth
      ensures maxDepth == 0 || maxDepth in stageMap
    {
      maxDepth := 0;
      var keys := stageMap.Keys;
      while keys != {}
        invariant keys <= stageMap.Keys
        invariant forall d :: d in stageMap && d !in keys ==> d <= maxDepth
        invariant maxDepth == 0 || maxDepth in stageMap
        decreases keys
      {
        var depth :| depth in keys;
        if depth > maxDepth {
          maxDepth := depth;
        }
        keys := keys - {depth};
      }
    }

    // The deepest stage first.
    method EmitStages(maxDepth: nat, ghost plan: seq<Task>)
      requires stages == [] && Grouped(stageMap, plan) && forall e: nat :: e <= maxDepth ==> Uses(plan, e)
      modifies this`stages
      ensures StagesOf(stages, plan, maxDepth)
    {
      var i: int := maxDepth;
      while i >= 0
        invariant -1 <= i <= maxDepth && |stages| == maxDepth - i
        invariant forall k :: 0 <= k < |stages| ==>
                    stages[k] == Stage(maxDepth - k, TasksAt(plan, maxDepth - k), maxDepth - k > 0)
      {
        assert Uses(plan, i);
        if i in stageMap {
          stages := stages + [Stage(i, stageMap[i], i > 0)];
        }
        i := i - 1;
      }
    }

    method BuildStages(root: Id)
      requires Closed(g) && root in g && visited == {} && stageMap == map[] && stages == [] && created == []
      modifies this
      ensures exists max: nat :: IsDeepest(Plan(g, root), max) && StagesOf(stages, Plan(g, root), max)
    {
      BuildRecursive(root, 0);
      ghost var plan := Plan(g, root);
      assert created == plan;
      PlanStages(g, root);
      var maxDepth := MaxDepth();
      PlanDeepest(stageMap, plan, maxDepth);
      EmitStages(maxDepth, plan);
    }
  }

  lemma PlanDeepest(m: map<nat, seq<Task>>, tasks: seq<Task>, max: nat)
    requires Grouped(m, tasks) && tasks != [] && tasks[|tasks| - 1].stage == 0 && NoGap(tasks, 0)
    requires (forall d :: d in m ==> d <= max) && (max == 0 || max in m)
    ensures IsDeepest(tasks, max) && forall e: nat :: e <= max ==> Uses(tasks, e)
  {
    assert Uses(tasks, 0);
    forall i | 0 <= i < |tasks| ensures tasks[i].stage <= max { assert Uses(tasks, tasks[i].stage); }
    var j :| 0 <= j < |tasks| && tasks[j].stage == max;
    forall e: nat | e <= max ensures Uses(tasks, e) {}
  }
}
