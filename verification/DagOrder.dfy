/** When the staging of pkg/agent/agent.go respects dependencies: tasks are created in
    dependency order exactly on graphs without a reachable cycle, and every dependency sits in a
    strictly earlier stage exactly when, besides, no path to an agent is longer than its leftmost
    one, the path on which the depth-first pass first meets it. */
module DagOrder {
  import opened Graph
  import opened DagStages

  ghost predicate NoCycleFrom(g: Links, a: Id)
  {
    forall x :: Reaches(g, a, x) ==> !ReachesByLink(g, x, x)
  }

  lemma NoCycleBelow(g: Links, a: Id, c: Id)
    requires NoCycleFrom(g, a) && a in g && c in g[a]
    ensures NoCycleFrom(g, c)
  {
    forall x | Reaches(g, c, x) ensures !ReachesByLink(g, x, x) {
      ReachesVia(g, a, c, x);
    }
  }

  // ---------------------------------------------------------------- creation order

  // Every dependency of a task's agent is already visited or has an earlier task.
  ghost predicate DepsFirst(g: Links, tasks: seq<Task>, seen: set<Id>)
  {
    forall i, y {:trigger y in g[tasks[i].agent]} :: 0 <= i < |tasks| && tasks[i].agent in g && y in g[tasks[i].agent]
      ==> y in seen || Has(tasks[..i], y)
  }

  lemma DepsFirstAppend(g: Links, a: seq<Task>, b: seq<Task>, seen: set<Id>, mid: set<Id>)
    requires DepsFirst(g, a, seen) && DepsFirst(g, b, mid) && Covers(a, seen, mid)
    ensures DepsFirst(g, a + b, seen)
  {
    var c := a + b;
    forall i, y | 0 <= i < |c| && c[i].agent in g && y in g[c[i].agent] ensures y in seen || Has(c[..i], y) {
      if i < |a| {
        assert c[..i] == a[..i];
      } else {
        assert c[..i] == a + b[..i - |a|];
        assert y in mid || Has(b[..i - |a|], y);
        assert y in mid && y !in seen ==> Has(a, y);
        HasAppend(a, b[..i - |a|], y);
      }
    }
  }

  lemma {:induction false} BuildDepsFirst(g: Links, a: Id, depth: nat, seen: set<Id>)
    requires Closed(g) && a in g && seen <= g.Keys && NoCycleFrom(g, a)
    ensures DepsFirst(g, Build(g, a, depth, seen).0, seen)
    decreases g.Keys - seen, 0, 0
  {
    if a !in seen {
      var (tasks, after) := BuildAll(g, g[a], depth + 1, seen + {a});
      BuildAllDepsFirst(g, a, g[a], depth + 1, seen + {a});
      BuildAllCovers(g, g[a], depth + 1, seen + {a});
      BuildAllExplores(g, g[a], depth + 1, seen + {a});
      var all := tasks + [Task(a, depth)];
      ReachesSelf(g, a);
      forall i, y | 0 <= i < |all| && all[i].agent in g && y in g[all[i].agent] ensures y in seen || Has(all[..i], y) {
        if i < |tasks| {
          assert all[..i] == tasks[..i];
          BuildAllReaches(g, a, g[a], depth + 1, seen + {a}, i);
          if y == a {
            ReachesVia(g, tasks[i].agent, a, a);
            ReachesTrans(g, a, tasks[i].agent, a);
            assert false;
          }
        } else {
          assert all[..i] == tasks;
          if y == a {
            ReachesVia(g, a, a, a);
            assert false;
          }
          assert y in after;
        }
      }
    }
  }

  lemma {:induction false} BuildAllDepsFirst(g: Links, a: Id, deps: seq<Id>, depth: nat, seen: set<Id>)
    requires Closed(g) && a in g && seen <= g.Keys && NoCycleFrom(g, a)
    requires forall k :: 0 <= k < |deps| ==> deps[k] in g[a]
    ensures DepsFirst(g, BuildAll(g, deps, depth, seen).0, seen)
    decreases g.Keys - seen, 1, |deps|
  {
    if deps != [] {
      NoCycleBelow(g, a, deps[0]);
      BuildDepsFirst(g, deps[0], depth, seen);
      BuildCovers(g, deps[0], depth, seen);
      var (first, mid) := Build(g, deps[0], depth, seen);
      BuildAllDepsFirst(g, a, deps[1..], depth, mid);
      DepsFirstAppend(g, first, BuildAll(g, deps[1..], depth, mid).0, seen, mid);
    }
  }

  // In a dependency-first order without repeats, whatever an agent reaches by links comes
  // before it.
  lemma {:induction false} ReachedBefore(g: Links, tasks: seq<Task>, i: nat, y: Id, p: seq<Id>)
    requires DepsFirst(g, tasks, {}) && i < |tasks| && PathTo(g, tasks[i].agent, y, p) && |p| > 1
    ensures Has(tasks[..i], y)
    decreases p
  {
    var x := tasks[i].agent;
    TailPath(g, x, y, p);
    assert p[1] in g[tasks[i].agent] && Has(tasks[..i], p[1]);
    var j :| 0 <= j < i && tasks[..i][j].agent == p[1];
    if |p| > 2 {
      ReachedBefore(g, tasks, j, y, p[1..]);
      var k :| 0 <= k < |tasks[..j]| && tasks[..j][k].agent == y;
      assert tasks[..i][k].agent == y;
    } else {
      assert p[1..] == [y];
    }
  }

  // Task creation is a post-order exactly when no cycle is reachable from the root.
  lemma PlanDepsFirst(g: Links, root: Id)
    requires Closed(g) && root in g
    ensures DepsFirst(g, Plan(g, root), {}) <==> NoCycleFrom(g, root)
  {
    var tasks := Plan(g, root);
    PlanCoversReachable(g, root);
    if NoCycleFrom(g, root) {
      BuildDepsFirst(g, root, 0, {});
    }
    if DepsFirst(g, tasks, {}) {
      forall x | Reaches(g, root, x) ensures !ReachesByLink(g, x, x) {
        assert Has(tasks, x);
        var i :| 0 <= i < |tasks| && tasks[i].agent == x;
        if ReachesByLink(g, x, x) {
          var p :| PathTo(g, x, x, p) && |p| > 1;
          ReachedBefore(g, tasks, i, x, p);
          assert false;
        }
      }
    }
  }

  // ---------------------------------------------------------------- leftmost paths

  // c is the first dependency of a from which b can be reached.
  ghost predicate FirstTowards(g: Links, a: Id, c: Id, b: Id)
    requires a in g
  {
    exists k :: 0 <= k < |g[a]| && g[a][k] == c && forall j :: 0 <= j < k ==> !Reaches(g, g[a][j], b)
  }

  ghost predicate Leftmost(g: Links, p: seq<Id>)
  {
    IsPath(g, p) && (|p| > 1 ==> FirstTowards(g, p[0], p[1], p[|p| - 1]) && Leftmost(g, p[1..]))
  }

  lemma {:induction false} LeftmostUnique(g: Links, a: Id, b: Id, p: seq<Id>, q: seq<Id>)
    requires NoCycleFrom(g, a) && PathTo(g, a, b, p) && PathTo(g, a, b, q) && Leftmost(g, p) && Leftmost(g, q)
    ensures |p| == |q|
    decreases p
  {
    ReachesSelf(g, a);
    if |p| > 1 && |q| > 1 {
      TailPath(g, a, b, p);
      TailPath(g, a, b, q);
      assert Reaches(g, p[1], b) && Reaches(g, q[1], b);
      assert p[1] == q[1];
      NoCycleBelow(g, a, p[1]);
      LeftmostUnique(g, p[1], b, p[1..], q[1..]);
    }
  }

  // Agents below c that are visited have everything below them visited.
  ghost predicate Finished(g: Links, seen: set<Id>, c: Id)
  {
    forall x, y :: x in seen && Reaches(g, c, x) && Reaches(g, x, y) ==> y in seen
  }

  lemma BuildFinishes(g: Links, c: Id, depth: nat, seen: set<Id>, y: Id)
    requires Closed(g) && c in g && seen <= g.Keys && Finished(g, seen, c) && Reaches(g, c, y)
    ensures y in Build(g, c, depth, seen).1
  {
    var after := Build(g, c, depth, seen).1;
    BuildExplores(g, c, depth, seen);
    var s := set z | z in after && Reaches(g, c, z);
    forall x, i | x in s && x in g && 0 <= i < |g[x]| ensures g[x][i] in s {
      ReachesSelf(g, g[x][i]);
      ReachesVia(g, x, g[x][i], g[x][i]);
      ReachesTrans(g, c, x, g[x][i]);
    }
    ReachesSelf(g, c);
    var p :| PathTo(g, c, y, p);
    ReachStays(g, s, c, y, p);
  }

  lemma FinishedAfter(g: Links, c: Id, d: Id, depth: nat, seen: set<Id>)
    requires Closed(g) && c in g && seen <= g.Keys && Finished(g, seen, c) && Finished(g, seen, d)
    ensures Finished(g, Build(g, c, depth, seen).1, d)
  {
    var (tasks, after) := Build(g, c, depth, seen);
    BuildCovers(g, c, depth, seen);
    forall x, y | x in after && Reaches(g, d, x) && Reaches(g, x, y) ensures y in after {
      if x !in seen {
        assert Has(tasks, x);
        var i :| 0 <= i < |tasks| && tasks[i].agent == x;
        BuildReaches(g, c, depth, seen, i);
        ReachesTrans(g, c, x, y);
        BuildFinishes(g, c, depth, seen, y);
      }
    }
  }

  // A task's stage is the number of links on the leftmost path to its agent.
  ghost predicate AtLeftmostDepth(g: Links, a: Id, depth: nat, t: Task)
  {
    exists p :: PathTo(g, a, t.agent, p) && Leftmost(g, p) && t.stage == depth + |p| - 1
  }

  lemma {:induction false} BuildLeftmost(g: Links, a: Id, depth: nat, seen: set<Id>, i: nat)
    requires Closed(g) && a in g && seen <= g.Keys && NoCycleFrom(g, a) && Finished(g, seen, a)
    requires i < |Build(g, a, depth, seen).0|
    ensures AtLeftmostDepth(g, a, depth, Build(g, a, depth, seen).0[i])
    decreases g.Keys - seen, 0, 0
  {
    var tasks := Build(g, a, depth, seen).0;
    if i == |tasks| - 1 {
      assert PathTo(g, a, a, [a]) && Leftmost(g, [a]);
    } else {
      forall k | 0 <= k < |g[a]| ensures Finished(g, seen + {a}, g[a][k]) {
        FinishedBelow(g, a, g[a][k], seen);
      }
      assert g[a] == g[a][0..];
      BuildAllLeftmost(g, a, 0, depth, seen + {a}, i);
    }
  }

  lemma FinishedBelow(g: Links, a: Id, c: Id, seen: set<Id>)
    requires a in g && c in g[a] && NoCycleFrom(g, a) && Finished(g, seen, a)
    ensures Finished(g, seen + {a}, c)
  {
    forall x, y | x in seen + {a} && Reaches(g, c, x) && Reaches(g, x, y) ensures y in seen + {a} {
      ReachesVia(g, a, c, x);
      if x == a {
        ReachesSelf(g, a);
        assert false;
      }
    }
  }

  // The dependencies of a from the k-th on, when everything below the earlier ones is visited.
  lemma {:induction false} BuildAllLeftmost(g: Links, a: Id, k: nat, depth: nat, seen: set<Id>, i: nat)
    requires Closed(g) && a in g && seen <= g.Keys && NoCycleFrom(g, a) && k <= |g[a]|
    requires forall m :: 0 <= m < |g[a]| ==> Finished(g, seen, g[a][m])
    requires forall j, y :: 0 <= j < k && Reaches(g, g[a][j], y) ==> y in seen
    requires i < |BuildAll(g, g[a][k..], depth + 1, seen).0|
    ensures AtLeftmostDepth(g, a, depth, BuildAll(g, g[a][k..], depth + 1, seen).0[i])
    decreases g.Keys - seen, 1, |g[a]| - k
  {
    var c := g[a][k];
    assert g[a][k..][1..] == g[a][k + 1..];
    var (first, mid) := Build(g, c, depth + 1, seen);
    NoCycleBelow(g, a, c);
    if i < |first| {
      BuildLeftmost(g, c, depth + 1, seen, i);
      BuildCovers(g, c, depth + 1, seen);
      assert Has(first, first[i].agent);
      LeftmostVia(g, a, k, depth, first[i]);
    } else {
      forall m | 0 <= m < |g[a]| ensures Finished(g, mid, g[a][m]) { FinishedAfter(g, c, g[a][m], depth + 1, seen); }
      forall j, y | 0 <= j < k + 1 && Reaches(g, g[a][j], y) ensures y in mid {
        if j == k { BuildFinishes(g, c, depth + 1, seen, y); }
      }
      BuildAllLeftmost(g, a, k + 1, depth, mid, i - |first|);
    }
  }

  lemma LeftmostVia(g: Links, a: Id, k: nat, depth: nat, t: Task)
    requires a in g && k < |g[a]| && AtLeftmostDepth(g, g[a][k], depth + 1, t)
    requires forall j :: 0 <= j < k ==> !Reaches(g, g[a][j], t.agent)
    ensures AtLeftmostDepth(g, a, depth, t)
  {
    var c := g[a][k];
    var p :| PathTo(g, c, t.agent, p) && Leftmost(g, p) && t.stage == depth + 1 + |p| - 1;
    PathCons(g, a, t.agent, c, p);
    assert ([a] + p)[1..] == p;
    assert FirstTowards(g, a, c, t.agent);
    assert Leftmost(g, [a] + p);
  }

  // ---------------------------------------------------------------- stage order

  ghost predicate StageOrder(g: Links, tasks: seq<Task>)
  {
    forall i, j :: 0 <= i < |tasks| && 0 <= j < |tasks| && tasks[i].agent in g && tasks[j].agent in g[tasks[i].agent]
      ==> tasks[j].stage > tasks[i].stage
  }

  ghost predicate LeftmostLongest(g: Links, root: Id)
  {
    forall b, p, q :: PathTo(g, root, b, p) && PathTo(g, root, b, q) && Leftmost(g, q) ==> |p| <= |q|
  }

  // With stages in order, each link of a path goes at least one stage deeper.
  lemma {:induction false} StagesAlong(g: Links, root: Id, i: nat, j: nat, p: seq<Id>)
    requires Closed(g) && root in g && StageOrder(g, Plan(g, root))
    requires i < |Plan(g, root)| && j < |Plan(g, root)|
    requires PathTo(g, Plan(g, root)[i].agent, Plan(g, root)[j].agent, p)
    ensures Plan(g, root)[j].stage >= Plan(g, root)[i].stage + |p| - 1
    decreases p
  {
    var tasks := Plan(g, root);
    PlanCoversReachable(g, root);
    if |p| > 1 {
      TailPath(g, tasks[i].agent, tasks[j].agent, p);
      assert Has(tasks, tasks[i].agent);
      ReachesSelf(g, p[1]);
      ReachesVia(g, tasks[i].agent, p[1], p[1]);
      ReachesTrans(g, root, tasks[i].agent, p[1]);
      var k :| 0 <= k < |tasks| && tasks[k].agent == p[1];
      StagesAlong(g, root, k, j, p[1..]);
    }
  }

  // Every dependency lands in a strictly earlier stage, one with a larger number, exactly when
  // no cycle is reachable and every leftmost path is as long as any other to the same agent.
  lemma StageOrderIff(g: Links, root: Id)
    requires Closed(g) && root in g
    ensures StageOrder(g, Plan(g, root)) <==> NoCycleFrom(g, root) && LeftmostLongest(g, root)
  {
    if StageOrder(g, Plan(g, root)) {
      OrderedNoCycle(g, root);
      OrderedLongest(g, root);
    }
    if NoCycleFrom(g, root) && LeftmostLongest(g, root) {
      LongestOrdered(g, root);
    }
  }

  lemma TaskOf(g: Links, root: Id, x: Id) returns (i: nat)
    requires Closed(g) && root in g && Reaches(g, root, x)
    ensures i < |Plan(g, root)| && Plan(g, root)[i].agent == x
  {
    PlanCoversReachable(g, root);
    assert Has(Plan(g, root), x);
    i :| 0 <= i < |Plan(g, root)| && Plan(g, root)[i].agent == x;
  }

  lemma OrderedNoCycle(g: Links, root: Id)
    requires Closed(g) && root in g && StageOrder(g, Plan(g, root))
    ensures NoCycleFrom(g, root)
  {
    forall x | Reaches(g, root, x) ensures !ReachesByLink(g, x, x) {
      var i := TaskOf(g, root, x);
      forall p | PathTo(g, x, x, p) ensures |p| <= 1 { StagesAlong(g, root, i, i, p); }
    }
  }

  lemma OrderedLongest(g: Links, root: Id)
    requires Closed(g) && root in g && StageOrder(g, Plan(g, root)) && NoCycleFrom(g, root)
    ensures LeftmostLongest(g, root)
  {
    forall b, p, q | PathTo(g, root, b, p) && PathTo(g, root, b, q) && Leftmost(g, q) ensures |p| <= |q| {
      var tasks := Plan(g, root);
      var j := TaskOf(g, root, b);
      PlanStages(g, root);
      StagesAlong(g, root, |tasks| - 1, j, p);
      BuildLeftmost(g, root, 0, {}, j);
      var r :| PathTo(g, root, b, r) && Leftmost(g, r) && tasks[j].stage == 0 + |r| - 1;
      LeftmostUnique(g, root, b, q, r);
    }
  }

  lemma LongestOrdered(g: Links, root: Id)
    requires Closed(g) && root in g && NoCycleFrom(g, root) && LeftmostLongest(g, root)
    ensures StageOrder(g, Plan(g, root))
  {
    var tasks := Plan(g, root);
    forall i, j | 0 <= i < |tasks| && 0 <= j < |tasks| && tasks[i].agent in g && tasks[j].agent in g[tasks[i].agent]
      ensures tasks[j].stage > tasks[i].stage
    {
      var x, y := tasks[i].agent, tasks[j].agent;
      BuildLeftmost(g, root, 0, {}, i);
      BuildLeftmost(g, root, 0, {}, j);
      var p :| PathTo(g, root, x, p) && Leftmost(g, p) && tasks[i].stage == 0 + |p| - 1;
      var q :| PathTo(g, root, y, q) && Leftmost(g, q) && tasks[j].stage == 0 + |q| - 1;
      assert PathTo(g, x, y, [x, y]);
      PathJoin(g, root, x, y, p, [x, y]);
    }
  }

  // When every agent is reached by a single path, stages are in order.
  lemma SinglePathsOrdered(g: Links, root: Id)
    requires Closed(g) && root in g
    requires forall b, p, q :: PathTo(g, root, b, p) && PathTo(g, root, b, q) ==> p == q
    ensures StageOrder(g, Plan(g, root))
  {
    forall x | Reaches(g, root, x) ensures !ReachesByLink(g, x, x) {
      var p :| PathTo(g, root, x, p);
      forall q | PathTo(g, x, x, q) ensures |q| <= 1 { PathJoin(g, root, x, x, p, q); }
    }
    StageOrderIff(g, root);
  }

  // The equations of the pass, for computing a plan.
  lemma LastOf(g: Links, a: Id, depth: nat, seen: set<Id>, tasks: seq<Task>, after: set<Id>, all: seq<Task>)
    requires all == tasks + [Task(a, depth)]
    requires Closed(g) && a in g && seen <= g.Keys && a !in seen
    requires BuildAll(g, g[a], depth + 1, seen + {a}) == (tasks, after)
    ensures Build(g, a, depth, seen) == (all, after)
  {}

  lemma FirstOf(g: Links, deps: seq<Id>, depth: nat, seen: set<Id>, first: seq<Task>, mid: set<Id>,
                rest: seq<Task>, after: set<Id>, all: seq<Task>)
    requires all == first + rest
    requires Closed(g) && seen <= mid <= g.Keys && deps != [] && forall i :: 0 <= i < |deps| ==> deps[i] in g
    requires Build(g, deps[0], depth, seen) == (first, mid) && BuildAll(g, deps[1..], depth, mid) == (rest, after)
    ensures BuildAll(g, deps, depth, seen) == (all, after)
  {}

  // Agent 1 is needed by 0 and by 2, and 0 lists it first: the pass meets it at depth 1 and
  // leaves it in the same stage as 2, which depends on it.
  lemma SharedDependencyTooLate()
    ensures var g: Links := map[0 := [1, 2], 1 := [], 2 := [1]];
            Closed(g) && NoCycleFrom(g, 0) && Plan(g, 0) == [Task(1, 1), Task(2, 1), Task(0, 0)] && !StageOrder(g, Plan(g, 0))
  {
    var g: Links := map[0 := [1, 2], 1 := [], 2 := [1]];
    assert {0} + {1} == {0, 1} && {0, 1} + {2} == {0, 1, 2} && {} + {0} == {0};
    LastOf(g, 1, 1, {0}, [], {0, 1}, [Task(1, 1)]);
    FirstOf(g, [1], 2, {0, 1, 2}, [], {0, 1, 2}, [], {0, 1, 2}, []);
    LastOf(g, 2, 1, {0, 1}, [], {0, 1, 2}, [Task(2, 1)]);
    FirstOf(g, [2], 1, {0, 1}, [Task(2, 1)], {0, 1, 2}, [], {0, 1, 2}, [Task(2, 1)]);
    FirstOf(g, [1, 2], 1, {0}, [Task(1, 1)], {0, 1}, [Task(2, 1)], {0, 1, 2}, [Task(1, 1), Task(2, 1)]);
    LastOf(g, 0, 0, {}, [Task(1, 1), Task(2, 1)], {0, 1, 2}, [Task(1, 1), Task(2, 1), Task(0, 0)]);
    var tasks := Plan(g, 0);
    assert tasks == [Task(1, 1), Task(2, 1), Task(0, 0)];
    assert tasks[0].agent in g[tasks[1].agent];
    forall i, y | 0 <= i < |tasks| && tasks[i].agent in g && y in g[tasks[i].agent] ensures y in {} || Has(tasks[..i], y) {
      assert y == 1 ==> tasks[..i][0].agent == 1;
      assert y == 2 ==> tasks[..i][1].agent == 2;
    }
    PlanDepsFirst(g, 0);
  }
}
