/** What the transfer scope alone guarantees about a run in an acyclic, unchanging hierarchy,
    whatever the agents answer and whatever the transfer limit is. */
module AutoFlowBounds {
  import opened Text
  import opened Graph
  import opened Hierarchy
  import opened InvocationContexts
  import opened AutoFlows

  ghost predicate AcyclicAgents(w: Agents) { ValidAgents(w) && Acyclic(w.forest) && KnownParents(w.forest) }

  function DepthOf(w: Agents, a: Id): nat
    requires AcyclicAgents(w) && a in w.name
  {
    Depth(w.forest, a)
  }

  // Every link down a path adds one to the depth.
  lemma {:induction false} DepthAlong(w: Agents, a: Id, b: Id, p: seq<Id>)
    requires AcyclicAgents(w) && PathTo(w.forest.subs, a, b, p)
    ensures DepthOf(w, b) == DepthOf(w, a) + |p| - 1
    decreases p
  {
    if |p| > 1 {
      TailPath(w.forest.subs, a, b, p);
      DepthOfChild(w.forest, a, p[1]);
      DepthAlong(w, p[1], b, p[1..]);
    }
  }

  lemma SubAgentReached(w: Agents, a: Id, c: Id)
    requires ValidAgents(w) && a in w.name && c in w.name && w.forest.parent[c] == Some(a)
    ensures ReachesByLink(w.forest.subs, a, c) && Reaches(w.forest.subs, a, c)
  {
    ReachesSelf(w.forest.subs, c);
    ReachesVia(w.forest.subs, a, c, c);
  }

  // The agent in charge after i transfers.
  function At(history: seq<Transfer>, start: Id, i: nat): Id
    requires i <= |history|
  {
    if i == 0 then start else history[i - 1].to
  }

  lemma AtKnown(w: Agents, scope: Scope, root: Id, history: seq<Transfer>, start: Id, i: nat)
    requires ValidAgents(w) && ChainFrom(w, history, start) && AllInScope(w, scope, root, history)
    requires start in w.name && i <= |history|
    ensures At(history, start, i) in w.name
    ensures i < |history| ==>
              At(history, start, i + 1) in w.name && InScope(w, scope, root, At(history, start, i), At(history, start, i + 1))
  {
    if i > 0 { assert ChainedAt(w, history, start, i - 1); }
    if i < |history| { assert ChainedAt(w, history, start, i); }
  }

  // A run's agents and transfers, apart from how they came about.
  ghost predicate Trace(w: Agents, scope: Scope, root: Id, start: Id, history: seq<Transfer>, ran: seq<Id>)
    requires ValidAgents(w)
  {
    && start in w.name && ChainFrom(w, history, start) && AllInScope(w, scope, root, history)
    && |ran| == |history| + 1
    && forall i :: 0 <= i < |ran| ==> ran[i] == At(history, start, i) && ran[i] in w.name
  }

  lemma TraceOf(w: Agents, scope: Scope, s: State, start: Id, ran: seq<Id>)
    requires Safe(w, scope, s, start) && start in w.name
    requires |ran| == |s.history| + 1 && ran[0] == start && forall i :: 0 <= i < |s.history| ==> ran[i + 1] == s.history[i].to
    ensures Trace(w, scope, s.root, start, s.history, ran)
  {
    forall i | 0 <= i < |ran| ensures ran[i] == At(s.history, start, i) && ran[i] in w.name {
      if i > 0 { assert ran[i - 1 + 1] == s.history[i - 1].to && ChainedAt(w, s.history, start, i - 1); }
    }
  }

  lemma RunTrace(w: Agents, config: Config, replies: nat -> Reply, start: Id, input: Input)
    requires ValidAgents(w) && start in w.name
    ensures var s := StartState(w, config, start, input);
            var r := Exec(w, config, replies, s, 0, start);
            Trace(w, config.scope, s.root, start, r.state.history, r.ran)
  {
    var s := StartState(w, config, start, input);
    var r := Exec(w, config, replies, s, 0, start);
    Safety(w, config, replies, s, 0, start, start);
    RanTargets(w, config, replies, s, 0, start);
    Budget(w, config, replies, s, 0, start);
    assert Since(s, r.state) == r.state.history;
    TraceOf(w, config.scope, r.state, start, r.ran);
  }

  // ---------------------------------------------------------------- the reported path

  function NamesOf(w: Agents, ids: seq<Id>): (names: seq<string>)
    requires forall i :: 0 <= i < |ids| ==> ids[i] in w.name
    ensures |names| == |ids| && forall i :: 0 <= i < |ids| ==> names[i] == w.name[ids[i]]
  {
    seq(|ids|, i requires 0 <= i < |ids| => w.name[ids[i]])
  }

  lemma TracePlace(w: Agents, scope: Scope, s: State, start: Id, ran: seq<Id>, i: nat)
    requires Knows(w, s) && Trace(w, scope, s.root, start, s.history, ran) && 0 < i < |ran|
    ensures ran[i] in w.name && |PathNames(w, s)| == |ran| && PathNames(w, s)[i] == w.name[ran[i]]
  {
    assert PathNames(w, s)[i] == Targets(s.history)[i - 1] == s.history[i - 1].toName;
    assert ChainedAt(w, s.history, start, i - 1) && ran[i] == At(s.history, start, i);
  }

  lemma TracePath(w: Agents, scope: Scope, s: State, start: Id, ran: seq<Id>)
    requires Knows(w, s) && Trace(w, scope, s.root, start, s.history, ran)
    ensures PathNames(w, s) == NamesOf(w, ran) <==> w.name[s.root] == w.name[start]
  {
    var path, names := PathNames(w, s), NamesOf(w, ran);
    assert path[0] == w.name[s.root] && names[0] == w.name[start];
    forall i | 0 < i < |path| ensures path[i] == names[i] {
      TracePlace(w, scope, s, start, ran, i);
    }
  }

  // The transfer path is documented as the agents in transfer order.  It begins with the root of the
  // hierarchy, so it names the agents that ran exactly when the root has the name of the start.
  lemma PathIff(w: Agents, config: Config, replies: nat -> Reply, start: Id, input: Input)
    requires ValidAgents(w) && start in w.name
    ensures KnownParents(w.forest) && Root(w.forest, start) in w.name
    ensures var r := Exec(w, config, replies, StartState(w, config, start, input), 0, start);
            (forall i :: 0 <= i < |r.ran| ==> r.ran[i] in w.name) &&
            (PathNames(w, r.state) == NamesOf(w, r.ran) <==> w.name[Root(w.forest, start)] == w.name[start])
  {
    var s := StartState(w, config, start, input);
    var r := Exec(w, config, replies, s, 0, start);
    ConsistentClosed(w.forest);
    RootKnown(w.forest, start);
    RunTrace(w, config, replies, start, input);
    Budget(w, config, replies, s, 0, start);
    TracePath(w, config.scope, r.state, start, r.ran);
  }

  // The child starts and transfers to its parent: the path in the result names the root twice and
  // the child not at all.
  lemma PathFromBelow(input: Input)
    ensures ValidAgents(PAIR)
    ensures var r := Exec(PAIR, OneTransfer(Parent), AskOnce("root"), StartState(PAIR, OneTransfer(Parent), 1, input), 0, 1);
            && r.ran == [1, 0] && NamesOf(PAIR, r.ran) == ["child", "root"]
            && r.result.Done? && r.result.transferred.Some? && r.result.transferred.value.path == ["root", "root"]
  {
    PairValid();
    var s := StartState(PAIR, OneTransfer(Parent), 1, input);
    assert FindParent(PAIR, 1, "root") == Some(0);
    var t := Transferred(PAIR, s, 0, "").value;
    assert Handle(PAIR, OneTransfer(Parent), s, AskOnce("root")(0)) == Continue(t);
    OneStep(s, Parent, "root", t, 1);
    assert Targets(t.history) == ["root"];
  }

  // ---------------------------------------------------------------- downwards

  // A transfer in these scopes goes strictly deeper.
  lemma StepDown(w: Agents, scope: Scope, root: Id, a: Id, b: Id)
    requires AcyclicAgents(w) && a in w.name && b in w.name && (scope == SubAgents || scope == Descendants)
    requires InScope(w, scope, root, a, b)
    ensures DepthOf(w, b) > DepthOf(w, a) && Reaches(w.forest.subs, a, b)
  {
    if scope == SubAgents { SubAgentReached(w, a, b); }
    var p :| PathTo(w.forest.subs, a, b, p) && |p| > 1;
    DepthAlong(w, a, b, p);
  }

  // b is reached from a, at least n levels deeper.
  ghost predicate Deeper(w: Agents, a: Id, b: Id, n: nat)
    requires AcyclicAgents(w)
  {
    a in w.name && b in w.name && DepthOf(w, b) >= DepthOf(w, a) + n && Reaches(w.forest.subs, a, b)
  }

  lemma DeeperTrans(w: Agents, a: Id, b: Id, c: Id, m: nat, n: nat)
    requires AcyclicAgents(w) && Deeper(w, a, b, m) && Deeper(w, b, c, n)
    ensures Deeper(w, a, c, m + n)
  {
    ReachesTrans(w.forest.subs, a, b, c);
  }

  lemma {:induction false} DeeperChain(w: Agents, ran: seq<Id>, i: nat, j: nat)
    requires AcyclicAgents(w) && i <= j < |ran| && ran[i] in w.name
    requires forall k :: 0 <= k < |ran| - 1 ==> Deeper(w, ran[k], ran[k + 1], 1)
    ensures Deeper(w, ran[i], ran[j], j - i)
    decreases j - i
  {
    if i == j {
      ReachesSelf(w.forest.subs, ran[i]);
    } else {
      DeeperChain(w, ran, i + 1, j);
      DeeperTrans(w, ran[i], ran[i + 1], ran[j], 1, j - i - 1);
    }
  }

  // The height of the hierarchy below an agent is at most h.
  ghost predicate HeightBelow(w: Agents, a: Id, h: nat)
    requires AcyclicAgents(w) && a in w.name
  {
    forall b :: b in w.name && Reaches(w.forest.subs, a, b) ==> DepthOf(w, b) <= DepthOf(w, a) + h
  }

  // Each agent is strictly deeper than those before it.
  ghost predicate Deepening(w: Agents, ran: seq<Id>)
    requires AcyclicAgents(w)
  {
    && (forall i :: 0 <= i < |ran| ==> ran[i] in w.name)
    && (forall i, j :: 0 <= i < j < |ran| ==> DepthOf(w, ran[j]) > DepthOf(w, ran[i]))
  }

  lemma DownwardTrace(w: Agents, scope: Scope, root: Id, start: Id, history: seq<Transfer>, ran: seq<Id>, h: nat)
    requires AcyclicAgents(w) && Trace(w, scope, root, start, history, ran)
    requires (scope == SubAgents || scope == Descendants) && HeightBelow(w, start, h)
    ensures |history| <= h && Deepening(w, ran)
  {
    forall k | 0 <= k < |ran| - 1 ensures Deeper(w, ran[k], ran[k + 1], 1) {
      AtKnown(w, scope, root, history, start, k);
      StepDown(w, scope, root, ran[k], ran[k + 1]);
    }
    forall i, j | 0 <= i < j < |ran| ensures DepthOf(w, ran[j]) > DepthOf(w, ran[i]) {
      DeeperChain(w, ran, i, j);
    }
    DeeperChain(w, ran, 0, |history|);
  }

  // With sub-agent or descendant scope no agent runs twice, each one runs strictly deeper than
  // the one before, and there are at most as many transfers as the height below the start.
  lemma DownwardRun(w: Agents, config: Config, replies: nat -> Reply, start: Id, input: Input, h: nat)
    requires AcyclicAgents(w) && start in w.name && (config.scope == SubAgents || config.scope == Descendants)
    requires HeightBelow(w, start, h)
    ensures var r := Exec(w, config, replies, StartState(w, config, start, input), 0, start);
            |r.state.history| <= h && Deepening(w, r.ran) && Distinct(r.ran)
  {
    var s := StartState(w, config, start, input);
    var r := Exec(w, config, replies, s, 0, start);
    RunTrace(w, config, replies, start, input);
    DownwardTrace(w, config.scope, s.root, start, r.state.history, r.ran, h);
    assert Distinct(r.ran) by { assert Deepening(w, r.ran); }
  }

  // ---------------------------------------------------------------- upwards

  lemma UpwardStep(w: Agents, root: Id, history: seq<Transfer>, start: Id, i: nat)
    requires AcyclicAgents(w) && ChainFrom(w, history, start) && AllInScope(w, Parent, root, history)
    requires start in w.name && i < |history|
    ensures At(history, start, i) in w.name && At(history, start, i + 1) in w.name
    ensures DepthOf(w, At(history, start, i)) == DepthOf(w, At(history, start, i + 1)) + 1
  {
    AtKnown(w, Parent, root, history, start, i);
    DepthOfChild(w.forest, At(history, start, i + 1), At(history, start, i));
  }

  lemma {:induction false} UpwardFrom(w: Agents, root: Id, history: seq<Transfer>, start: Id, i: nat, j: nat)
    requires AcyclicAgents(w) && ChainFrom(w, history, start) && AllInScope(w, Parent, root, history)
    requires start in w.name && i <= j <= |history|
    ensures At(history, start, i) in w.name && At(history, start, j) in w.name
    ensures DepthOf(w, At(history, start, i)) == DepthOf(w, At(history, start, j)) + j - i
    decreases j - i
  {
    if i < j {
      UpwardStep(w, root, history, start, i);
      UpwardFrom(w, root, history, start, i + 1, j);
    } else {
      AtKnown(w, Parent, root, history, start, i);
    }
  }

  // Each agent is one level above the one before it.
  ghost predicate Climbing(w: Agents, start: Id, ran: seq<Id>)
    requires AcyclicAgents(w) && start in w.name
  {
    forall i :: 0 <= i < |ran| ==> ran[i] in w.name && DepthOf(w, ran[i]) == DepthOf(w, start) - i
  }

  lemma UpwardTrace(w: Agents, root: Id, start: Id, history: seq<Transfer>, ran: seq<Id>)
    requires AcyclicAgents(w) && Trace(w, Parent, root, start, history, ran)
    ensures |history| <= DepthOf(w, start) && Climbing(w, start, ran)
  {
    forall i | 0 <= i < |ran| ensures ran[i] in w.name && DepthOf(w, ran[i]) == DepthOf(w, start) - i {
      UpwardFrom(w, root, history, start, 0, i);
    }
    UpwardFrom(w, root, history, start, 0, |history|);
  }

  // With parent scope each transfer goes up one level, so there are at most as many as the
  // start is deep.
  lemma UpwardRun(w: Agents, config: Config, replies: nat -> Reply, start: Id, input: Input)
    requires AcyclicAgents(w) && start in w.name && config.scope == Parent
    ensures var r := Exec(w, config, replies, StartState(w, config, start, input), 0, start);
            |r.state.history| <= DepthOf(w, start) && Climbing(w, start, r.ran)
  {
    var s := StartState(w, config, start, input);
    var r := Exec(w, config, replies, s, 0, start);
    RunTrace(w, config, replies, start, input);
    UpwardTrace(w, s.root, start, r.state.history, r.ran);
  }

  // ---------------------------------------------------------------- sideways

  lemma {:induction false} SidewaysFrom(w: Agents, root: Id, history: seq<Transfer>, start: Id, i: nat)
    requires ValidAgents(w) && ChainFrom(w, history, start) && AllInScope(w, Siblings, root, history)
    requires start in w.name && i <= |history|
    ensures At(history, start, i) in w.name && w.forest.parent[At(history, start, i)] == w.forest.parent[start]
    decreases i
  {
    if i > 0 {
      SidewaysFrom(w, root, history, start, i - 1);
      AtKnown(w, Siblings, root, history, start, i - 1);
    }
  }

  // With sibling scope every agent that runs has the parent of the start, cycles or not.
  lemma SidewaysRun(w: Agents, config: Config, replies: nat -> Reply, start: Id, input: Input)
    requires ValidAgents(w) && start in w.name && config.scope == Siblings
    ensures var r := Exec(w, config, replies, StartState(w, config, start, input), 0, start);
            forall i :: 0 <= i < |r.ran| ==> r.ran[i] in w.name && w.forest.parent[r.ran[i]] == w.forest.parent[start]
  {
    var s := StartState(w, config, start, input);
    var r := Exec(w, config, replies, s, 0, start);
    RunTrace(w, config, replies, start, input);
    forall i | 0 <= i < |r.ran| ensures r.ran[i] in w.name && w.forest.parent[r.ran[i]] == w.forest.parent[start] {
      SidewaysFrom(w, s.root, r.state.history, start, i);
    }
  }

  // ---------------------------------------------------------------- the whole hierarchy

  // Scope "all" is documented to allow any agent of the hierarchy.  The search starts below the
  // root, so in an acyclic hierarchy it allows exactly the others.
  lemma AllScopeExcludesRoot(w: Agents, start: Id, to: Id)
    requires AcyclicAgents(w) && start in w.name && to in w.name
    ensures InScope(w, All, Root(w.forest, start), start, to)
            <==> Root(w.forest, to) == Root(w.forest, start) && to != Root(w.forest, start)
  {
    var root := Root(w.forest, start);
    RootKnown(w.forest, start);
    ChainToRoot(w.forest, start);
    ChainToRoot(w.forest, to);
    if InScope(w, All, root, start, to) {
      var p :| PathTo(w.forest.subs, root, to, p) && |p| > 1;
      DepthAlong(w, root, to, p);
      RootAlong(w, root, to, p);
      assert Root(w.forest, root) == root;
    }
    if Root(w.forest, to) == root && to != root {
      ReachedFromRoot(w, to, DepthOf(w, to));
    }
  }

  lemma {:induction false} RootAlong(w: Agents, a: Id, b: Id, p: seq<Id>)
    requires AcyclicAgents(w) && PathTo(w.forest.subs, a, b, p)
    ensures Root(w.forest, b) == Root(w.forest, a)
    decreases p
  {
    if |p| > 1 {
      TailPath(w.forest.subs, a, b, p);
      DepthOfChild(w.forest, a, p[1]);
      RootAlong(w, p[1], b, p[1..]);
    }
  }

  // Whoever is n links above an agent reaches it.
  lemma {:induction false} ReachedFromRoot(w: Agents, a: Id, n: nat)
    requires ValidAgents(w) && a in w.name && Up(w.forest, a, n).Some?
    ensures Up(w.forest, a, n).value in w.name && Reaches(w.forest.subs, Up(w.forest, a, n).value, a)
    ensures n > 0 ==> ReachesByLink(w.forest.subs, Up(w.forest, a, n).value, a)
    decreases n
  {
    if n == 0 {
      ReachesSelf(w.forest.subs, a);
    } else {
      var p := w.forest.parent[a].value;
      ConsistentClosed(w.forest);
      SubAgentReached(w, p, a);
      ReachedFromRoot(w, p, n - 1);
      ReachesTrans(w.forest.subs, Up(w.forest, a, n).value, p, a);
    }
  }
}
