/** LLM-driven transfers (pkg/agent/autoflow.go): agents answer anything they like, and a request
    to transfer is resolved within a scope, recorded within a budget, and followed. */
module AutoFlows {
  import opened Text
  import opened Graph
  import opened Hierarchy
  import opened InvocationContexts

  datatype Scope = Disabled | Parent | Siblings | SubAgents | Descendants | All | Unknown(code: int)

  datatype Config = Config(allowTransfer: bool, scope: Scope, maxTransfers: int, node: string)

  // Metadata values of an answer, as far as AutoFlow tells them apart.
  datatype Meta = Flag(on: bool) | Word(text: string) | Object(fields: map<string, Meta>) | Other

  datatype Output = Output(metadata: Option<map<string, Meta>>, result: string)

  datatype Reply = Failed(error: string) | Replied(output: Output)

  // Requested by flag, or by a call of the transfer tool.
  predicate IsTransferRequest(o: Output)
  {
    o.metadata.Some? &&
    var m := o.metadata.value;
    || ("transfer_requested" in m && m["transfer_requested"] == Flag(true))
    || ("tool_call" in m && m["tool_call"].Object? && "name" in m["tool_call"].fields &&
        m["tool_call"].fields["name"] == Word("transfer_to_agent"))
  }

  // A word in the metadata, or nothing.
  function WordAt(o: Output, key: string): string
  {
    if o.metadata.Some? && key in o.metadata.value && o.metadata.value[key].Word? then o.metadata.value[key].text else ""
  }

  function TargetOf(o: Output): string { WordAt(o, "target_agent") }

  function ReasonOf(o: Output): string { WordAt(o, "reason") }

  // Whatever else an answer carries: the flag alone makes it a request, so does the tool call alone,
  // and without both keys, or without metadata, it is none; a flag that is off and a call of another
  // tool do not count.
  lemma RequestForms(m: map<string, Meta>, call: map<string, Meta>, tool: string, result: string)
    requires tool != "transfer_to_agent"
    ensures !IsTransferRequest(Output(None, result))
    ensures IsTransferRequest(Output(Some(m["transfer_requested" := Flag(true)]), result))
    ensures IsTransferRequest(Output(Some(m["tool_call" := Object(call["name" := Word("transfer_to_agent")])]), result))
    ensures !IsTransferRequest(Output(Some(m - {"transfer_requested", "tool_call"}), result))
    ensures !IsTransferRequest(Output(Some(m["transfer_requested" := Flag(false)]["tool_call" := Object(call["name" := Word(tool)])]), result))
  {}

  // The target and the reason are words of the metadata; anything else reads as none.
  lemma TargetForms(m: map<string, Meta>, target: string, reason: string, result: string, other: Meta)
    requires !other.Word?
    ensures TargetOf(Output(Some(m["reason" := Word(reason)]["target_agent" := Word(target)]), result)) == target
    ensures ReasonOf(Output(Some(m["target_agent" := Word(target)]["reason" := Word(reason)]), result)) == reason
    ensures TargetOf(Output(None, result)) == "" && TargetOf(Output(Some(m["target_agent" := other]), result)) == ""
    ensures ReasonOf(Output(Some(m - {"reason"}), result)) == "" && TargetOf(Output(Some(m - {"target_agent"}), result)) == ""
  {}

  // ---------------------------------------------------------------- resolving a target

  function FirstSibling(w: Agents, kids: seq<Id>, current: Id, target: string): (r: Option<Id>)
    requires forall i :: 0 <= i < |kids| ==> kids[i] in w.name
    ensures r.Some? ==> r.value in kids && r.value != current && w.name[r.value] == target
    ensures r.None? ==> forall i :: 0 <= i < |kids| && kids[i] != current ==> w.name[kids[i]] != target
  {
    if kids == [] then None
    else if w.name[kids[0]] == target && kids[0] != current then Some(kids[0])
    else FirstSibling(w, kids[1..], current, target)
  }

  // The first of several siblings with the name is found.
  lemma {:induction false} FirstSiblingAt(w: Agents, kids: seq<Id>, current: Id, target: string, i: nat)
    requires (forall k :: 0 <= k < |kids| ==> kids[k] in w.name) && i < |kids| && kids[i] != current && w.name[kids[i]] == target
    requires forall j :: 0 <= j < i ==> kids[j] == current || w.name[kids[j]] != target
    ensures FirstSibling(w, kids, current, target) == Some(kids[i])
    decreases i
  {
    if i > 0 {
      assert kids[0] == current || w.name[kids[0]] != target;
      FirstSiblingAt(w, kids[1..], current, target, i - 1);
    }
  }

  function FindParent(w: Agents, current: Id, target: string): Option<Id>
    requires ValidAgents(w) && current in w.name
  {
    match w.forest.parent[current]
    case None => None
    case Some(p) => ConsistentClosed(w.forest); if w.name[p] == target then Some(p) else None
  }

  function FindSibling(w: Agents, current: Id, target: string): Option<Id>
    requires ValidAgents(w) && current in w.name
  {
    match w.forest.parent[current]
    case None => None
    case Some(p) => ConsistentClosed(w.forest); FirstSibling(w, w.forest.subs[p], current, target)
  }

  function FindSubAgent(w: Agents, current: Id, target: string): Option<Id>
    requires ValidAgents(w) && current in w.name
  {
    ConsistentClosed(w.forest);
    FirstNamed(w.forest.subs[current], w.name, target)
  }

  function FindDescendant(w: Agents, current: Id, target: string): Option<Id>
    requires ValidAgents(w) && current in w.name
  {
    ConsistentClosed(w.forest);
    Find(w.forest.subs, w.name, target, current, {}).0
  }

  function FindAgentInScope(w: Agents, scope: Scope, root: Id, current: Id, target: string): Option<Id>
    requires ValidAgents(w) && current in w.name && root in w.name
  {
    match scope
    case Disabled => None
    case Parent => FindParent(w, current, target)
    case Siblings => FindSibling(w, current, target)
    case SubAgents => FindSubAgent(w, current, target)
    case Descendants => FindDescendant(w, current, target)
    case All => FindDescendant(w, root, target)
    case Unknown(_) => None
  }

  // The agents a scope allows, independently of how they are looked up.
  ghost predicate InScope(w: Agents, scope: Scope, root: Id, from: Id, to: Id)
    requires ValidAgents(w) && from in w.name && to in w.name
  {
    match scope
    case Disabled => false
    case Parent => w.forest.parent[from] == Some(to)
    case Siblings => from != to && w.forest.parent[from].Some? && w.forest.parent[from] == w.forest.parent[to]
    case SubAgents => w.forest.parent[to] == Some(from)
    case Descendants => ReachesByLink(w.forest.subs, from, to)
    case All => ReachesByLink(w.forest.subs, root, to)
    case Unknown(_) => false
  }

  // A lookup finds an allowed agent with the name, and finds one whenever there is one.
  lemma ScopeResolved(w: Agents, scope: Scope, root: Id, current: Id, target: string)
    requires ValidAgents(w) && current in w.name && root in w.name
    ensures var r := FindAgentInScope(w, scope, root, current, target);
            && (r.Some? ==> r.value in w.name && w.name[r.value] == target && InScope(w, scope, root, current, r.value))
            && (r.None? ==> forall b :: b in w.name && InScope(w, scope, root, current, b) ==> w.name[b] != target)
  {
    ConsistentClosed(w.forest);
    if scope.Descendants? {
      FindComplete(w.forest.subs, w.name, target, current);
    } else if scope.All? {
      FindComplete(w.forest.subs, w.name, target, root);
    }
  }

  // ---------------------------------------------------------------- a run

  datatype Result = Error | Done(output: Output, transferred: Option<Report>)

  // The transfer metadata added to an output.
  datatype Report = Report(path: seq<string>, count: nat, crossPartition: bool)

  datatype Outcome = Outcome(result: Result, state: State, ran: seq<Id>)

  function ReportOf(w: Agents, s: State): Report
    requires Knows(w, s)
  {
    Report(PathNames(w, s), |s.history|, RemoteCount(s.history) > 0)
  }

  function WithReport(w: Agents, o: Outcome): Result
    requires Knows(w, o.state)
  {
    match o.result
    case Error => Error
    case Done(output, _) => Done(output, Some(ReportOf(w, o.state)))
  }

  // What a reply leads to before the next agent runs.
  datatype Next = Stop(result: Result) | Continue(state: State)

  function Handle(w: Agents, config: Config, s: State, reply: Reply): (r: Next)
    requires Knows(w, s)
    ensures r.Continue? ==> Knows(w, r.state) && |s.history| < s.max && |r.state.history| == |s.history| + 1 && r.state.max == s.max
  {
    match reply
    case Failed(_) => Stop(Error)
    case Replied(o) =>
      if !(config.allowTransfer && IsTransferRequest(o)) then Stop(Done(o, None))
      else if TargetOf(o) == "" then Stop(Error)
      else
        ScopeResolved(w, config.scope, s.root, s.current, TargetOf(o));
        match FindAgentInScope(w, config.scope, s.root, s.current, TargetOf(o))
        case None => Stop(Error)
        case Some(target) =>
          match Transferred(w, s, target, ReasonOf(o))
          case None => Stop(Error)
          case Some(next) => Continue(next)
  }

  // Runs an agent, whose answer is `replies(n)`, in the context s, and follows its transfers.  Every
  // caller but ExecuteRemote passes the current agent of s.
  function Exec(w: Agents, config: Config, replies: nat -> Reply, s: State, n: nat, agent: Id): (r: Outcome)
    requires Knows(w, s)
    ensures Knows(w, r.state)
    decreases Max(s.max - |s.history|, 0)
  {
    match Handle(w, config, s, replies(n))
    case Stop(result) => Outcome(result, s, [agent])
    case Continue(next) =>
      var rest := Exec(w, config, replies, next, n + 1, next.current);
      Outcome(WithReport(w, rest), rest.state, [agent] + rest.ran)
  }

  // What a result, a context and the agents run have to be once a reply to the state s was dealt
  // with; `base` are the agents run up to that reply.
  ghost predicate DealtWith(w: Agents, config: Config, replies: nat -> Reply, s: State, next: Next, base: seq<Id>,
                            r: Result, end: State, ran: seq<Id>)
    requires next.Continue? ==> Knows(w, next.state)
  {
    match next
    case Stop(result) => r == result && end == s && ran == base
    case Continue(state) =>
      var o := Exec(w, config, replies, state, |base|, state.current);
      r == WithReport(w, o) && end == o.state && ran == base + o.ran
  }

  // The same once an agent ran in s.
  ghost predicate Ran(w: Agents, config: Config, replies: nat -> Reply, s: State, agent: Id, before: seq<Id>,
                      r: Result, end: State, ran: seq<Id>)
    requires Knows(w, s)
  {
    var o := Exec(w, config, replies, s, |before|, agent);
    r == o.result && end == o.state && ran == before + o.ran
  }

  lemma ExecUnfold(w: Agents, config: Config, replies: nat -> Reply, s: State, n: nat, agent: Id)
    requires Knows(w, s)
    ensures var next := Handle(w, config, s, replies(n)); var o := Exec(w, config, replies, s, n, agent);
            && (next.Stop? ==> o == Outcome(next.result, s, [agent]))
            && (next.Continue? ==> var rest := Exec(w, config, replies, next.state, n + 1, next.state.current);
                                   o == Outcome(WithReport(w, rest), rest.state, [agent] + rest.ran))
  {}

  lemma Assoc(a: seq<Id>, x: Id, b: seq<Id>)
    ensures (a + [x]) + b == a + ([x] + b)
  {}

  lemma RanDealtWith(w: Agents, config: Config, replies: nat -> Reply, s: State, agent: Id, before: seq<Id>, next: Next, base: seq<Id>,
                     r: Result, end: State, ran: seq<Id>)
    requires Knows(w, s) && next == Handle(w, config, s, replies(|before|)) && base == before + [agent]
    ensures DealtWith(w, config, replies, s, next, base, r, end, ran) ==> Ran(w, config, replies, s, agent, before, r, end, ran)
  {
    ExecUnfold(w, config, replies, s, |before|, agent);
    if next.Continue? {
      var rest := Exec(w, config, replies, next.state, |base|, next.state.current);
      Assoc(before, agent, rest.ran);
    }
  }

  lemma RootKnown(f: Forest, a: Id)
    requires KnownParents(f) && a in f.parent
    ensures Root(f, a) in f.parent
  {
    ChainEnd(f, a, {});
  }

  // The context an invocation starts with: at the agent, with the root of its hierarchy.
  function StartState(w: Agents, config: Config, agent: Id, input: Input): (s: State)
    requires ValidAgents(w) && agent in w.name
    ensures Knows(w, s) && Chained(w, s, agent) && s.history == [] && s.max == config.maxTransfers
    ensures s.input == Some(input) && s.node == config.node && s.metadata == map[]
  {
    ConsistentClosed(w.forest);
    RootKnown(w.forest, agent);
    State(Some(input), agent, Root(w.forest, agent), [], config.maxTransfers, w.partition[agent], config.node, map[])
  }

  // A reply leads to a transfer exactly when transfers are allowed, it asks for one by name, budget
  // is left, and an agent in scope has that name.
  lemma TransferIff(w: Agents, config: Config, s: State, reply: Reply)
    requires Knows(w, s)
    ensures Handle(w, config, s, reply).Continue? <==>
              && reply.Replied? && config.allowTransfer && IsTransferRequest(reply.output) && TargetOf(reply.output) != ""
              && |s.history| < s.max
              && exists b :: b in w.name && InScope(w, config.scope, s.root, s.current, b) && w.name[b] == TargetOf(reply.output)
  {
    if reply.Replied? {
      ScopeResolved(w, config.scope, s.root, s.current, TargetOf(reply.output));
    }
  }

  // The label AutoFlow puts on a transfer: it compares the context's partition with the target's.
  function Label(w: Agents, s: State, target: Id): TransferType
    requires target in w.partition
  {
    if s.partition != w.partition[target] then Remote else Local
  }

  // The labels of a run, transfer by transfer.
  function Labels(w: Agents, config: Config, replies: nat -> Reply, s: State, n: nat): seq<TransferType>
    requires Knows(w, s)
    decreases Max(s.max - |s.history|, 0)
  {
    match Handle(w, config, s, replies(n))
    case Stop(_) => []
    case Continue(next) => [Label(w, s, next.current)] + Labels(w, config, replies, next, n + 1)
  }

  // ---------------------------------------------------------------- trails of contexts

  // t is s after one transfer, recorded from the current agent of s to that of t.
  predicate Follows(s: State, t: State)
  {
    && |s.history| < s.max && t.max == s.max && t.root == s.root
    && |t.history| == |s.history| + 1 && s.history <= t.history
    && t.history[|s.history|].from == s.current && t.history[|s.history|].to == t.current
  }

  // The record is truthful and the transfer within the scope.
  ghost predicate Within(w: Agents, scope: Scope, s: State, t: State)
    requires Follows(s, t)
  {
    && Knows(w, s) && Knows(w, t) && t.partition == w.partition[t.current]
    && Truthful(w, t.history[|s.history|]) && InScope(w, scope, s.root, s.current, t.current)
  }

  lemma HandleFollows(w: Agents, config: Config, s: State, reply: Reply)
    requires Knows(w, s)
    ensures var r := Handle(w, config, s, reply); r.Continue? ==> Follows(s, r.state) && Within(w, config.scope, s, r.state)
  {
    if reply.Replied? {
      ScopeResolved(w, config.scope, s.root, s.current, TargetOf(reply.output));
    }
  }

  // The contexts of a run, one transfer after the other.
  ghost predicate Trail(states: seq<State>)
  {
    states != [] && forall i :: 0 <= i < |states| - 1 ==> Follows(states[i], states[i + 1])
  }

  ghost predicate TrailWithin(w: Agents, scope: Scope, states: seq<State>)
    requires Trail(states)
  {
    Knows(w, states[0]) && forall i :: 0 <= i < |states| - 1 ==> Within(w, scope, states[i], states[i + 1])
  }

  lemma TrailCons(w: Agents, scope: Scope, s: State, states: seq<State>)
    requires Trail(states) && TrailWithin(w, scope, states) && Follows(s, states[0]) && Within(w, scope, s, states[0])
    ensures Trail([s] + states) && TrailWithin(w, scope, [s] + states)
  {
    var all := [s] + states;
    forall i | 0 <= i < |all| - 1 ensures Follows(all[i], all[i + 1]) && Within(w, scope, all[i], all[i + 1]) {
      if i > 0 { assert all[i] == states[i - 1] && all[i + 1] == states[i - 1 + 1]; }
    }
  }

  // The first agent ran in the first context, every other one is the current agent of its context.
  ghost predicate RanAlong(ran: seq<Id>, states: seq<State>, agent: Id)
  {
    |ran| == |states| > 0 && ran[0] == agent && forall i :: 0 < i < |ran| ==> ran[i] == states[i].current
  }

  // The label of the transfer from context s to context t.
  predicate LabelIs(w: Agents, kind: TransferType, s: State, t: State)
  {
    t.current in w.partition && kind == Label(w, s, t.current)
  }

  ghost predicate Labelled(w: Agents, labels: seq<TransferType>, states: seq<State>)
  {
    |labels| + 1 == |states| && forall i :: 0 <= i < |labels| ==> LabelIs(w, labels[i], states[i], states[i + 1])
  }

  lemma LabelledCons(w: Agents, labels: seq<TransferType>, s: State, states: seq<State>)
    requires states != [] && Labelled(w, labels, states) && states[0].current in w.partition
    ensures Labelled(w, [Label(w, s, states[0].current)] + labels, [s] + states)
  {
    var all, more := [s] + states, [Label(w, s, states[0].current)] + labels;
    forall i | 0 <= i < |more| ensures LabelIs(w, more[i], all[i], all[i + 1]) {
      if i > 0 { assert LabelIs(w, labels[i - 1], states[i - 1], states[i - 1 + 1]); }
    }
  }

  lemma RanCons(ran: seq<Id>, states: seq<State>, s: State, agent: Id)
    requires states != [] && RanAlong(ran, states, states[0].current)
    ensures RanAlong([agent] + ran, [s] + states, agent) && ([s] + states)[|states|] == states[|states| - 1]
  {
    var all, more := [s] + states, [agent] + ran;
    forall i | 0 < i < |more| ensures more[i] == all[i].current {
      assert more[i] == ran[i - 1] && all[i] == states[i - 1];
    }
  }

  // A run is a trail from its first context to its last.
  lemma {:induction false} ExecTrail(w: Agents, config: Config, replies: nat -> Reply, s: State, n: nat, agent: Id)
    returns (states: seq<State>)
    requires Knows(w, s)
    ensures Trail(states) && TrailWithin(w, config.scope, states) && states[0] == s
    ensures var r := Exec(w, config, replies, s, n, agent); states[|states| - 1] == r.state && RanAlong(r.ran, states, agent)
    ensures Labelled(w, Labels(w, config, replies, s, n), states)
    decreases Max(s.max - |s.history|, 0)
  {
    ExecUnfold(w, config, replies, s, n, agent);
    var next := Handle(w, config, s, replies(n));
    if next.Stop? {
      states := [s];
    } else {
      HandleFollows(w, config, s, replies(n));
      var rest := ExecTrail(w, config, replies, next.state, n + 1, next.state.current);
      TrailCons(w, config.scope, s, rest);
      RanCons(Exec(w, config, replies, next.state, n + 1, next.state.current).ran, rest, s, agent);
      LabelledCons(w, Labels(w, config, replies, next.state, n + 1), s, rest);
      states := [s] + rest;
    }
  }

  // The transfers between two contexts of one run.
  function Since(s: State, t: State): seq<Transfer>
    requires |s.history| <= |t.history|
  {
    t.history[|s.history|..]
  }

  // Record i leads from the current agent of context i to that of context i + 1.
  ghost predicate Linked(records: seq<Transfer>, states: seq<State>)
  {
    |records| < |states| &&
    forall i :: 0 <= i < |records| ==> records[i].from == states[i].current && records[i].to == states[i + 1].current
  }

  // The k-th context of a trail: its history is the first context's and the k transfers so far.
  ghost predicate Recorded(states: seq<State>, k: nat)
    requires k < |states|
  {
    var s, t := states[0], states[k];
    && t.max == s.max && t.root == s.root && (k > 0 ==> |t.history| <= t.max)
    && |t.history| == |s.history| + k && s.history <= t.history && Linked(Since(s, t), states)
  }

  lemma {:induction false} TrailRecorded(states: seq<State>, k: nat)
    requires Trail(states) && k < |states|
    ensures Recorded(states, k)
    decreases k
  {
    if k > 0 {
      TrailRecorded(states, k - 1);
      var s, t, u := states[0], states[k - 1], states[k];
      assert Follows(states[k - 1], states[k - 1 + 1]);
      assert Since(s, u) == Since(s, t) + [u.history[|t.history|]];
    }
  }

  lemma {:induction false} HistoryStays(states: seq<State>, i: nat, k: nat)
    requires Trail(states) && i <= k < |states|
    ensures states[i].history <= states[k].history
    decreases k
  {
    if i < k {
      HistoryStays(states, i, k - 1);
      assert Follows(states[k - 1], states[k - 1 + 1]);
    }
  }

  // ---------------------------------------------------------------- budget

  lemma RecordedBudget(states: seq<State>)
    requires states != [] && Recorded(states, |states| - 1)
    ensures |states| <= Max(states[0].max - |states[0].history|, 0) + 1
  {
    if |states| > 1 { assert |states[|states| - 1].history| <= states[0].max; }
  }

  // Every run ends, one agent runs per transfer plus the first, and transfers stay within the
  // budget, whatever the agents answer.
  lemma Budget(w: Agents, config: Config, replies: nat -> Reply, s: State, n: nat, agent: Id)
    requires Knows(w, s)
    ensures var r := Exec(w, config, replies, s, n, agent);
            && s.history <= r.state.history && r.state.max == s.max && r.state.root == s.root
            && |r.ran| == |r.state.history| - |s.history| + 1
            && |r.ran| <= Max(s.max - |s.history|, 0) + 1
  {
    var states := ExecTrail(w, config, replies, s, n, agent);
    TrailRecorded(states, |states| - 1);
    RecordedBudget(states);
  }

  // ---------------------------------------------------------------- safety

  ghost predicate AllInScope(w: Agents, scope: Scope, root: Id, history: seq<Transfer>)
    requires ValidAgents(w)
  {
    forall i :: 0 <= i < |history| ==>
      history[i].from in w.name && history[i].to in w.name && InScope(w, scope, root, history[i].from, history[i].to)
  }

  // What holds of every context: a chain of truthful records from the start to the current agent,
  // each target in the scope of its source.
  ghost predicate Safe(w: Agents, scope: Scope, s: State, start: Id)
  {
    ValidAgents(w) && Chained(w, s, start) && AllInScope(w, scope, s.root, s.history)
  }

  lemma ScopeSnoc(w: Agents, scope: Scope, root: Id, history: seq<Transfer>, r: Transfer)
    requires ValidAgents(w) && AllInScope(w, scope, root, history)
    requires r.from in w.name && r.to in w.name && InScope(w, scope, root, r.from, r.to)
    ensures AllInScope(w, scope, root, history + [r])
  {}

  // One transfer keeps it.
  lemma StepSafe(w: Agents, scope: Scope, s: State, t: State, start: Id)
    requires Follows(s, t) && Within(w, scope, s, t) && Safe(w, scope, s, start)
    ensures Safe(w, scope, t, start)
  {
    var r := t.history[|s.history|];
    assert t.history == s.history + [r];
    ChainSnoc(w, s.history, start, r);
    ScopeSnoc(w, scope, s.root, s.history, r);
  }

  lemma {:induction false} TrailSafe(w: Agents, scope: Scope, states: seq<State>, k: nat, start: Id)
    requires Trail(states) && TrailWithin(w, scope, states) && k < |states| && Safe(w, scope, states[0], start)
    ensures Safe(w, scope, states[k], start)
    decreases k
  {
    if k > 0 {
      TrailSafe(w, scope, states, k - 1, start);
      assert Follows(states[k - 1], states[k - 1 + 1]) && Within(w, scope, states[k - 1], states[k - 1 + 1]);
      StepSafe(w, scope, states[k - 1], states[k], start);
    }
  }

  // Over every run: transfers form a chain from the start agent to the current one, records are
  // truthful, and each target lies in the scope of its source.
  lemma Safety(w: Agents, config: Config, replies: nat -> Reply, s: State, n: nat, agent: Id, start: Id)
    requires Knows(w, s) && Safe(w, config.scope, s, start)
    ensures Safe(w, config.scope, Exec(w, config, replies, s, n, agent).state, start)
  {
    var states := ExecTrail(w, config, replies, s, n, agent);
    TrailSafe(w, config.scope, states, |states| - 1, start);
  }

  lemma RanLinked(ran: seq<Id>, states: seq<State>, agent: Id, records: seq<Transfer>)
    requires RanAlong(ran, states, agent) && Linked(records, states) && |records| + 1 == |states|
    ensures |ran| == |records| + 1 && forall i :: 0 <= i < |records| ==> ran[i + 1] == records[i].to
  {}

  // The agents that ran are the first one and then the targets of the run's transfers.
  lemma RanTargets(w: Agents, config: Config, replies: nat -> Reply, s: State, n: nat, agent: Id)
    requires Knows(w, s)
    ensures var r := Exec(w, config, replies, s, n, agent);
            s.history <= r.state.history &&
            var records := Since(s, r.state);
            |r.ran| == |records| + 1 && r.ran[0] == agent && forall i :: 0 <= i < |records| ==> r.ran[i + 1] == records[i].to
  {
    var r := Exec(w, config, replies, s, n, agent);
    var states := ExecTrail(w, config, replies, s, n, agent);
    TrailRecorded(states, |states| - 1);
    RanLinked(r.ran, states, agent, Since(s, r.state));
  }

  // ---------------------------------------------------------------- labels and reports

  lemma LabelWithin(w: Agents, scope: Scope, s: State, t: State)
    requires Follows(s, t) && Within(w, scope, s, t) && s.partition == w.partition[s.current]
    ensures t.history[|s.history|].kind == Label(w, s, t.current)
  {}

  // The i-th record of a trail is the one made by its i-th transfer.
  lemma RecordAt(states: seq<State>, i: nat)
    requires Trail(states) && i + 1 < |states|
    ensures Recorded(states, |states| - 1) && Recorded(states, i) && Follows(states[i], states[i + 1])
    ensures Since(states[0], states[|states| - 1])[i] == states[i + 1].history[|states[i].history|]
  {
    TrailRecorded(states, i);
    TrailRecorded(states, |states| - 1);
    HistoryStays(states, i + 1, |states| - 1);
  }

  lemma LabelAt(w: Agents, scope: Scope, states: seq<State>, i: nat)
    requires Trail(states) && TrailWithin(w, scope, states) && states[0].partition == w.partition[states[0].current]
    requires i + 1 < |states|
    ensures Recorded(states, |states| - 1)
    ensures LabelIs(w, Since(states[0], states[|states| - 1])[i].kind, states[i], states[i + 1])
  {
    RecordAt(states, i);
    assert Within(w, scope, states[i], states[i + 1]);
    if i > 0 {
      assert Follows(states[i - 1], states[i - 1 + 1]) && Within(w, scope, states[i - 1], states[i - 1 + 1]);
    }
    LabelWithin(w, scope, states[i], states[i + 1]);
  }

  lemma TrailLabels(w: Agents, scope: Scope, states: seq<State>, labels: seq<TransferType>)
    requires Trail(states) && TrailWithin(w, scope, states) && states[0].partition == w.partition[states[0].current]
    requires Labelled(w, labels, states)
    ensures Recorded(states, |states| - 1)
    ensures var records := Since(states[0], states[|states| - 1]);
            |labels| == |records| && forall i :: 0 <= i < |labels| ==> labels[i] == records[i].kind
  {
    TrailRecorded(states, |states| - 1);
    var records := Since(states[0], states[|states| - 1]);
    forall i: nat | i < |labels| ensures labels[i] == records[i].kind {
      LabelAt(w, scope, states, i);
      assert LabelIs(w, labels[i], states[i], states[i + 1]);
    }
  }

  // Every label of a run agrees with the recorded kind of its transfer.
  lemma LabelsRecorded(w: Agents, config: Config, replies: nat -> Reply, s: State, n: nat, agent: Id)
    requires Knows(w, s) && s.partition == w.partition[s.current]
    ensures var labels, t := Labels(w, config, replies, s, n), Exec(w, config, replies, s, n, agent).state;
            s.history <= t.history &&
            var records := Since(s, t);
            |labels| == |records| && forall i :: 0 <= i < |labels| ==> labels[i] == records[i].kind
  {
    var states := ExecTrail(w, config, replies, s, n, agent);
    TrailLabels(w, config.scope, states, Labels(w, config, replies, s, n));
  }

  // A reply after which nothing more runs decides the result: the answer if it asks for no transfer,
  // and an error in every other case: the agent failed, or asked for a transfer that was not made.
  ghost predicate Decides(config: Config, last: Reply, result: Result)
  {
    && (result.Done? <==> last.Replied? && !(config.allowTransfer && IsTransferRequest(last.output)))
    && (result.Done? ==> result.output == last.output)
  }

  lemma StopDecides(w: Agents, config: Config, s: State, reply: Reply)
    requires Knows(w, s)
    ensures var next := Handle(w, config, s, reply); next.Stop? ==> Decides(config, reply, next.result)
  {}

  lemma ReportDecides(w: Agents, config: Config, last: Reply, o: Outcome)
    requires Knows(w, o.state) && Decides(config, last, o.result)
    ensures Decides(config, last, WithReport(w, o))
  {}

  lemma StopResult(w: Agents, config: Config, replies: nat -> Reply, s: State, n: nat, agent: Id)
    requires Knows(w, s) && Handle(w, config, s, replies(n)).Stop?
    ensures var r := Exec(w, config, replies, s, n, agent); |r.ran| == 1 && Decides(config, replies(n), r.result)
  {
    StopDecides(w, config, s, replies(n));
  }

  lemma ContinueResult(w: Agents, config: Config, replies: nat -> Reply, s: State, n: nat, agent: Id, t: State, last: Reply)
    requires Knows(w, s) && Knows(w, t) && Handle(w, config, s, replies(n)) == Continue(t)
    requires Decides(config, last, Exec(w, config, replies, t, n + 1, t.current).result)
    ensures var r, rest := Exec(w, config, replies, s, n, agent), Exec(w, config, replies, t, n + 1, t.current);
            |r.ran| == |rest.ran| + 1 && Decides(config, last, r.result)
  {
    ReportDecides(w, config, last, Exec(w, config, replies, t, n + 1, t.current));
  }

  // The last agent that ran decides the result of the run.
  lemma {:induction false} ResultOf(w: Agents, config: Config, replies: nat -> Reply, s: State, n: nat, agent: Id) returns (last: nat)
    requires Knows(w, s)
    ensures var r := Exec(w, config, replies, s, n, agent);
            |r.ran| == last - n + 1 && Decides(config, replies(last), r.result)
    decreases Max(s.max - |s.history|, 0)
  {
    match Handle(w, config, s, replies(n)) {
      case Stop(_) =>
        StopResult(w, config, replies, s, n, agent);
        last := n;
      case Continue(t) =>
        last := ResultOf(w, config, replies, t, n + 1, t.current);
        ContinueResult(w, config, replies, s, n, agent, t, replies(last));
    }
  }

  // A result carries transfer metadata exactly when a transfer happened, and then it is that of the
  // final context.
  lemma Reported(w: Agents, config: Config, replies: nat -> Reply, s: State, n: nat, agent: Id)
    requires Knows(w, s)
    ensures var r := Exec(w, config, replies, s, n, agent);
            r.result.Done? ==>
              && (r.result.transferred.Some? <==> |r.ran| > 1)
              && (|r.ran| > 1 ==>
                    var report := r.result.transferred.value;
                    && report.path == PathNames(w, r.state) && report.count == |r.state.history|
                    && (report.crossPartition <==> Crossed(r.state.history)))
    decreases Max(s.max - |s.history|, 0)
  {
    ExecUnfold(w, config, replies, s, n, agent);
    var next := Handle(w, config, s, replies(n));
    if next.Continue? {
      CountCrossed(Exec(w, config, replies, next.state, n + 1, next.state.current).state.history);
      RanTargets(w, config, replies, next.state, n + 1, next.state.current);
    }
  }

  // ---------------------------------------------------------------- entering with another agent

  // A truthful record of a transfer between two agents, the second in the scope of the first.
  ghost predicate Describes(w: Agents, scope: Scope, root: Id, r: Transfer, from: Id, to: Id)
    requires ValidAgents(w)
  {
    r.from == from && r.to == to && Truthful(w, r) && InScope(w, scope, root, from, to)
  }

  // The records of a run describe it: each names the agent that ran before the transfer and the one
  // that ran after it.
  ghost predicate Followed(w: Agents, scope: Scope, root: Id, ran: seq<Id>, records: seq<Transfer>)
    requires ValidAgents(w)
  {
    |ran| == |records| + 1 && forall i :: 0 <= i < |records| ==> Describes(w, scope, root, records[i], ran[i], ran[i + 1])
  }

  lemma TrailFollowedIff(w: Agents, scope: Scope, states: seq<State>, ran: seq<Id>, agent: Id, records: seq<Transfer>)
    requires Trail(states) && TrailWithin(w, scope, states) && RanAlong(ran, states, agent) && Recorded(states, |states| - 1)
    requires records == Since(states[0], states[|states| - 1])
    ensures Followed(w, scope, states[0].root, ran, records)
            <==> agent == states[0].current || states[|states| - 1].history == states[0].history
  {
    assert records == [] <==> states[|states| - 1].history == states[0].history;
    forall i: nat | i < |records| ensures Describes(w, scope, states[0].root, records[i], states[i].current, states[i + 1].current) {
      RecordAt(states, i);
      assert Within(w, scope, states[i], states[i + 1]);
    }
    if Followed(w, scope, states[0].root, ran, records) && records != [] {
      assert Describes(w, scope, states[0].root, records[0], ran[0], ran[0 + 1]);
    }
    if agent == states[0].current {
      forall i: nat | i < |records| ensures Describes(w, scope, states[0].root, records[i], ran[i], ran[i + 1]) {
        assert ran[i] == states[i].current && ran[i + 1] == states[i + 1].current;
      }
    }
  }

  // ExecuteRemote runs an agent in whatever context there is and does not make it the current one.
  // The records describe the run exactly when it was the current one, or nothing is transferred.
  lemma FollowedIff(w: Agents, config: Config, replies: nat -> Reply, s: State, n: nat, agent: Id)
    requires Knows(w, s)
    ensures var r := Exec(w, config, replies, s, n, agent);
            s.history <= r.state.history &&
            (Followed(w, config.scope, s.root, r.ran, Since(s, r.state)) <==> agent == s.current || r.state.history == s.history)
  {
    var states := ExecTrail(w, config, replies, s, n, agent);
    var t, ran := states[|states| - 1], Exec(w, config, replies, s, n, agent).ran;
    TrailRecorded(states, |states| - 1);
    TrailFollowedIff(w, config.scope, states, ran, agent, Since(s, t));
  }

  // What an answer leads to when no invocation was ever started: a request that names a target is
  // looked up from a context that is not there.
  function Orphaned(config: Config, reply: Reply): (r: Option<Result>)
    ensures r.None? <==>
              reply.Replied? && config.allowTransfer && IsTransferRequest(reply.output) && TargetOf(reply.output) != ""
  {
    match reply
    case Failed(_) => Some(Error)
    case Replied(o) =>
      if !(config.allowTransfer && IsTransferRequest(o)) then Some(Done(o, None))
      else if TargetOf(o) == "" then Some(Error)
      else None
  }

  // A context and the number of agents run when it was reached.
  datatype Visit = Visit(context: State, executions: nat)

  ghost predicate EntryAt(w: Agents, config: Config, replies: nat -> Reply, visits: seq<Visit>, entries: seq<Id>, i: nat)
    requires i < |entries| && i + 1 < |visits|
  {
    var v := visits[i];
    Knows(w, v.context) &&
    var o := Exec(w, config, replies, v.context, v.executions, entries[i]);
    visits[i + 1] == Visit(o.state, v.executions + |o.ran|)
  }

  // One agent after another is run in the same context.
  ghost predicate Session(w: Agents, config: Config, replies: nat -> Reply, visits: seq<Visit>, entries: seq<Id>)
  {
    |visits| == |entries| + 1 &&
    forall i {:trigger EntryAt(w, config, replies, visits, entries, i)} :: 0 <= i < |entries| ==>
      EntryAt(w, config, replies, visits, entries, i)
  }

  lemma EntryBudget(w: Agents, config: Config, replies: nat -> Reply, visits: seq<Visit>, entries: seq<Id>, i: nat)
    requires i < |entries| && i + 1 < |visits| && EntryAt(w, config, replies, visits, entries, i)
    ensures Uncounted(visits[i], visits[i + 1], 1)
  {
    Budget(w, config, replies, visits[i].context, visits[i].executions, entries[i]);
  }

  // From one visit to a later one: transfers stay within what was left of the limit, and k more
  // agents ran than transfers were made.
  predicate Uncounted(v: Visit, u: Visit, k: nat)
  {
    var s, t := v.context, u.context;
    && s.history <= t.history && t.max == s.max && |t.history| <= |s.history| + Max(s.max - |s.history|, 0)
    && u.executions == v.executions + k + |t.history| - |s.history|
  }

  lemma {:induction false} UncountedRun(visits: seq<Visit>, k: nat)
    requires k < |visits| && forall i :: 0 <= i < |visits| - 1 ==> Uncounted(visits[i], visits[i + 1], 1)
    ensures Uncounted(visits[0], visits[k], k)
    decreases k
  {
    if k > 0 {
      UncountedRun(visits, k - 1);
      assert Uncounted(visits[k - 1], visits[k - 1 + 1], 1);
      UncountedTrans(visits[0], visits[k - 1], visits[k], k - 1);
    }
  }

  // The limit is on transfers: all entries together transfer within it, but every entry runs one
  // agent more, so it does not bound the number of agents run.
  lemma EntriesUncounted(w: Agents, config: Config, replies: nat -> Reply, visits: seq<Visit>, entries: seq<Id>)
    requires Session(w, config, replies, visits, entries)
    ensures Uncounted(visits[0], visits[|entries|], |entries|)
  {
    forall i | 0 <= i < |visits| - 1 ensures Uncounted(visits[i], visits[i + 1], 1) {
      assert EntryAt(w, config, replies, visits, entries, i);
      EntryBudget(w, config, replies, visits, entries, i);
    }
    UncountedRun(visits, |entries|);
  }

  lemma UncountedTrans(a: Visit, b: Visit, c: Visit, k: nat)
    requires Uncounted(a, b, k) && Uncounted(b, c, 1)
    ensures Uncounted(a, c, k + 1)
  {}

  // ---------------------------------------------------------------- two agents

  // Agent 0, "root", with one sub-agent 1, "child".
  const PAIR := Agents(Forest(map[0 := None, 1 := Some(0)], map[0 := [1], 1 := []]),
                       map[0 := "root", 1 := "child"], map[0 := "p", 1 := "p"])

  // The agents ask for `target` once and then answer.
  function AskOnce(target: string): nat -> Reply
  {
    n => Replied(if n == 0 then Output(Some(map["transfer_requested" := Flag(true), "target_agent" := Word(target)]), "")
                 else Output(None, "done"))
  }

  function OneTransfer(scope: Scope): Config { Config(true, scope, 1, "") }

  lemma PairValid()
    ensures ValidAgents(PAIR) && KnownParents(PAIR.forest) && Root(PAIR.forest, 0) == 0 && Root(PAIR.forest, 1) == 0
  {
    var f := PAIR.forest;
    assert f.subs[0][0] == 1;
    assert Chain(f, 0, {}) == [0] && Chain(f, 0, {1}) == [0];
    assert {} + {1} == {1};
    assert Chain(f, 1, {}) == [1] + Chain(f, 0, {1}) == [1, 0];
  }

  // One transfer from s to t, after which the target answers.
  lemma OneStep(s: State, scope: Scope, target: string, t: State, agent: Id)
    requires ValidAgents(PAIR) && Knows(PAIR, s) && Knows(PAIR, t)
    requires Handle(PAIR, OneTransfer(scope), s, AskOnce(target)(0)) == Continue(t)
    ensures var r := Exec(PAIR, OneTransfer(scope), AskOnce(target), s, 0, agent);
            r.state == t && r.ran == [agent, t.current] && r.result.Done? && r.result.transferred == Some(ReportOf(PAIR, t))
  {
    ExecUnfold(PAIR, OneTransfer(scope), AskOnce(target), s, 0, agent);
    ExecUnfold(PAIR, OneTransfer(scope), AskOnce(target), t, 1, t.current);
  }

  // The root is the current agent, and the child is run remotely and asks for itself by name.  The
  // sub-agents of the root are searched, although the agent that ran has none, and the record says
  // that the root, which never ran, transferred.
  lemma RemoteMisrecorded(input: Input)
    ensures ValidAgents(PAIR)
    ensures var s := StartState(PAIR, OneTransfer(SubAgents), 0, input);
            var r := Exec(PAIR, OneTransfer(SubAgents), AskOnce("child"), s, 0, 1);
            && r.ran == [1, 1] && |r.state.history| == 1 && r.state.history[0].from == 0
            && !InScope(PAIR, SubAgents, s.root, 1, 1) && !Followed(PAIR, SubAgents, s.root, r.ran, r.state.history)
  {
    PairValid();
    var s := StartState(PAIR, OneTransfer(SubAgents), 0, input);
    assert FindSubAgent(PAIR, 0, "child") == Some(1);
    var t := Transferred(PAIR, s, 1, "").value;
    assert Handle(PAIR, OneTransfer(SubAgents), s, AskOnce("child")(0)) == Continue(t);
    OneStep(s, SubAgents, "child", t, 1);
    FollowedIff(PAIR, OneTransfer(SubAgents), AskOnce("child"), s, 0, 1);
    assert Since(s, t) == t.history;
  }

  // ---------------------------------------------------------------- the interceptor

  class AutoFlow {
    const agents: Agents
    const config: Config
    const replies: nat -> Reply           // the answers of the agents, execution by execution
    var rootAgent: Id
    var ctx: InvocationContext?           // null before the first invocation
    var ran: seq<Id>                      // the agents run so far

    constructor (agents: Agents, config: Config, replies: nat -> Reply, rootAgent: Id)
      ensures this.agents == agents && this.config == config && this.replies == replies && ran == []
      ensures this.rootAgent == rootAgent && ctx == null
    {
      this.agents, this.config, this.replies, this.rootAgent, ran, ctx := agents, config, replies, rootAgent, [], null;
    }

    ghost predicate Ready()
      reads this, ctx
    {
      ctx != null && Knows(agents, ctx.Value()) && rootAgent == ctx.root
    }

    // Starts an invocation at an agent; the root is looked up in the hierarchy.
    method Execute(agent: Id, input: Input) returns (r: Result)
      requires ValidAgents(agents) && agent in agents.name
      modifies this
      ensures Ready() && fresh(ctx)
      ensures Ran(agents, config, replies, StartState(agents, config, agent, input), agent, old(ran), r, ctx.Value(), ran)
    {
      ConsistentClosed(agents.forest);
      RootKnown(agents.forest, agent);
      rootAgent := Root(agents.forest, agent);
      ctx := new InvocationContext(State(Some(input), rootAgent, rootAgent, [], 10, agents.partition[rootAgent], "", map[]));
      ctx.max := config.maxTransfers;
      ctx.current := agent;
      ctx.partition := agents.partition[agent];
      if config.node != "" {
        ctx.node := config.node;
      }
      assert ctx.Value() == StartState(agents, config, agent, input);
      r := ExecuteWithTransfer(agent);
    }

    // Runs an agent in the context of the last invocation, which stays at its current agent.  No
    // result stands for the nil dereference when there was none.
    method ExecuteRemote(target: Id) returns (r: Option<Result>)
      requires ctx != null ==> Ready()
      modifies ctx, this`ran
      ensures ctx == null ==> ran == old(ran) + [target] && r == Orphaned(config, replies(|old(ran)|))
      ensures ctx != null ==>
                Ready() && r.Some? && Ran(agents, config, replies, old(ctx.Value()), target, old(ran), r.value, ctx.Value(), ran)
    {
      if ctx == null {
        var reply := replies(|ran|);
        ran := ran + [target];
        if reply.Failed? {
          return Some(Error);
        }
        if config.allowTransfer && IsTransferRequest(reply.output) {
          return if TargetOf(reply.output) == "" then Some(Error) else None;
        }
        return Some(Done(reply.output, None));
      }
      var result := ExecuteWithTransfer(target);
      r := Some(result);
    }

    method ExecuteWithTransfer(agent: Id) returns (r: Result)
      requires Ready()
      modifies ctx, this`ran
      ensures Ready() && Ran(agents, config, replies, old(ctx.Value()), agent, old(ran), r, ctx.Value(), ran)
      decreases Max(ctx.max - |ctx.history|, 0), 3
    {
      ghost var state, before := ctx.Value(), ran;
      var reply := replies(|ran|);
      ran := ran + [agent];
      ghost var base, next := ran, Handle(agents, config, state, reply);
      r := React(reply);
      RanDealtWith(agents, config, replies, state, agent, before, next, base, r, ctx.Value(), ran);
    }

    // What follows an agent's answer.
    method React(reply: Reply) returns (r: Result)
      requires Ready()
      modifies ctx, this`ran
      ensures Ready()
      ensures DealtWith(agents, config, replies, old(ctx.Value()), Handle(agents, config, old(ctx.Value()), reply), old(ran),
                        r, ctx.Value(), ran)
      decreases Max(ctx.max - |ctx.history|, 0), 2
    {
      if reply.Failed? {
        return Error;
      }
      if config.allowTransfer && IsTransferRequest(reply.output) {
        r := HandleTransferRequest(reply.output);
      } else {
        r := Done(reply.output, None);
      }
    }

    method HandleTransferRequest(output: Output) returns (r: Result)
      requires Ready() && config.allowTransfer && IsTransferRequest(output)
      modifies ctx, this`ran
      ensures Ready()
      ensures DealtWith(agents, config, replies, old(ctx.Value()), Handle(agents, config, old(ctx.Value()), Replied(output)), old(ran),
                        r, ctx.Value(), ran)
      decreases Max(ctx.max - |ctx.history|, 0), 1
    {
      if TargetOf(output) == "" {
        return Error;
      }
      ScopeResolved(agents, config.scope, rootAgent, ctx.current, TargetOf(output));
      var target := FindAgentInScope(agents, config.scope, rootAgent, ctx.current, TargetOf(output));
      if target.None? {
        return Error;
      }
      r := ExecuteTransfer(target.value, ReasonOf(output));
    }

    method ExecuteTransfer(target: Id, reason: string) returns (r: Result)
      requires Ready() && target in agents.name
      modifies ctx, this`ran
      ensures Ready()
      ensures var moved := Transferred(agents, old(ctx.Value()), target, reason);
              DealtWith(agents, config, replies, old(ctx.Value()), if moved.Some? then Continue(moved.value) else Stop(Error), old(ran),
                        r, ctx.Value(), ran)
      decreases Max(ctx.max - |ctx.history|, 0), 0
    {
      var ok := ctx.TransferTo(agents, target, reason);
      if !ok {
        return Error;
      }
      r := ExecuteWithTransfer(target);
      if r.Done? {
        var path := ctx.GetTransferPath(agents);
        var crossed := ctx.HasTransferredAcrossPartitions();
        r := Done(r.output, Some(Report(path, |ctx.history|, crossed)));
      }
    }
  }
}
