/** Transfer bookkeeping (pkg/agent/invocation_context.go): recording transfers within a budget,
    moving a context to another node, and cloning it. */
module InvocationContexts {
  import opened Text
  import opened Graph
  import opened Hierarchy

  // The agents a program knows: their hierarchy, names and partitions.
  datatype Agents = Agents(forest: Forest, name: map<Id, string>, partition: map<Id, string>)

  ghost predicate ValidAgents(w: Agents)
  {
    Consistent(w.forest) && w.forest.parent.Keys == w.name.Keys == w.partition.Keys
  }

  datatype TransferType = Local | Remote

  datatype Transfer = Transfer(from: Id, fromName: string, fromPartition: string,
                               to: Id, toName: string, toPartition: string,
                               reason: string, kind: TransferType, node: string)

  // Context values are their JSON texts.
  datatype Input = Input(taskId: string, instruction: string, context: Option<map<string, string>>)

  datatype State = State(input: Option<Input>, current: Id, root: Id, history: seq<Transfer>, max: int,
                         partition: string, node: string, metadata: map<string, string>)

  ghost predicate Knows(w: Agents, s: State)
  {
    ValidAgents(w) && s.current in w.name && s.root in w.name
  }

  // ---------------------------------------------------------------- transferring

  function KindOf(w: Agents, from: Id, to: Id): TransferType
    requires ValidAgents(w) && from in w.name && to in w.name
  {
    if w.partition[from] == w.partition[to] then Local else Remote
  }

  function Record(w: Agents, s: State, target: Id, reason: string): Transfer
    requires Knows(w, s) && target in w.name
  {
    Transfer(s.current, w.name[s.current], w.partition[s.current],
             target, w.name[target], w.partition[target], reason, KindOf(w, s.current, target), s.node)
  }

  // The state after a transfer, or nothing when the budget is used up.
  function Transferred(w: Agents, s: State, target: Id, reason: string): Option<State>
    requires Knows(w, s) && target in w.name
  {
    if |s.history| >= s.max then None
    else Some(s.(history := s.history + [Record(w, s, target, reason)], current := target, partition := w.partition[target]))
  }

  // ---------------------------------------------------------------- moving between nodes

  predicate Internal(key: string) { "__" <= key }

  function Visible(context: map<string, string>): map<string, string>
  {
    map k | k in context && !Internal(k) :: context[k]
  }

  function Outgoing(input: Input): Input
  {
    input.(context := match input.context case None => None case Some(c) => Some(Visible(c)))
  }

  datatype Wire = Wire(input: Option<Input>, current: Id, currentName: string, root: Id, rootName: string,
                       history: seq<Transfer>, max: int, partition: string, node: string, metadata: map<string, string>)

  function Serialize(w: Agents, s: State): Wire
    requires Knows(w, s)
  {
    Wire(match s.input case None => None case Some(i) => Some(Outgoing(i)),
         s.current, w.name[s.current], s.root, w.name[s.root], s.history, s.max, s.partition, s.node, s.metadata)
  }

  // `resolve` looks an agent up by id on the receiving node; the JSON codec is the identity, and
  // a missing input decodes to an empty one.
  function Deserialize(wire: Wire, resolve: Id -> Option<Id>): Option<State>
  {
    if resolve(wire.current).None? || resolve(wire.root).None? then None
    else Some(State(Some(if wire.input.None? then Input("", "", None) else wire.input.value),
                    resolve(wire.current).value, resolve(wire.root).value,
                    wire.history, wire.max, wire.partition, wire.node, wire.metadata))
  }

  ghost predicate Faithful(w: Agents, resolve: Id -> Option<Id>)
  {
    forall a :: a in w.name ==> resolve(a) == Some(a)
  }

  function AfterHop(s: State): State
  {
    s.(input := Some(if s.input.None? then Input("", "", None) else Outgoing(s.input.value)))
  }

  // A key of the program's own, by its first two characters.
  predicate Underscored(k: string) { |k| >= 2 && k[0] == '_' && k[1] == '_' }

  // What arrives of an input: everything but the internal context keys.
  ghost predicate InputArrived(sent: Input, got: Input)
  {
    && got.taskId == sent.taskId && got.instruction == sent.instruction && (got.context.None? <==> sent.context.None?)
    && (sent.context.Some? ==>
          forall k :: (k in got.context.value <==> k in sent.context.value && !Underscored(k)) &&
                      (k in got.context.value ==> got.context.value[k] == sent.context.value[k]))
  }

  // What arrives of a context, field by field.
  ghost predicate Arrived(s: State, t: State)
  {
    && t.current == s.current && t.root == s.root && t.history == s.history && t.max == s.max
    && t.partition == s.partition && t.node == s.node && t.metadata == s.metadata
    && t.input.Some? && (if s.input.Some? then InputArrived(s.input.value, t.input.value) else t.input.value == Input("", "", None))
  }

  lemma VisibleKeys(c: map<string, string>)
    ensures forall k :: k in Visible(c) <==> k in c && !Underscored(k)
    ensures Visible(Visible(c)) == Visible(c)
  {
    forall k: string ensures Internal(k) <==> Underscored(k) {
      if Underscored(k) { assert k[..2] == "__"; }
    }
  }

  // A hop keeps everything but the internal context keys, and a second hop changes nothing more.  It
  // fails exactly when the receiving node does not know the current or the root agent.
  lemma HopRoundTrip(w: Agents, s: State, resolve: Id -> Option<Id>)
    requires Knows(w, s)
    ensures Deserialize(Serialize(w, s), resolve).None? <==> resolve(s.current).None? || resolve(s.root).None?
    ensures Faithful(w, resolve) ==>
              Deserialize(Serialize(w, s), resolve) == Some(AfterHop(s)) && Arrived(s, AfterHop(s)) && AfterHop(AfterHop(s)) == AfterHop(s)
  {
    if s.input.Some? { OutgoingArrives(s.input.value); }
  }

  lemma OutgoingArrives(i: Input)
    ensures InputArrived(i, Outgoing(i)) && Outgoing(Outgoing(i)) == Outgoing(i)
  {
    if i.context.Some? { VisibleKeys(i.context.value); }
  }

  // What AutoFlow puts into the input of every agent it runs; the event bus only if there is one.
  function Injected(context: map<string, string>, invocation: string, scope: string, bus: Option<string>): map<string, string>
  {
    var c := context["__invocation_context__" := invocation]["__transfer_scope__" := scope];
    if bus.None? then c else c["__event_bus__" := bus.value]
  }

  // None of it leaves the node.
  lemma InjectedStays(context: map<string, string>, invocation: string, scope: string, bus: Option<string>)
    ensures Visible(Injected(context, invocation, scope, bus)) == Visible(context)
    ensures var c := Injected(context, invocation, scope, bus);
            && "__invocation_context__" in c && c["__invocation_context__"] == invocation
            && "__transfer_scope__" in c && c["__transfer_scope__"] == scope
            && (bus.Some? ==> "__event_bus__" in c && c["__event_bus__"] == bus.value)
  {
    assert "__" == "__invocation_context__"[..2] == "__transfer_scope__"[..2] == "__event_bus__"[..2];
    assert Internal("__invocation_context__") && Internal("__transfer_scope__") && Internal("__event_bus__");
    assert |"__invocation_context__"| == 22 && |"__transfer_scope__"| == 18 && |"__event_bus__"| == 13;
  }

  // ---------------------------------------------------------------- runs of transfers and hops

  datatype Op = Move(target: Id, reason: string) | Hop

  function Apply(w: Agents, s: State, op: Op): (r: State)
    requires Knows(w, s) && (op.Move? ==> op.target in w.name)
    ensures Knows(w, r)
  {
    match op
    case Hop => AfterHop(s)
    case Move(target, reason) =>
      match Transferred(w, s, target, reason) case None => s case Some(next) => next
  }

  ghost predicate KnownTargets(w: Agents, ops: seq<Op>)
  {
    forall i :: 0 <= i < |ops| && ops[i].Move? ==> ops[i].target in w.name
  }

  function Run(w: Agents, s: State, ops: seq<Op>): State
    requires Knows(w, s) && KnownTargets(w, ops)
    decreases ops
  {
    if ops == [] then s else Run(w, Apply(w, s, ops[0]), ops[1..])
  }

  function Max(a: int, b: int): int { if a > b then a else b }

  // However transfers and hops alternate, the history only grows, the limit never moves, and the
  // transfers of all nodes together stay within what was left of it.
  lemma {:induction false} BudgetAcrossHops(w: Agents, s: State, ops: seq<Op>)
    requires Knows(w, s) && KnownTargets(w, ops)
    ensures var r := Run(w, s, ops);
            && s.history <= r.history && r.max == s.max && r.root == s.root
            && |r.history| - |s.history| <= Max(s.max - |s.history|, 0)
    decreases ops
  {
    if ops != [] {
      BudgetAcrossHops(w, Apply(w, s, ops[0]), ops[1..]);
    }
  }

  // Each transfer starts where the one before ended, and the records agree with the agents.
  ghost predicate ChainFrom(w: Agents, history: seq<Transfer>, start: Id)
    requires ValidAgents(w)
  {
    forall i :: 0 <= i < |history| ==> ChainedAt(w, history, start, i)
  }

  ghost predicate ChainedAt(w: Agents, history: seq<Transfer>, start: Id, i: nat)
    requires ValidAgents(w) && i < |history|
  {
    Truthful(w, history[i]) && history[i].from == if i == 0 then start else history[i - 1].to
  }

  function EndOf(history: seq<Transfer>, start: Id): Id
  {
    if history == [] then start else history[|history| - 1].to
  }

  ghost predicate Chained(w: Agents, s: State, start: Id)
    requires ValidAgents(w)
  {
    && ChainFrom(w, s.history, start) && s.current == EndOf(s.history, start)
    && s.current in w.name && s.partition == w.partition[s.current]
  }

  ghost predicate Truthful(w: Agents, t: Transfer)
    requires ValidAgents(w)
  {
    && t.from in w.name && t.to in w.name && t.fromName == w.name[t.from] && t.toName == w.name[t.to]
    && t.fromPartition == w.partition[t.from] && t.toPartition == w.partition[t.to]
    && (t.kind == Local <==> t.fromPartition == t.toPartition)
  }

  ghost predicate RecordedIn(w: Agents, s: State, target: Id, reason: string, t: State)
    requires ValidAgents(w)
  {
    && |t.history| == |s.history| + 1 && s.history <= t.history
    && Describing(w, t.history[|s.history|], s, target, reason)
    && t.current == target && target in w.name && t.partition == w.partition[target]
    && t.input == s.input && t.root == s.root && t.max == s.max && t.node == s.node && t.metadata == s.metadata
  }

  ghost predicate Describing(w: Agents, r: Transfer, s: State, target: Id, reason: string)
    requires ValidAgents(w)
  {
    r.from == s.current && r.to == target && r.reason == reason && r.node == s.node && Truthful(w, r)
  }

  // A transfer succeeds exactly while the history is shorter than the limit, appends one record of who
  // was current, who takes over, why and where, and moves there; all else stays.
  lemma TransferRecorded(w: Agents, s: State, target: Id, reason: string)
    requires Knows(w, s) && target in w.name
    ensures Transferred(w, s, target, reason).Some? <==> |s.history| < s.max
    ensures Transferred(w, s, target, reason).Some? ==> RecordedIn(w, s, target, reason, Transferred(w, s, target, reason).value)
  {}

  lemma ChainSnoc(w: Agents, history: seq<Transfer>, start: Id, r: Transfer)
    requires ValidAgents(w) && ChainFrom(w, history, start) && Truthful(w, r) && r.from == EndOf(history, start)
    ensures ChainFrom(w, history + [r], start) && EndOf(history + [r], start) == r.to
  {
    var all := history + [r];
    forall i | 0 <= i < |all| ensures ChainedAt(w, all, start, i) {
      if i < |history| { assert ChainedAt(w, history, start, i); }
    }
  }

  lemma TransferChained(w: Agents, s: State, start: Id, target: Id, reason: string)
    requires Knows(w, s) && target in w.name && Chained(w, s, start)
    ensures Transferred(w, s, target, reason).Some? ==> Chained(w, Transferred(w, s, target, reason).value, start)
  {
    if |s.history| < s.max {
      ChainSnoc(w, s.history, start, Record(w, s, target, reason));
    }
  }

  lemma ApplyChained(w: Agents, s: State, start: Id, op: Op)
    requires Knows(w, s) && (op.Move? ==> op.target in w.name) && Chained(w, s, start)
    ensures Chained(w, Apply(w, s, op), start)
  {
    if op.Move? {
      TransferChained(w, s, start, op.target, op.reason);
    }
  }

  // The chain survives every run of transfers and hops.
  lemma {:induction false} RunChained(w: Agents, s: State, start: Id, ops: seq<Op>)
    requires Knows(w, s) && KnownTargets(w, ops) && Chained(w, s, start)
    ensures Chained(w, Run(w, s, ops), start)
    decreases ops
  {
    if ops != [] {
      ApplyChained(w, s, start, ops[0]);
      RunChained(w, Apply(w, s, ops[0]), start, ops[1..]);
    }
  }

  // ---------------------------------------------------------------- queries

  function PathNames(w: Agents, s: State): seq<string>
    requires Knows(w, s)
  {
    [w.name[s.root]] + Targets(s.history)
  }

  function Targets(history: seq<Transfer>): (r: seq<string>)
    ensures |r| == |history| && forall i :: 0 <= i < |r| ==> r[i] == history[i].toName
  {
    seq(|history|, i requires 0 <= i < |history| => history[i].toName)
  }

  ghost predicate Crossed(history: seq<Transfer>)
  {
    exists i :: 0 <= i < |history| && history[i].kind == Remote
  }

  function RemoteCount(history: seq<Transfer>): nat
  {
    if history == [] then 0
    else RemoteCount(history[..|history| - 1]) + (if history[|history| - 1].kind == Remote then 1 else 0)
  }

  lemma {:induction false} CountCrossed(history: seq<Transfer>)
    ensures RemoteCount(history) > 0 <==> Crossed(history)
  {
    if history != [] {
      var front := history[..|history| - 1];
      CountCrossed(front);
      if Crossed(front) {
        var i :| 0 <= i < |front| && front[i].kind == Remote;
        assert history[i].kind == Remote;
      } else if Crossed(history) {
        var i :| 0 <= i < |history| && history[i].kind == Remote;
        assert i < |front| ==> front[i].kind == Remote;
      }
    }
  }

  // The places of the remote transfers; their number is what is counted.
  function RemotePlaces(history: seq<Transfer>): set<int>
  {
    set i | 0 <= i < |history| && history[i].kind == Remote
  }

  lemma {:induction false} CountPlaces(history: seq<Transfer>)
    ensures RemoteCount(history) == |RemotePlaces(history)|
  {
    if history != [] {
      var n := |history| - 1;
      CountPlaces(history[..n]);
      assert RemotePlaces(history) == RemotePlaces(history[..n]) + if history[n].kind == Remote then {n} else {};
    }
  }

  class InvocationContext {
    var input: Option<Input>
    var current: Id
    var root: Id
    var history: seq<Transfer>
    var max: int
    var partition: string
    var node: string
    var metadata: map<string, string>

    function Value(): State
      reads this
    {
      State(input, current, root, history, max, partition, node, metadata)
    }

    constructor (s: State)
      ensures Value() == s
    {
      input, current, root, history := s.input, s.current, s.root, s.history;
      max, partition, node, metadata := s.max, s.partition, s.node, s.metadata;
    }

    method TransferTo(w: Agents, target: Id, reason: string) returns (ok: bool)
      requires Knows(w, Value()) && target in w.name
      modifies this
      ensures ok == Transferred(w, old(Value()), target, reason).Some?
      ensures Value() == if ok then Transferred(w, old(Value()), target, reason).value else old(Value())
    {
      if |history| >= max {
        return false;
      }
      var kind := if w.partition[current] == w.partition[target] then Local else Remote;
      var transfer := Transfer(current, w.name[current], w.partition[current],
                               target, w.name[target], w.partition[target], reason, kind, node);
      history := history + [transfer];
      current := target;
      partition := w.partition[target];
      return true;
    }

    method GetTransferPath(w: Agents) returns (path: seq<string>)
      requires Knows(w, Value())
      ensures path == PathNames(w, Value())
    {
      path := [w.name[root]];
      for i := 0 to |history|
        invariant path == [w.name[root]] + Targets(history[..i])
      {
        path := path + [history[i].toName];
      }
      assert history[..|history|] == history;
    }

    method HasTransferredAcrossPartitions() returns (crossed: bool)
      ensures crossed == (RemoteCount(history) > 0) && (crossed <==> Crossed(history))
    {
      CountCrossed(history);
      for i := 0 to |history|
        invariant forall k :: 0 <= k < i ==> history[k].kind != Remote
      {
        if history[i].kind == Remote {
          return true;
        }
      }
      return false;
    }

    method GetPartitionTransferCount() returns (count: nat)
      ensures count == RemoteCount(history) && (count > 0 <==> Crossed(history))
    {
      count := 0;
      for i := 0 to |history|
        invariant count == RemoteCount(history[..i])
      {
        assert history[..i + 1][..i] == history[..i];
        if history[i].kind == Remote {
          count := count + 1;
        }
      }
      assert history[..|history|] == history;
      CountCrossed(history);
    }

    // A separate context with the same content; an absent context map becomes an empty one.
    method Clone() returns (copy: InvocationContext)
      ensures fresh(copy)
      ensures CopyFields(Value(), copy.Value())
    {
      copy := new InvocationContext(Value().(input := CopyOf(input)));
    }
  }

  // A copy field by field; an absent context map is an empty one in the copy.
  ghost predicate CopyFields(s: State, t: State)
  {
    && t.current == s.current && t.root == s.root && t.history == s.history && t.max == s.max
    && t.partition == s.partition && t.node == s.node && t.metadata == s.metadata && (t.input.None? <==> s.input.None?)
    && (s.input.Some? ==>
          && t.input.value.taskId == s.input.value.taskId && t.input.value.instruction == s.input.value.instruction
          && t.input.value.context == Some(if s.input.value.context.None? then map[] else s.input.value.context.value))
  }

  function CopyOf(input: Option<Input>): Option<Input>
  {
    match input
    case None => None
    case Some(i) => Some(i.(context := Some(if i.context.None? then map[] else i.context.value)))
  }
}
