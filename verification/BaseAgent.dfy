/** BaseAgent objects (pkg/agent/agent.go): parent and sub-agent fields updated in place, and
    the searches and walks over them, each proved against the hierarchy as a value. */
module BaseAgents {
  import opened Text
  import opened Graph
  import opened Hierarchy

  class BaseAgent {
    const id: Id
    const name: string
    var parent: BaseAgent?
    var subAgents: seq<BaseAgent>

    constructor (id: Id, name: string)
      ensures this.id == id && this.name == name && parent == null && subAgents == []
    {
      this.id := id;
      this.name := name;
      parent := null;
      subAgents := [];
    }

    // Each field write changes the hierarchy in one place.
    method SetSubAgents(subs: seq<BaseAgent>, ghost world: World)
      requires InWorld(world) && this in world.Values
      requires forall k :: 0 <= k < |subs| ==> Resident(world, subs[k])
      modifies this`subAgents
      ensures InWorld(world)
      ensures Snapshot(world) == old(Snapshot(world)).(subs := old(Snapshot(world)).subs[id := Ids(subs)])
    {
      ghost var before := Snapshot(world);
      subAgents := subs;
      forall i | i in world ensures world[i].id == i && Settled(world, world[i]) {
        assert old(Settled(world, world[i]));
      }
      SnapshotIs(world, before.(subs := before.subs[id := Ids(subs)]));
    }

    method SetParent(newParent: BaseAgent?, ghost world: World)
      requires InWorld(world) && this in world.Values
      requires newParent != null ==> Resident(world, newParent)
      modifies this`parent
      ensures InWorld(world)
      ensures Snapshot(world) == old(Snapshot(world)).(parent := old(Snapshot(world)).parent[id := IdOf(newParent)])
    {
      ghost var before := Snapshot(world);
      parent := newParent;
      forall i | i in world ensures world[i].id == i && Settled(world, world[i]) {
        assert old(Settled(world, world[i]));
      }
      SnapshotIs(world, before.(parent := before.parent[id := IdOf(newParent)]));
    }

    // Writes this agent's sub-agent list and a child's parent, and nothing else.
    method Rewire(subs: seq<BaseAgent>, child: BaseAgent, newParent: BaseAgent?, ghost world: World)
      requires InWorld(world) && this in world.Values && child in world.Values
      requires newParent != null ==> Resident(world, newParent)
      requires forall k :: 0 <= k < |subs| ==> Resident(world, subs[k])
      modifies this, child
      ensures InWorld(world)
      ensures Snapshot(world)
              == Forest(old(Snapshot(world)).parent[child.id := IdOf(newParent)], old(Snapshot(world)).subs[id := Ids(subs)])
    {
      SetSubAgents(subs, world);
      child.SetParent(newParent, world);
    }

    // Adds a sub-agent.  On a parentless receiver itself the call would wait for its own lock.
    method AddSubAgent(child: BaseAgent?, ghost world: World) returns (ok: bool)
      requires InWorld(world) && this in world.Values && (child != null ==> child in world.Values)
      requires child == this ==> parent != null
      modifies {this} + (if child == null then {} else {child})
      ensures InWorld(world)
      ensures (Snapshot(world), ok) == Hierarchy.AddSubAgent(old(Snapshot(world)), id, IdOf(child))
    {
      if child == null || child.parent != null {
        return false;
      }
      assert Ids(subAgents + [child]) == Ids(subAgents) + [child.id];
      Rewire(subAgents + [child], child, this, world);
      return true;
    }

    method Parent(ghost world: World) returns (p: BaseAgent?)
      requires InWorld(world) && this in world.Values
      ensures p == parent && IdOf(p) == Snapshot(world).parent[id] && (p != null ==> Resident(world, p))
    {
      p := parent;
    }

    // The place of the first sub-agent with an id, or the number of sub-agents.
    method PlaceOf(target: Id) returns (i: nat)
      ensures i <= |subAgents| && target !in Ids(subAgents)[..i]
      ensures i < |subAgents| ==> Ids(subAgents)[i] == target
    {
      i := 0;
      while i < |subAgents| && subAgents[i].id != target
        invariant 0 <= i <= |subAgents| && target !in Ids(subAgents)[..i]
      {
        i := i + 1;
      }
    }

    // Removes the first sub-agent with the child's id.
    method RemoveSubAgent(child: BaseAgent?, ghost world: World) returns (ok: bool)
      requires InWorld(world) && this in world.Values && (child != null ==> child in world.Values)
      modifies {this} + (if child == null then {} else {child})
      ensures InWorld(world)
      ensures (Snapshot(world), ok) == Hierarchy.RemoveSubAgent(old(Snapshot(world)), id, IdOf(child))
    {
      if child == null {
        return false;
      }
      var i := PlaceOf(child.id);
      ghost var ids := Ids(subAgents);
      if i == |subAgents| {
        assert ids[..i] == ids;
        return false;
      }
      WithoutAt(ids, child.id, i);
      assert Ids(subAgents[..i] + subAgents[i + 1..]) == ids[..i] + ids[i + 1..];
      Rewire(subAgents[..i] + subAgents[i + 1..], child, null, world);
      return true;
    }

    // The first sub-agent with a name.
    method ChildNamed(target: string, ghost world: World) returns (found: BaseAgent?)
      requires InWorld(world) && this in world.Values
      ensures forall k :: 0 <= k < |subAgents| ==> Ids(subAgents)[k] in Names(world)
      ensures IdOf(found) == FirstNamed(Ids(subAgents), Names(world), target)
      ensures found != null ==> Resident(world, found)
    {
      ghost var names, ids := Names(world), Ids(subAgents);
      for i := 0 to |subAgents|
        invariant FirstNamed(ids, names, target) == FirstNamed(ids[i..], names, target)
      {
        if subAgents[i].name == target {
          return subAgents[i];
        }
      }
      return null;
    }

    // The recursive search; `visited` is the map all branches share.
    method FindFrom(target: string, visited: set<Id>, ghost world: World)
      returns (found: BaseAgent?, seen: set<Id>)
      requires InWorld(world) && this in world.Values && visited <= world.Keys
      requires Searchable(Snapshot(world).subs, Names(world))
      ensures (IdOf(found), seen) == Find(Snapshot(world).subs, Names(world), target, id, visited)
      ensures found != null ==> Resident(world, found)
      decreases world.Keys - visited, 0
    {
      if id in visited {
        return null, visited;
      }
      found := ChildNamed(target, world);
      if found != null {
        return found, visited + {id};
      }
      found, seen := FindInSubAgents(target, visited + {id}, world);
    }

    method FindInSubAgents(target: string, visited: set<Id>, ghost world: World)
      returns (found: BaseAgent?, seen: set<Id>)
      requires InWorld(world) && this in world.Values && visited <= world.Keys
      requires Searchable(Snapshot(world).subs, Names(world))
      ensures (IdOf(found), seen) == FindBelow(Snapshot(world).subs, Names(world), target, Snapshot(world).subs[id], visited)
      ensures found != null ==> Resident(world, found)
      decreases world.Keys - visited, 1
    {
      ghost var g, names := Snapshot(world).subs, Names(world);
      ghost var ids := g[id];
      found, seen := null, visited;
      for i := 0 to |subAgents|
        invariant found == null && visited <= seen <= world.Keys
        invariant FindBelow(g, names, target, ids, visited) == FindBelow(g, names, target, ids[i..], seen)
      {
        FindBelowTurn(g, names, target, ids, i, seen);
        found, seen := subAgents[i].FindFrom(target, seen, world);
        if found != null {
          return;
        }
      }
    }

    // Finds an agent below this one by name; null stands for the error.
    method FindAgent(target: string, ghost world: World) returns (found: BaseAgent?)
      requires InWorld(world) && this in world.Values
      ensures found != null ==> Resident(world, found) && found.name == target && ReachesByLink(Snapshot(world).subs, id, found.id)
      ensures found == null ==>
                forall b :: b in world && ReachesByLink(Snapshot(world).subs, id, b) ==> world[b].name != target
    {
      WorldSearchable(world);
      var seen;
      found, seen := FindFrom(target, {}, world);
      FindComplete(Snapshot(world).subs, Names(world), target, id);
    }

    method GetRoot(ghost world: World) returns (current: BaseAgent)
      requires InWorld(world) && this in world.Values
      ensures KnownParents(Snapshot(world))
      ensures Resident(world, current) && current.id == Root(Snapshot(world), id)
    {
      WorldSearchable(world);
      ghost var f := Snapshot(world);
      current := this;
      var visited: set<Id> := {};
      while true
        invariant Resident(world, current) && visited <= world.Keys
        invariant Last(Chain(f, current.id, visited)) == Last(Chain(f, id, {}))
        decreases world.Keys - visited
      {
        if current.id in visited {
          return;
        }
        visited := visited + {current.id};
        if current.parent == null {
          return;
        }
        current := current.parent;
      }
    }

    // Root first, this agent last.
    method GetPath(ghost world: World) returns (path: seq<BaseAgent>)
      requires InWorld(world) && this in world.Values
      ensures KnownParents(Snapshot(world))
      ensures Named(path, Reversed(Chain(Snapshot(world), id, {})))
    {
      WorldSearchable(world);
      ghost var f := Snapshot(world);
      ghost var all := Reversed(Chain(f, id, {}));
      ghost var left, got := all, [];
      path := [];
      var current: BaseAgent? := this;
      var visited: set<Id> := {};
      while current != null
        invariant visited <= world.Keys && (current != null ==> Resident(world, current))
        invariant Named(path, got) && left + got == all
        invariant left == if current == null then [] else Reversed(Chain(f, current.id, visited))
        decreases if current == null then 0 else 1, world.Keys - visited
      {
        var agent: BaseAgent := current;
        ghost var above := ReversedChain(f, agent.id, visited);
        Regroup(above, agent.id, got);
        NamedCons(agent, path, got);
        left, got := above, [agent.id] + got;
        path := [agent] + path;
        if agent.id in visited {
          current := null;
        } else {
          visited := visited + {agent.id};
          current := agent.Parent(world);
        }
      }
      assert got == all;
    }

    method GetDepth(ghost world: World) returns (depth: nat)
      requires InWorld(world) && this in world.Values
      ensures KnownParents(Snapshot(world))
      ensures depth == Depth(Snapshot(world), id)
    {
      WorldSearchable(world);
      ghost var f := Snapshot(world);
      depth := 0;
      var current: BaseAgent := this;
      var visited: set<Id> := {};
      while current.id !in visited
        invariant Resident(world, current) && visited <= world.Keys
        invariant depth + |Chain(f, current.id, visited)| == |Chain(f, id, {})|
        decreases world.Keys - visited
      {
        visited := visited + {current.id};
        if current.parent == null {
          break;
        }
        depth := depth + 1;
        current := current.parent;
      }
    }
  }

  // ---------------------------------------------------------------- the world of agents

  // All agents of a program by id; ids are unique.
  type World = map<Id, BaseAgent>

  ghost predicate Resident(w: World, a: BaseAgent) { a.id in w && w[a.id] == a }

  // The agent's links stay in the world.
  ghost predicate Settled(w: World, a: BaseAgent)
    reads a
  {
    && (a.parent != null ==> Resident(w, a.parent))
    && (forall k :: 0 <= k < |a.subAgents| ==> Resident(w, a.subAgents[k]))
  }

  ghost predicate InWorld(w: World)
    reads w.Values
  {
    forall i :: i in w ==> w[i].id == i && Settled(w, w[i])
  }

  function IdOf(a: BaseAgent?): Option<Id> { if a == null then None else Some(a.id) }

  function Ids(s: seq<BaseAgent>): (r: seq<Id>)
    ensures |r| == |s| && forall k :: 0 <= k < |s| ==> r[k] == s[k].id
  {
    seq(|s|, k requires 0 <= k < |s| => s[k].id)
  }

  ghost function Snapshot(w: World): Forest
    reads w.Values
  {
    Forest(map i | i in w :: IdOf(w[i].parent), map i | i in w :: Ids(w[i].subAgents))
  }

  ghost function Names(w: World): map<Id, string>
  {
    map i | i in w :: w[i].name
  }

  lemma WorldSearchable(w: World)
    requires InWorld(w)
    ensures Searchable(Snapshot(w).subs, Names(w)) && KnownParents(Snapshot(w))
  {
    var f := Snapshot(w);
    forall a, i | a in f.subs && 0 <= i < |f.subs[a]| ensures f.subs[a][i] in f.subs {
      assert Resident(w, w[a].subAgents[i]);
    }
  }

  function Reversed(s: seq<Id>): seq<Id>
  {
    if s == [] then [] else Reversed(s[1..]) + [s[0]]
  }

  lemma ReversedChain(f: Forest, a: Id, seen: set<Id>) returns (above: seq<Id>)
    requires KnownParents(f) && a in f.parent && seen <= f.parent.Keys
    ensures Reversed(Chain(f, a, seen)) == above + [a]
    ensures above == if a in seen || f.parent[a].None? then [] else Reversed(Chain(f, f.parent[a].value, seen + {a}))
  {
    var r := Chain(f, a, seen);
    above := Reversed(r[1..]);
    if a in seen || f.parent[a].None? {
      assert r[1..] == [];
    } else {
      assert r[1..] == Chain(f, f.parent[a].value, seen + {a});
    }
  }

  // The agents have these ids, in order.
  ghost predicate Named(path: seq<BaseAgent>, ids: seq<Id>)
  {
    |path| == |ids| && forall k :: 0 <= k < |path| ==> path[k].id == ids[k]
  }

  lemma NamedCons(a: BaseAgent, path: seq<BaseAgent>, ids: seq<Id>)
    requires Named(path, ids)
    ensures Named([a] + path, [a.id] + ids)
  {}

  lemma Regroup(above: seq<Id>, a: Id, got: seq<Id>)
    ensures (above + [a]) + got == above + ([a] + got)
  {}

  lemma {:induction false} ReversedAt(s: seq<Id>)
    ensures |Reversed(s)| == |s| && forall k :: 0 <= k < |s| ==> Reversed(s)[k] == s[|s| - 1 - k]
  {
    if s != [] {
      ReversedAt(s[1..]);
    }
  }

  function Last(s: seq<Id>): Id
    requires s != []
  {
    s[|s| - 1]
  }

  lemma SnapshotIs(w: World, f: Forest)
    requires f.parent.Keys == w.Keys == f.subs.Keys
    requires forall i :: i in w ==> f.parent[i] == IdOf(w[i].parent) && f.subs[i] == Ids(w[i].subAgents)
    ensures Snapshot(w) == f
  {
    assert Snapshot(w).parent == f.parent && Snapshot(w).subs == f.subs;
  }

  // On every hierarchy, cyclic or not: the path has one more agent than the depth, starts at what
  // GetRoot returns and ends at the agent itself.
  lemma WalksAgree(f: Forest, a: Id)
    requires KnownParents(f) && a in f.parent
    ensures var path := Reversed(Chain(f, a, {}));
            |path| == Depth(f, a) + 1 && path[0] == Root(f, a) && path[|path| - 1] == a
  {
    ReversedAt(Chain(f, a, {}));
  }
}
