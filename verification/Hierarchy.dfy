/** The agent hierarchy of pkg/agent/agent.go as a value: parents and sub-agent lists by id,
    what adding and removing a sub-agent does to them, and the walks towards the root. */
module Hierarchy {
  import opened Text
  import opened Graph

  datatype Forest = Forest(parent: map<Id, Option<Id>>, subs: Links)

  // ---------------------------------------------------------------- invariant

  ghost predicate Distinct(s: seq<Id>)
  {
    forall i, j :: 0 <= i < j < |s| ==> s[i] != s[j]
  }

  ghost predicate KnownParents(f: Forest)
  {
    forall a :: a in f.parent && f.parent[a].Some? ==> f.parent[a].value in f.parent
  }

  // Whoever is listed under p has p as its parent ...
  ghost predicate ListedHasParent(f: Forest)
  {
    forall p, c :: p in f.subs && c in f.subs[p] ==> c in f.parent && f.parent[c] == Some(p)
  }

  // ... and whoever has p as its parent is listed under p.
  ghost predicate ParentLists(f: Forest)
  {
    forall c :: c in f.parent && f.parent[c].Some? ==>
      f.parent[c].value in f.subs && c in f.subs[f.parent[c].value]
  }

  ghost predicate ListedOnce(f: Forest)
  {
    forall p :: p in f.subs ==> Distinct(f.subs[p])
  }

  ghost predicate Consistent(f: Forest)
  {
    f.parent.Keys == f.subs.Keys && ListedHasParent(f) && ParentLists(f) && ListedOnce(f)
  }

  lemma ConsistentClosed(f: Forest)
    requires Consistent(f)
    ensures Closed(f.subs) && KnownParents(f)
  {
    forall a, i | a in f.subs && 0 <= i < |f.subs[a]| ensures f.subs[a][i] in f.subs {
      assert f.subs[a][i] in f.subs[a];
    }
  }

  // ---------------------------------------------------------------- adding and removing

  function Attach(f: Forest, a: Id, c: Id): Forest
    requires a in f.subs
  {
    Forest(f.parent[c := Some(a)], f.subs[a := f.subs[a] + [c]])
  }

  function Without(s: seq<Id>, c: Id): (r: seq<Id>)
  {
    if s == [] then [] else if s[0] == c then s[1..] else [s[0]] + Without(s[1..], c)
  }

  function Detach(f: Forest, a: Id, c: Id): Forest
    requires a in f.subs
  {
    Forest(f.parent[c := None], f.subs[a := Without(f.subs[a], c)])
  }

  // A call's effect and whether it succeeded.  No child stands for nil and for an agent that is
  // not backed by a BaseAgent.
  function AddSubAgent(f: Forest, a: Id, child: Option<Id>): (Forest, bool)
    requires a in f.subs && (child.Some? ==> child.value in f.parent)
  {
    if child.None? || f.parent[child.value].Some? then (f, false)
    else (Attach(f, a, child.value), true)
  }

  function RemoveSubAgent(f: Forest, a: Id, child: Option<Id>): (Forest, bool)
    requires a in f.subs
  {
    if child.None? || child.value !in f.subs[a] then (f, false)
    else (Detach(f, a, child.value), true)
  }

  datatype Call = Add(receiver: Id, child: Option<Id>) | Remove(receiver: Id, child: Option<Id>)

  ghost predicate Among(agents: set<Id>, calls: seq<Call>)
  {
    forall i :: 0 <= i < |calls| ==>
      calls[i].receiver in agents && (calls[i].child.Some? ==> calls[i].child.value in agents)
  }

  // Adding a parentless agent to itself waits for a lock the call already holds: it never
  // returns and changes nothing.
  predicate Blocks(f: Forest, call: Call)
  {
    call.Add? && call.child == Some(call.receiver) && call.receiver in f.parent && f.parent[call.receiver].None?
  }

  function Step(f: Forest, call: Call): Forest
    requires Consistent(f) && Among(f.parent.Keys, [call])
  {
    assert [call][0] == call;
    if Blocks(f, call) then f
    else
      match call
      case Add(a, child) => AddSubAgent(f, a, child).0
      case Remove(a, child) => RemoveSubAgent(f, a, child).0
  }

  lemma {:induction false} WithoutSpec(s: seq<Id>, c: Id)
    requires Distinct(s)
    ensures Distinct(Without(s, c))
    ensures forall x :: x in Without(s, c) <==> x in s && x != c
  {
    if s != [] {
      WithoutSpec(s[1..], c);
      forall i | 0 < i < |s| ensures s[i] == s[1..][i - 1] && s[i] in s[1..] {}
      assert s[0] !in s[1..];
    }
  }

  lemma AttachConsistent(f: Forest, a: Id, c: Id)
    requires Consistent(f) && a in f.parent && c in f.parent && f.parent[c].None?
    ensures Consistent(Attach(f, a, c))
  {
    var g := Attach(f, a, c);
    assert ListedOnce(g) by { assert c !in f.subs[a]; }
    assert ListedHasParent(g) by { assert forall p :: p in f.subs ==> c !in f.subs[p]; }
  }

  lemma DetachConsistent(f: Forest, a: Id, c: Id)
    requires Consistent(f) && a in f.parent && c in f.subs[a]
    ensures Consistent(Detach(f, a, c))
  {
    WithoutSpec(f.subs[a], c);
  }

  // Every call keeps the invariant and the set of agents.
  lemma StepConsistent(f: Forest, call: Call)
    requires Consistent(f) && Among(f.parent.Keys, [call])
    ensures Consistent(Step(f, call)) && Step(f, call).parent.Keys == f.parent.Keys
  {
    assert Among(f.parent.Keys, [call]) && [call][0] == call;
    if !Blocks(f, call) && call.child.Some? {
      var a, c := call.receiver, call.child.value;
      if call.Add? && f.parent[c].None? {
        AttachConsistent(f, a, c);
      } else if call.Remove? && c in f.subs[a] {
        DetachConsistent(f, a, c);
      }
    }
  }

  function Run(f: Forest, calls: seq<Call>): (r: Forest)
    requires Consistent(f) && Among(f.parent.Keys, calls)
    decreases calls
  {
    if calls == [] then f
    else
      assert Among(f.parent.Keys, [calls[0]]);
      StepConsistent(f, calls[0]);
      Run(Step(f, calls[0]), calls[1..])
  }

  // The invariant holds after every run of calls, in any order, failed calls included.
  lemma {:induction false} RunConsistent(f: Forest, calls: seq<Call>)
    requires Consistent(f) && Among(f.parent.Keys, calls)
    ensures Consistent(Run(f, calls)) && Run(f, calls).parent.Keys == f.parent.Keys
    decreases calls
  {
    if calls != [] {
      StepConsistent(f, calls[0]);
      RunConsistent(Step(f, calls[0]), calls[1..]);
    }
  }

  // A failed call changes nothing, and removing what was just added restores the forest.
  lemma RemoveUndoesAdd(f: Forest, a: Id, child: Option<Id>)
    requires Consistent(f) && a in f.parent && (child.Some? ==> child.value in f.parent)
    ensures var (g, ok) := AddSubAgent(f, a, child);
            if ok then RemoveSubAgent(g, a, child) == (f, true) else g == f
  {
    var (g, ok) := AddSubAgent(f, a, child);
    if ok {
      var c := child.value;
      assert c !in f.subs[a];
      assert g.subs[a][|f.subs[a]|] == c;
      WithoutLast(f.subs[a], c);
      assert g.parent[c := None] == f.parent;
      assert g.subs[a := f.subs[a]] == f.subs;
    }
  }

  lemma {:induction false} WithoutLast(s: seq<Id>, c: Id)
    requires c !in s
    ensures Without(s + [c], c) == s
  {
    if s != [] {
      assert (s + [c])[1..] == s[1..] + [c];
      WithoutLast(s[1..], c);
    }
  }

  lemma {:induction false} WithoutAt(s: seq<Id>, c: Id, i: nat)
    requires i < |s| && s[i] == c && c !in s[..i]
    ensures Without(s, c) == s[..i] + s[i + 1..]
  {
    if i > 0 {
      assert s[0] == s[..i][0];
      assert s[1..][..i - 1] == s[..i][1..];
      WithoutAt(s[1..], c, i - 1);
    }
  }

  // Everything about other agents is as before.
  ghost predicate ElsewhereSame(f: Forest, g: Forest, a: Id, c: Id)
  {
    && g.parent.Keys == f.parent.Keys && g.subs.Keys == f.subs.Keys
    && (forall x :: x in f.parent && x != c ==> g.parent[x] == f.parent[x])
    && (forall x :: x in f.subs && x != a ==> g.subs[x] == f.subs[x])
  }

  // Adding succeeds exactly for an agent without a parent, which then comes last under the receiver.
  lemma AddIff(f: Forest, a: Id, child: Option<Id>)
    requires Consistent(f) && a in f.parent && (child.Some? ==> child.value in f.parent)
    ensures var (g, ok) := AddSubAgent(f, a, child);
            && (ok <==> child.Some? && f.parent[child.value].None?) && (!ok ==> g == f)
            && (ok ==> g.parent[child.value] == Some(a) && g.subs[a] == f.subs[a] + [child.value] && ElsewhereSame(f, g, a, child.value))
  {}

  // Removing succeeds exactly for an agent whose parent is the receiver, and keeps the order of the
  // others.
  lemma RemoveIff(f: Forest, a: Id, child: Option<Id>)
    requires Consistent(f) && a in f.parent && (child.Some? ==> child.value in f.parent)
    ensures var (g, ok) := RemoveSubAgent(f, a, child);
            && (ok <==> child.Some? && f.parent[child.value] == Some(a)) && (!ok ==> g == f)
            && (ok ==> g.parent[child.value] == None && ElsewhereSame(f, g, a, child.value) && TakenOut(f.subs[a], child.value, g.subs[a]))
  {
    var (g, ok) := RemoveSubAgent(f, a, child);
    if ok {
      TakeOut(f.subs[a], child.value);
    }
  }

  // The second list is the first without its one occurrence of c.
  ghost predicate TakenOut(s: seq<Id>, c: Id, r: seq<Id>)
  {
    exists i :: 0 <= i < |s| && s[i] == c && r == s[..i] + s[i + 1..]
  }

  lemma TakeOut(s: seq<Id>, c: Id)
    requires c in s && Distinct(s)
    ensures TakenOut(s, c, Without(s, c))
  {
    var i :| 0 <= i < |s| && s[i] == c;
    assert c !in s[..i];
    WithoutAt(s, c, i);
  }

  // ---------------------------------------------------------------- ancestors and cycles

  // The agent n parent links up.
  function Up(f: Forest, a: Id, n: nat): Option<Id>
    decreases n
  {
    if n == 0 then Some(a)
    else if a in f.parent && f.parent[a].Some? then Up(f, f.parent[a].value, n - 1)
    else None
  }

  ghost predicate IsAncestorOrSelf(f: Forest, x: Id, a: Id)
  {
    exists n: nat :: Up(f, a, n) == Some(x)
  }

  ghost predicate Acyclic(f: Forest)
  {
    forall a, n: nat :: a in f.parent && n > 0 ==> Up(f, a, n) != Some(a)
  }

  lemma {:induction false} UpPlus(f: Forest, a: Id, m: nat, n: nat)
    ensures Up(f, a, m + n) == if Up(f, a, m).None? then None else Up(f, Up(f, a, m).value, n)
    decreases m
  {
    if m > 0 && a in f.parent && f.parent[a].Some? {
      UpPlus(f, f.parent[a].value, m - 1, n);
    }
  }

  lemma {:induction false} UpKnown(f: Forest, a: Id, n: nat)
    requires KnownParents(f) && a in f.parent
    ensures Up(f, a, n).Some? ==> Up(f, a, n).value in f.parent
    decreases n
  {
    if n > 0 && f.parent[a].Some? {
      UpKnown(f, f.parent[a].value, n - 1);
    }
  }

  // Attaching c changes the way up only beyond c.
  lemma {:induction false} UpAttach(f: Forest, a: Id, c: Id, x: Id, n: nat)
    requires a in f.subs
    requires forall i: nat :: i < n ==> Up(Attach(f, a, c), x, i) != Some(c)
    ensures Up(Attach(f, a, c), x, n) == Up(f, x, n)
    decreases n
  {
    var g := Attach(f, a, c);
    if n > 0 {
      assert Up(g, x, 0) != Some(c);
      if x in f.parent && f.parent[x].Some? {
        var p := f.parent[x].value;
        forall i: nat | i < n - 1 ensures Up(g, p, i) != Some(c) {
          assert Up(g, x, i + 1) == Up(g, p, i);
        }
        UpAttach(f, a, c, p, n - 1);
      }
    }
  }

  lemma {:induction false} FirstHit(f: Forest, x: Id, c: Id, n: nat) returns (k: nat)
    requires Up(f, x, n) == Some(c)
    ensures k <= n && Up(f, x, k) == Some(c) && forall i: nat :: i < k ==> Up(f, x, i) != Some(c)
  {
    k := 0;
    while Up(f, x, k) != Some(c)
      invariant k <= n && forall i: nat :: i < k ==> Up(f, x, i) != Some(c)
      decreases n - k
    {
      k := k + 1;
    }
  }

  // A cycle can be entered at any of its agents.
  lemma RotateCycle(f: Forest, x: Id, n: nat, k: nat, c: Id)
    requires k < n && Up(f, x, n) == Some(x) && Up(f, x, k) == Some(c)
    ensures Up(f, c, n) == Some(c)
  {
    var m: nat := n - k;
    assert Up(f, c, m) == Some(x) by { UpPlus(f, x, k, m); }
    UpPlus(f, c, m, k);
  }

  // Adding a child keeps the hierarchy acyclic exactly when the child is neither the receiver
  // nor above it.
  lemma AttachAcyclic(f: Forest, a: Id, c: Id)
    requires Consistent(f) && Acyclic(f) && a in f.parent && c in f.parent && f.parent[c].None?
    ensures Acyclic(Attach(f, a, c)) <==> !IsAncestorOrSelf(f, c, a)
  {
    var g := Attach(f, a, c);
    if IsAncestorOrSelf(f, c, a) {
      var m: nat :| Up(f, a, m) == Some(c);
      AncestorClosesCycle(f, a, c, m);
    } else {
      forall x, n: nat | x in g.parent && n > 0 ensures Up(g, x, n) != Some(x) {
        if Up(g, x, n) == Some(x) {
          CycleNeedsAncestor(f, a, c, x, n);
        }
      }
    }
  }

  lemma AncestorClosesCycle(f: Forest, a: Id, c: Id, m: nat)
    requires a in f.subs && c in f.parent && f.parent[c].None? && Up(f, a, m) == Some(c)
    ensures !Acyclic(Attach(f, a, c))
  {
    var g := Attach(f, a, c);
    if !(exists i: nat :: i < m && Up(g, a, i) == Some(c)) {
      UpAttach(f, a, c, a, m);
      assert Up(g, c, m + 1) == Up(g, a, m);
    } else {
      var i: nat :| i < m && Up(g, a, i) == Some(c);
      assert Up(g, c, i + 1) == Up(g, a, i);
    }
  }

  lemma CycleNeedsAncestor(f: Forest, a: Id, c: Id, x: Id, n: nat)
    requires Consistent(f) && Acyclic(f) && a in f.parent && c in f.parent && f.parent[c].None?
    requires n > 0 && x in f.parent && Up(Attach(f, a, c), x, n) == Some(x)
    ensures IsAncestorOrSelf(f, c, a)
  {
    var g := Attach(f, a, c);
    if forall i: nat :: i < n ==> Up(g, x, i) != Some(c) {
      UpAttach(f, a, c, x, n);
      assert false;
    } else {
      var k: nat :| k < n && Up(g, x, k) == Some(c);
      RotateCycle(g, x, n, k, c);
      assert Up(g, c, n) == Up(g, a, n - 1);
      var h := FirstHit(g, a, c, n - 1);
      UpAttach(f, a, c, a, h);
    }
  }

  lemma {:induction false} UpDetach(f: Forest, a: Id, c: Id, x: Id, n: nat)
    requires a in f.subs
    ensures Up(Detach(f, a, c), x, n).Some? ==> Up(Detach(f, a, c), x, n) == Up(f, x, n)
    decreases n
  {
    if n > 0 && x != c && x in f.parent && f.parent[x].Some? {
      UpDetach(f, a, c, f.parent[x].value, n - 1);
    }
  }

  lemma DetachAcyclic(f: Forest, a: Id, c: Id)
    requires Acyclic(f) && a in f.subs && c in f.parent
    ensures Acyclic(Detach(f, a, c))
  {
    var g := Detach(f, a, c);
    forall x, n: nat | x in g.parent && n > 0 ensures Up(g, x, n) != Some(x) {
      UpDetach(f, a, c, x, n);
    }
  }

  // ---------------------------------------------------------------- walks to the root

  // The agents GetPath, GetRoot and GetDepth walk through, from a upwards; a revisited agent is
  // the last one.
  function Chain(f: Forest, a: Id, seen: set<Id>): (r: seq<Id>)
    requires KnownParents(f) && a in f.parent && seen <= f.parent.Keys
    ensures r != [] && r[0] == a
    decreases f.parent.Keys - seen
  {
    if a in seen || f.parent[a].None? then [a]
    else [a] + Chain(f, f.parent[a].value, seen + {a})
  }

  lemma {:induction false} ChainUp(f: Forest, a: Id, seen: set<Id>, k: nat)
    requires KnownParents(f) && a in f.parent && seen <= f.parent.Keys && k < |Chain(f, a, seen)|
    ensures Up(f, a, k) == Some(Chain(f, a, seen)[k])
    decreases k
  {
    if k > 0 {
      ChainUp(f, f.parent[a].value, seen + {a}, k - 1);
    }
  }

  // The walk stops at a parentless agent or at one it has met before.
  lemma {:induction false} ChainEnd(f: Forest, a: Id, seen: set<Id>)
    requires KnownParents(f) && a in f.parent && seen <= f.parent.Keys
    ensures var r := Chain(f, a, seen); var last := r[|r| - 1];
            last in f.parent && (f.parent[last].None? || last in seen || exists k :: 0 <= k < |r| - 1 && r[k] == last)
    decreases f.parent.Keys - seen
  {
    if a !in seen && f.parent[a].Some? {
      ChainEnd(f, f.parent[a].value, seen + {a});
      var r, t := Chain(f, a, seen), Chain(f, f.parent[a].value, seen + {a});
      var last := t[|t| - 1];
      if last == a {
        assert r[0] == last;
      } else if exists k :: 0 <= k < |t| - 1 && t[k] == last {
        var k :| 0 <= k < |t| - 1 && t[k] == last;
        assert r[k + 1] == last;
      }
    }
  }

  function Depth(f: Forest, a: Id): nat
    requires KnownParents(f) && a in f.parent
  {
    |Chain(f, a, {})| - 1
  }

  function Root(f: Forest, a: Id): Id
    requires KnownParents(f) && a in f.parent
  {
    var r := Chain(f, a, {}); r[|r| - 1]
  }

  ghost predicate IsRootOf(f: Forest, r: Id, a: Id)
  {
    r in f.parent && f.parent[r].None? && IsAncestorOrSelf(f, r, a)
  }

  // The place of a parentless ancestor is determined.
  lemma TopUnique(f: Forest, a: Id, r: Id, m: nat, s: Id, n: nat)
    requires Up(f, a, m) == Some(r) && r in f.parent && f.parent[r].None?
    requires Up(f, a, n) == Some(s) && s in f.parent && f.parent[s].None?
    ensures m == n && r == s
  {
    if m < n {
      UpPlus(f, a, m, n - m);
    } else if n < m {
      UpPlus(f, a, n, m - n);
    }
  }

  // In an acyclic hierarchy every adjacent pair of the chain is a parent link, no agent occurs
  // twice, and the walk ends at the only parentless ancestor.
  lemma ChainToRoot(f: Forest, a: Id)
    requires KnownParents(f) && Acyclic(f) && a in f.parent
    ensures var r := Chain(f, a, {});
            && r[0] == a && Distinct(r)
            && (forall k :: 0 <= k < |r| ==> r[k] in f.parent)
            && (forall k :: 0 <= k < |r| - 1 ==> f.parent[r[k]] == Some(r[k + 1]))
    ensures IsRootOf(f, Root(f, a), a) && Up(f, a, Depth(f, a)) == Some(Root(f, a))
    ensures forall s :: IsRootOf(f, s, a) ==> s == Root(f, a)
  {
    var r := Chain(f, a, {});
    forall k | 0 <= k < |r| ensures Up(f, a, k) == Some(r[k]) && r[k] in f.parent {
      ChainUp(f, a, {}, k);
      UpKnown(f, a, k);
    }
    forall k | 0 <= k < |r| - 1 ensures f.parent[r[k]] == Some(r[k + 1]) {
      UpPlus(f, a, k, 1);
      assert Up(f, a, k + 1) == Some(r[k + 1]);
      assert Up(f, r[k], 1) == Some(r[k + 1]);
      if f.parent[r[k]].Some? { assert Up(f, r[k], 1) == Up(f, f.parent[r[k]].value, 0); }
    }
    forall i, j | 0 <= i < j < |r| ensures r[i] != r[j] {
      UpPlus(f, a, i, j - i);
    }
    ChainEnd(f, a, {});
    forall s | IsRootOf(f, s, a) ensures s == Root(f, a) {
      var n: nat :| Up(f, a, n) == Some(s);
      TopUnique(f, a, s, n, Root(f, a), |r| - 1);
    }
  }

  // Going down one link adds one to the depth.
  lemma DepthOfChild(f: Forest, p: Id, c: Id)
    requires KnownParents(f) && Acyclic(f) && c in f.parent && f.parent[c] == Some(p)
    ensures Depth(f, c) == Depth(f, p) + 1 && Root(f, c) == Root(f, p)
  {
    ChainToRoot(f, p);
    ChainToRoot(f, c);
    assert Up(f, c, Depth(f, p) + 1) == Up(f, p, Depth(f, p));
    TopUnique(f, c, Root(f, c), Depth(f, c), Root(f, p), Depth(f, p) + 1);
  }
}
