/** Directed graphs of agents, by id: paths, reachability, and the depth-first name search of
    pkg/agent/agent.go with its shared visited set. */
module Graph {
  import opened Text

  // Agents are identified by uuid, a number.
  type Id = nat

  // The links out of every agent, in list order.
  type Links = map<Id, seq<Id>>

  ghost predicate Closed(g: Links)
  {
    forall a, i :: a in g && 0 <= i < |g[a]| ==> g[a][i] in g
  }

  // ---------------------------------------------------------------- paths

  ghost predicate IsPath(g: Links, p: seq<Id>)
  {
    && p != [] && (forall i :: 0 <= i < |p| ==> p[i] in g)
    && forall i :: 0 <= i < |p| - 1 ==> p[i + 1] in g[p[i]]
  }

  ghost predicate PathTo(g: Links, a: Id, b: Id, p: seq<Id>)
  {
    IsPath(g, p) && p[0] == a && p[|p| - 1] == b
  }

  ghost predicate Reaches(g: Links, a: Id, b: Id)
  {
    exists p :: PathTo(g, a, b, p)
  }

  // By at least one link.
  ghost predicate ReachesByLink(g: Links, a: Id, b: Id)
  {
    exists p :: PathTo(g, a, b, p) && |p| > 1
  }

  lemma ReachesSelf(g: Links, a: Id)
    requires a in g
    ensures Reaches(g, a, a)
  {
    assert PathTo(g, a, a, [a]);
  }

  lemma PathCons(g: Links, a: Id, b: Id, c: Id, p: seq<Id>)
    requires a in g && c in g[a] && PathTo(g, c, b, p)
    ensures PathTo(g, a, b, [a] + p)
  {
    var q := [a] + p;
    forall i | 0 <= i < |q| - 1 ensures q[i + 1] in g[q[i]] {
      if i > 0 { assert q[i] == p[i - 1] && q[i + 1] == p[i - 1 + 1]; }
    }
  }

  lemma ReachesVia(g: Links, a: Id, c: Id, b: Id)
    requires a in g && c in g[a] && Reaches(g, c, b)
    ensures ReachesByLink(g, a, b) && Reaches(g, a, b)
  {
    var p :| PathTo(g, c, b, p);
    PathCons(g, a, b, c, p);
  }

  lemma PathJoin(g: Links, a: Id, b: Id, c: Id, p: seq<Id>, q: seq<Id>)
    requires PathTo(g, a, b, p) && PathTo(g, b, c, q)
    ensures PathTo(g, a, c, p + q[1..])
  {
    var r := p + q[1..];
    forall i | 0 <= i < |r| - 1 ensures r[i + 1] in g[r[i]] {
      if i >= |p| - 1 {
        var j := i - (|p| - 1);
        assert r[i] == q[j] && r[i + 1] == q[j + 1];
      }
    }
  }

  lemma ReachesTrans(g: Links, a: Id, b: Id, c: Id)
    requires Reaches(g, a, b) && Reaches(g, b, c)
    ensures Reaches(g, a, c)
    ensures ReachesByLink(g, a, b) || ReachesByLink(g, b, c) ==> ReachesByLink(g, a, c)
  {
    var p := if ReachesByLink(g, a, b) then var p :| PathTo(g, a, b, p) && |p| > 1; p
             else var p :| PathTo(g, a, b, p); p;
    var q := if ReachesByLink(g, b, c) then var q :| PathTo(g, b, c, q) && |q| > 1; q
             else var q :| PathTo(g, b, c, q); q;
    PathJoin(g, a, b, c, p, q);
  }

  lemma TailPath(g: Links, a: Id, b: Id, p: seq<Id>)
    requires PathTo(g, a, b, p) && |p| > 1
    ensures p[1] in g[a] && PathTo(g, p[1], b, p[1..])
  {
    forall i | 0 <= i < |p[1..]| - 1 ensures p[1..][i + 1] in g[p[1..][i]] {
      assert p[1..][i] == p[i + 1] && p[1..][i + 1] == p[i + 1 + 1];
    }
  }

  // A set closed under links holds everything its members reach.
  lemma {:induction false} ReachStays(g: Links, s: set<Id>, a: Id, b: Id, p: seq<Id>)
    requires PathTo(g, a, b, p) && a in s
    requires forall x, i :: x in s && x in g && 0 <= i < |g[x]| ==> g[x][i] in s
    ensures b in s
    decreases p
  {
    if |p| > 1 {
      TailPath(g, a, b, p);
      ReachStays(g, s, p[1], b, p[1..]);
    }
  }

  // ---------------------------------------------------------------- name search

  ghost predicate Searchable(g: Links, name: map<Id, string>)
  {
    Closed(g) && g.Keys <= name.Keys
  }

  function FirstNamed(kids: seq<Id>, name: map<Id, string>, target: string): (r: Option<Id>)
    requires forall i :: 0 <= i < |kids| ==> kids[i] in name
    ensures r.Some? ==> r.value in kids && name[r.value] == target
    ensures r.None? ==> forall i :: 0 <= i < |kids| ==> name[kids[i]] != target
  {
    if kids == [] then None
    else if name[kids[0]] == target then Some(kids[0])
    else FirstNamed(kids[1..], name, target)
  }

  // Direct children first, then each child's subtree in order; `seen` is the visited map the
  // branches share.  Returns the agent found and the visited set afterwards.
  function Find(g: Links, name: map<Id, string>, target: string, a: Id, seen: set<Id>): (r: (Option<Id>, set<Id>))
    requires Searchable(g, name) && a in g && seen <= g.Keys
    ensures seen + {a} <= r.1 <= g.Keys
    decreases g.Keys - seen, 0, 0
  {
    if a in seen then (None, seen)
    else
      match FirstNamed(g[a], name, target)
      case Some(child) => (Some(child), seen + {a})
      case None => FindBelow(g, name, target, g[a], seen + {a})
  }

  function FindBelow(g: Links, name: map<Id, string>, target: string, kids: seq<Id>, seen: set<Id>)
    : (r: (Option<Id>, set<Id>))
    requires Searchable(g, name) && seen <= g.Keys
    requires forall i :: 0 <= i < |kids| ==> kids[i] in g
    ensures seen <= r.1 <= g.Keys
    decreases g.Keys - seen, 1, |kids|
  {
    if kids == [] then (None, seen)
    else
      var (found, seen') := Find(g, name, target, kids[0], seen);
      if found.Some? then (found, seen') else FindBelow(g, name, target, kids[1..], seen')
  }

  // One turn of the loop over the children.
  lemma FindBelowTurn(g: Links, name: map<Id, string>, target: string, kids: seq<Id>, i: nat, seen: set<Id>)
    requires Searchable(g, name) && seen <= g.Keys && i < |kids|
    requires forall k :: 0 <= k < |kids| ==> kids[k] in g
    ensures var (found, seen') := Find(g, name, target, kids[i], seen);
            FindBelow(g, name, target, kids[i..], seen)
            == if found.Some? then (found, seen') else FindBelow(g, name, target, kids[i + 1..], seen')
  {
    assert kids[i..][1..] == kids[i + 1..];
  }

  // Whatever a failed search newly visited was searched through: its children are visited and
  // none of them has the name.
  ghost predicate Explored(g: Links, name: map<Id, string>, target: string, before: set<Id>, after: set<Id>)
    requires Searchable(g, name)
  {
    forall x, i :: x in after && x !in before && x in g && 0 <= i < |g[x]| ==>
      g[x][i] in after && name[g[x][i]] != target
  }

  lemma {:induction false} FindSound(g: Links, name: map<Id, string>, target: string, a: Id, seen: set<Id>)
    requires Searchable(g, name) && a in g && seen <= g.Keys
    ensures var r := Find(g, name, target, a, seen).0;
            r.Some? ==> r.value in g && name[r.value] == target && ReachesByLink(g, a, r.value)
    decreases g.Keys - seen, 0, 0
  {
    if a !in seen {
      match FirstNamed(g[a], name, target) {
        case Some(child) =>
          ReachesSelf(g, child);
          ReachesVia(g, a, child, child);
        case None =>
          FindBelowSound(g, name, target, a, g[a], seen + {a});
      }
    }
  }

  lemma {:induction false} FindBelowSound(g: Links, name: map<Id, string>, target: string, a: Id, kids: seq<Id>, seen: set<Id>)
    requires Searchable(g, name) && a in g && seen <= g.Keys
    requires forall i :: 0 <= i < |kids| ==> kids[i] in g[a]
    ensures var r := FindBelow(g, name, target, kids, seen).0;
            r.Some? ==> r.value in g && name[r.value] == target && ReachesByLink(g, a, r.value)
    decreases g.Keys - seen, 1, |kids|
  {
    if kids != [] {
      FindSound(g, name, target, kids[0], seen);
      var (found, seen') := Find(g, name, target, kids[0], seen);
      if found.Some? {
        ReachesVia(g, a, kids[0], found.value);
      } else {
        FindBelowSound(g, name, target, a, kids[1..], seen');
      }
    }
  }

  lemma {:induction false} FindExplores(g: Links, name: map<Id, string>, target: string, a: Id, seen: set<Id>)
    requires Searchable(g, name) && a in g && seen <= g.Keys
    requires Find(g, name, target, a, seen).0.None?
    ensures Explored(g, name, target, seen, Find(g, name, target, a, seen).1)
    decreases g.Keys - seen, 0, 0
  {
    if a !in seen {
      FindBelowExplores(g, name, target, g[a], seen + {a});
    }
  }

  lemma {:induction false} FindBelowExplores(g: Links, name: map<Id, string>, target: string, kids: seq<Id>, seen: set<Id>)
    requires Searchable(g, name) && seen <= g.Keys
    requires forall i :: 0 <= i < |kids| ==> kids[i] in g
    requires FindBelow(g, name, target, kids, seen).0.None?
    ensures var after := FindBelow(g, name, target, kids, seen).1;
            Explored(g, name, target, seen, after) && forall i :: 0 <= i < |kids| ==> kids[i] in after
    decreases g.Keys - seen, 1, |kids|
  {
    if kids != [] {
      FindExplores(g, name, target, kids[0], seen);
      FindBelowExplores(g, name, target, kids[1..], Find(g, name, target, kids[0], seen).1);
    }
  }

  // On any graph, cycles included, the search succeeds exactly when some agent below has the
  // name, and what it returns is such an agent.
  lemma FindComplete(g: Links, name: map<Id, string>, target: string, a: Id)
    requires Searchable(g, name) && a in g
    ensures var r := Find(g, name, target, a, {}).0;
            && (r.Some? ==> r.value in g && name[r.value] == target && ReachesByLink(g, a, r.value))
            && (r.None? ==> forall b :: b in g && ReachesByLink(g, a, b) ==> name[b] != target)
  {
    FindSound(g, name, target, a, {});
    var (r, after) := Find(g, name, target, a, {});
    if r.None? {
      FindExplores(g, name, target, a, {});
      forall b | b in g && ReachesByLink(g, a, b) ensures name[b] != target {
        var p :| PathTo(g, a, b, p) && |p| > 1;
        var front := p[..|p| - 1];
        var last := p[|p| - 2];
        assert PathTo(g, a, last, front) by {
          forall i | 0 <= i < |front| - 1 ensures front[i + 1] in g[front[i]] {
            assert front[i] == p[i] && front[i + 1] == p[i + 1];
          }
        }
        ReachStays(g, after, a, last, front);
        assert p[|p| - 2 + 1] in g[last];
      }
    }
  }

  // ---------------------------------------------------------------- which of several is found

  // Place i is the first with the name.
  ghost predicate FirstPlace(kids: seq<Id>, name: map<Id, string>, target: string, i: nat)
  {
    i < |kids| && kids[i] in name && name[kids[i]] == target && forall j :: 0 <= j < i ==> kids[j] in name && name[kids[j]] != target
  }

  lemma {:induction false} FirstNamedAt(kids: seq<Id>, name: map<Id, string>, target: string, i: nat)
    requires (forall k :: 0 <= k < |kids| ==> kids[k] in name) && FirstPlace(kids, name, target, i)
    ensures FirstNamed(kids, name, target) == Some(kids[i])
    decreases i
  {
    if i > 0 {
      assert name[kids[0]] != target;
      FirstNamedAt(kids[1..], name, target, i - 1);
    }
  }

  // A direct child with the name goes before every deeper agent, and the first of several wins.
  lemma DirectChildFirst(g: Links, name: map<Id, string>, target: string, a: Id, i: nat)
    requires Searchable(g, name) && a in g && FirstPlace(g[a], name, target, i)
    ensures Find(g, name, target, a, {}).0 == Some(g[a][i])
  {
    FirstNamedAt(g[a], name, target, i);
  }

  ghost predicate NamedBelow(g: Links, name: map<Id, string>, target: string, a: Id)
  {
    exists b :: b in name && name[b] == target && ReachesByLink(g, a, b)
  }

  // What earlier branches visited was searched through; only the agent itself is still open.
  ghost predicate SearchedBut(g: Links, name: map<Id, string>, target: string, a: Id, seen: set<Id>)
    requires Searchable(g, name)
  {
    a in seen && seen <= g.Keys &&
    forall x, i :: x in seen && x != a && 0 <= i < |g[x]| ==> g[x][i] in seen && name[g[x][i]] != target
  }

  // A branch from which the agent itself cannot be reached is not blocked by what was visited.
  lemma BranchFound(g: Links, name: map<Id, string>, target: string, a: Id, c: Id, seen: set<Id>)
    requires Searchable(g, name) && c in g && SearchedBut(g, name, target, a, seen)
    requires NamedBelow(g, name, target, c) && !Reaches(g, c, a)
    ensures Find(g, name, target, c, seen).0.Some?
  {
    var (r, after) := Find(g, name, target, c, seen);
    if r.None? {
      FindExplores(g, name, target, c, seen);
      var b :| b in name && name[b] == target && ReachesByLink(g, c, b);
      var p :| PathTo(g, c, b, p) && |p| > 1;
      var open := set z | z in after && Reaches(g, c, z);
      ReachesSelf(g, c);
      forall x, i | x in open && x in g && 0 <= i < |g[x]| ensures g[x][i] in open && name[g[x][i]] != target {
        ReachesSelf(g, g[x][i]);
        ReachesVia(g, x, g[x][i], g[x][i]);
        ReachesTrans(g, c, x, g[x][i]);
      }
      NeverNamed(g, name, target, open, c, b, p);
      assert false;
    }
  }

  lemma {:induction false} NeverNamed(g: Links, name: map<Id, string>, target: string, s: set<Id>, a: Id, b: Id, p: seq<Id>)
    requires Searchable(g, name) && PathTo(g, a, b, p) && |p| > 1 && a in s
    requires forall x, i :: x in s && x in g && 0 <= i < |g[x]| ==> g[x][i] in s && name[g[x][i]] != target
    ensures b in name && name[b] != target
    decreases p
  {
    TailPath(g, a, b, p);
    if |p| > 2 {
      NeverNamed(g, name, target, s, p[1], b, p[1..]);
    }
  }

  lemma FoundNamed(g: Links, name: map<Id, string>, target: string, c: Id, seen: set<Id>)
    requires Searchable(g, name) && c in g && seen <= g.Keys
    ensures Find(g, name, target, c, seen).0.Some? ==> NamedBelow(g, name, target, c)
  {
    FindSound(g, name, target, c, seen);
  }

  lemma {:induction false} FirstBranchFrom(g: Links, name: map<Id, string>, target: string, a: Id, k: nat, i: nat, seen: set<Id>)
    requires Searchable(g, name) && a in g && k <= i < |g[a]| && SearchedBut(g, name, target, a, seen)
    requires (forall j :: 0 <= j < i ==> !NamedBelow(g, name, target, g[a][j])) && NamedBelow(g, name, target, g[a][i])
    requires !Reaches(g, g[a][i], a)
    ensures var r := FindBelow(g, name, target, g[a][k..], seen).0; r.Some? && ReachesByLink(g, g[a][i], r.value)
    decreases i - k
  {
    var c := g[a][k];
    FindBelowTurn(g, name, target, g[a], k, seen);
    FindSound(g, name, target, c, seen);
    if k == i {
      BranchFound(g, name, target, a, c, seen);
    } else {
      var (r, after) := Find(g, name, target, c, seen);
      FoundNamed(g, name, target, c, seen);
      FindExplores(g, name, target, c, seen);
      FirstBranchFrom(g, name, target, a, k + 1, i, after);
    }
  }

  // With no direct child of that name, the search answers from the first branch that has one below,
  // unless that branch leads back to the agent.
  lemma FirstBranchWins(g: Links, name: map<Id, string>, target: string, a: Id, i: nat)
    requires Searchable(g, name) && a in g && (forall k :: 0 <= k < |g[a]| ==> name[g[a][k]] != target) && i < |g[a]|
    requires (forall j :: 0 <= j < i ==> !NamedBelow(g, name, target, g[a][j])) && NamedBelow(g, name, target, g[a][i])
    requires !Reaches(g, g[a][i], a)
    ensures var r := Find(g, name, target, a, {}).0; r.Some? && ReachesByLink(g, g[a][i], r.value)
  {
    assert FirstNamed(g[a], name, target).None?;
    assert g[a][0..] == g[a];
    assert SearchedBut(g, name, target, a, {} + {a});
    FirstBranchFrom(g, name, target, a, 0, i, {} + {a});
  }
}
