/** The actor registry (pkg/actor/system.go) and the supervisor that restarts children through it
    (pkg/actor/supervisor.go), with every method atomic. */
module Supervisors {
  import opened Text
  import opened RestartWindow

  // Actor ids are only ever compared.
  type Address = nat

  // A running actor instance.
  type Pid = nat

  // The registry, every process ever spawned, and the supervisor's two tables.  A child's config is
  // its id, which is also its address.
  datatype Runtime = Runtime(
    actors: map<Address, Pid>,
    spawned: seq<Address>,         // the address of each process, by pid
    stopped: set<Pid>,
    configs: set<Address>,
    procs: map<Address, Pid>
  )

  const EMPTY := Runtime(map[], [], {}, {}, map[])

  // ---------------------------------------------------------------- operations

  function Spawn(r: Runtime, a: Address): Runtime
  {
    if a in r.actors then r else r.(actors := r.actors[a := |r.spawned|], spawned := r.spawned + [a])
  }

  function StopProcess(r: Runtime, p: Pid): Runtime { r.(stopped := r.stopped + {p}) }

  function StopTracked(r: Runtime, a: Address): Runtime
  {
    if a in r.procs then StopProcess(r, r.procs[a]) else r
  }

  function SpawnChild(r: Runtime, a: Address): Runtime
  {
    if a in r.actors then r
    else
      var s := Spawn(r, a);
      s.(configs := s.configs + {a}, procs := s.procs[a := s.actors[a]])
  }

  function Forget(r: Runtime, a: Address): Runtime { r.(configs := r.configs - {a}, procs := r.procs - {a}) }

  function StopChild(r: Runtime, a: Address): Runtime { Forget(StopTracked(r, a), a) }

  function RestartChild(r: Runtime, a: Address): Runtime
  {
    if a !in r.configs then r
    else
      var s := StopTracked(r, a);
      var t := Spawn(s.(actors := s.actors - {a}), a);
      t.(procs := t.procs[a := t.actors[a]])
  }

  function AllRegistered(r: Runtime): set<Pid> { set a | a in r.actors :: r.actors[a] }

  function StopSystem(r: Runtime): Runtime { r.(actors := map[], stopped := r.stopped + AllRegistered(r)) }

  datatype Op =
    | SpawnDirectly(a: Address)    // System.Spawn by anyone
    | Child(a: Address)            // SpawnChild
    | Register(a: Address)         // AddChild
    | StopOne(a: Address)          // StopChild
    | Unregister(a: Address)       // RemoveChild
    | Restart(a: Address)          // restartChild, on request or after a failure
    | Shutdown                     // System.Stop

  function Apply(r: Runtime, op: Op): Runtime
  {
    match op
    case SpawnDirectly(a) => Spawn(r, a)
    case Child(a) => SpawnChild(r, a)
    case Register(a) => r.(configs := r.configs + {a})
    case StopOne(a) => StopChild(r, a)
    case Unregister(a) => Forget(r, a)
    case Restart(a) => RestartChild(r, a)
    case Shutdown => StopSystem(r)
  }

  // ---------------------------------------------------------------- one live process per address

  ghost predicate Live(r: Runtime, p: Pid) { p < |r.spawned| && p !in r.stopped }

  ghost predicate OneLive(r: Runtime)
  {
    forall p: Pid, q: Pid :: Live(r, p) && Live(r, q) && r.spawned[p] == r.spawned[q] ==> p == q
  }

  // Tables name existing processes at their own address, and every live process is registered.
  ghost predicate Sound(r: Runtime)
  {
    && (forall a :: a in r.actors ==> r.actors[a] < |r.spawned| && r.spawned[r.actors[a]] == a)
    && (forall a :: a in r.procs ==> r.procs[a] < |r.spawned| && r.spawned[r.procs[a]] == a)
    && (forall p :: p in r.stopped ==> p < |r.spawned|)
    && (forall p: Pid :: Live(r, p) ==> r.spawned[p] in r.actors && r.actors[r.spawned[p]] == p)
  }

  lemma SoundOneLive(r: Runtime)
    requires Sound(r)
    ensures OneLive(r)
  {}

  // Restarting an address leaves at most one live process there: the registered one is stopped,
  // or it is the one the supervisor tracks and therefore stops.
  predicate RestartSafe(r: Runtime, a: Address)
  {
    a in r.configs && a in r.actors && r.actors[a] !in r.stopped ==> a in r.procs && r.procs[a] == r.actors[a]
  }

  predicate SafeOp(r: Runtime, op: Op) { op.Restart? ==> RestartSafe(r, op.a) }

  lemma SpawnSound(r: Runtime, a: Address)
    requires Sound(r)
    ensures Sound(Spawn(r, a))
  {}

  lemma StopTrackedSound(r: Runtime, a: Address)
    requires Sound(r)
    ensures Sound(StopTracked(r, a))
  {}

  // Dropping a registry entry is harmless once its process is stopped.
  lemma DropSound(r: Runtime, a: Address)
    requires Sound(r) && (a in r.actors ==> r.actors[a] in r.stopped)
    ensures Sound(r.(actors := r.actors - {a}))
  {
    var u := r.(actors := r.actors - {a});
    forall p: Pid | Live(u, p) ensures u.spawned[p] in u.actors && u.actors[u.spawned[p]] == p {
      assert Live(r, p);
    }
  }

  lemma TrackSound(r: Runtime, a: Address)
    requires Sound(r) && a in r.actors
    ensures Sound(r.(procs := r.procs[a := r.actors[a]]))
  {
    var u := r.(procs := r.procs[a := r.actors[a]]);
    forall p: Pid | Live(u, p) ensures u.spawned[p] in u.actors && u.actors[u.spawned[p]] == p {
      assert Live(r, p);
    }
  }

  lemma RestartSound(r: Runtime, a: Address)
    requires Sound(r) && RestartSafe(r, a) && a in r.configs
    ensures Sound(RestartChild(r, a))
  {
    var s := StopTracked(r, a);
    StopTrackedSound(r, a);
    DropSound(s, a);
    var u := s.(actors := s.actors - {a});
    SpawnSound(u, a);
    TrackSound(Spawn(u, a), a);
  }

  lemma ChildSound(r: Runtime, a: Address)
    requires Sound(r)
    ensures Sound(SpawnChild(r, a))
  {
    if a !in r.actors {
      SpawnSound(r, a);
      TrackSound(Spawn(r, a), a);
      SameTables(Spawn(r, a).(procs := Spawn(r, a).procs[a := Spawn(r, a).actors[a]]), SpawnChild(r, a));
    }
  }

  // Configurations do not matter, nor does forgetting what is tracked.
  lemma SameTables(r: Runtime, s: Runtime)
    requires Sound(r) && s.actors == r.actors && s.spawned == r.spawned && s.stopped == r.stopped
    requires forall a :: a in s.procs ==> a in r.procs && s.procs[a] == r.procs[a]
    ensures Sound(s)
  {
    forall p: Pid | Live(s, p) ensures s.spawned[p] in s.actors && s.actors[s.spawned[p]] == p {
      assert Live(r, p);
    }
  }

  lemma StopChildSound(r: Runtime, a: Address)
    requires Sound(r)
    ensures Sound(StopChild(r, a))
  {
    StopTrackedSound(r, a);
    SameTables(StopTracked(r, a), StopChild(r, a));
  }

  lemma ShutdownSound(r: Runtime)
    requires Sound(r)
    ensures Sound(StopSystem(r))
  {
    forall p: Pid ensures !Live(StopSystem(r), p) {
      if Live(StopSystem(r), p) { assert Live(r, p); }
    }
  }

  lemma ApplySound(r: Runtime, op: Op)
    requires Sound(r) && SafeOp(r, op)
    ensures Sound(Apply(r, op))
  {
    match op {
      case SpawnDirectly(a) => SpawnSound(r, a);
      case Child(a) => ChildSound(r, a);
      case StopOne(a) => StopChildSound(r, a);
      case Restart(a) => if a in r.configs { RestartSound(r, a); }
      case Shutdown => ShutdownSound(r);
      case Register(a) => SameTables(r, Apply(r, op));
      case Unregister(a) => SameTables(r, Apply(r, op));
    }
  }

  // A restart keeps at most one live process per address exactly when it is safe.
  lemma RestartIff(r: Runtime, a: Address)
    requires Sound(r)
    ensures OneLive(RestartChild(r, a)) <==> RestartSafe(r, a)
  {
    if RestartSafe(r, a) {
      if a in r.configs { RestartSound(r, a); SoundOneLive(RestartChild(r, a)); } else { SoundOneLive(r); }
    } else {
      var t := RestartChild(r, a);
      var p, q := r.actors[a], |r.spawned|;
      assert Live(t, p) && Live(t, q) && t.spawned[p] == t.spawned[q];
    }
  }

  // A safe restart of a supervised address replaces its process: the new one is the only live one
  // there, tracked and registered, and other addresses keep theirs.
  lemma RestartReplaces(r: Runtime, a: Address)
    requires Sound(r) && RestartSafe(r, a) && a in r.configs
    ensures var t := RestartChild(r, a); var next := |r.spawned|;
            && Live(t, next) && t.spawned[next] == a && t.procs[a] == next && t.actors[a] == next
            && (forall p: Pid :: Live(t, p) && t.spawned[p] == a ==> p == next)
            && (forall p: Pid :: p < next && r.spawned[p] != a ==> (Live(t, p) <==> Live(r, p)))
  {
    RestartSound(r, a);
  }

  // Stopping a child stops the process the supervisor tracks for it, and ends supervision; a
  // shutdown leaves nothing alive and every address free.
  lemma StopsWhatItSays(r: Runtime, a: Address)
    requires Sound(r)
    ensures var t := StopChild(r, a);
            && (a in r.procs ==> !Live(t, r.procs[a])) && a !in t.configs && a !in t.procs
            && (forall p: Pid :: p < |r.spawned| && r.spawned[p] != a ==> (Live(t, p) <==> Live(r, p)))
    ensures forall p: Pid :: !Live(StopSystem(r), p)
    ensures var t := StopSystem(r); t.spawned == r.spawned && t.configs == r.configs && t.procs == r.procs && Live(Spawn(t, a), |r.spawned|)
  {
    forall p: Pid ensures !Live(StopSystem(r), p) {
      if Live(StopSystem(r), p) { assert Live(r, p); }
    }
  }

  // A process spawned at a free address is new, live and registered there; a taken address changes
  // nothing.
  lemma SpawnIff(r: Runtime, a: Address)
    requires Sound(r)
    ensures a in r.actors ==> Spawn(r, a) == r && SpawnChild(r, a) == r
    ensures a !in r.actors ==>
              var s, p := Spawn(r, a), |r.spawned|;
              && Live(s, p) && s.spawned == r.spawned + [a] && s.stopped == r.stopped && s.actors == r.actors[a := p]
              && s.configs == r.configs && s.procs == r.procs
  {}

  // A spawned child is supervised: it is registered, tracked and configured, nothing else changes, and
  // a restart replaces it.
  lemma ChildSupervised(r: Runtime, a: Address)
    requires Sound(r) && a !in r.actors
    ensures var s, p := SpawnChild(r, a), |r.spawned|;
            && Live(s, p) && s.actors == r.actors[a := p] && s.procs == r.procs[a := p] && s.configs == r.configs + {a}
            && s.spawned == r.spawned + [a] && s.stopped == r.stopped
            && Live(RestartChild(s, a), p + 1) && !Live(RestartChild(s, a), p)
  {
    ChildSound(r, a);
    RestartReplaces(SpawnChild(r, a), a);
  }

  // Registering and forgetting a child touch no process, and a forgotten child is not restarted.
  lemma RegistrationOnly(r: Runtime, a: Address)
    ensures var s := Apply(r, Register(a));
            s.configs == r.configs + {a} && s.procs == r.procs && s.actors == r.actors && s.spawned == r.spawned && s.stopped == r.stopped
    ensures var s := Apply(r, Unregister(a));
            && s.configs == r.configs - {a} && s.procs == r.procs - {a}
            && s.actors == r.actors && s.spawned == r.spawned && s.stopped == r.stopped && RestartChild(s, a) == s
  {}

  // ---------------------------------------------------------------- disciplined runs

  // Supervised addresses are run by their supervisor only: nobody spawns there directly, and an
  // address is registered without spawning only while nothing is registered there.
  predicate Disciplined(r: Runtime, op: Op)
  {
    match op
    case SpawnDirectly(a) => a !in r.configs
    case Register(a) => a !in r.actors
    case _ => true
  }

  // What the supervisor tracks is what the registry has.
  ghost predicate Tracked(r: Runtime)
  {
    forall a :: a in r.configs && a in r.actors ==> a in r.procs && r.procs[a] == r.actors[a]
  }

  lemma ApplyTracked(r: Runtime, op: Op)
    requires Sound(r) && Tracked(r) && Disciplined(r, op)
    ensures Tracked(Apply(r, op)) && SafeOp(r, op)
  {}

  ghost predicate DisciplinedRun(r: Runtime, ops: seq<Op>)
    decreases ops
  {
    ops == [] || (Disciplined(r, ops[0]) && DisciplinedRun(Apply(r, ops[0]), ops[1..]))
  }

  function Run(r: Runtime, ops: seq<Op>): Runtime
    decreases ops
  {
    if ops == [] then r else Run(Apply(r, ops[0]), ops[1..])
  }

  // Across any disciplined run of spawns, stops, restarts and shutdowns, each address has at most
  // one live process at every moment.
  lemma {:induction false} RunOneLive(r: Runtime, ops: seq<Op>, k: nat)
    requires Sound(r) && Tracked(r) && DisciplinedRun(r, ops) && k <= |ops|
    ensures OneLive(Run(r, ops[..k])) && Sound(Run(r, ops[..k])) && Tracked(Run(r, ops[..k]))
    decreases k
  {
    if k == 0 {
      SoundOneLive(r);
    } else {
      ApplyTracked(r, ops[0]);
      ApplySound(r, ops[0]);
      RunOneLive(Apply(r, ops[0]), ops[1..], k - 1);
      assert ops[..k][1..] == ops[1..][..k - 1];
    }
  }

  // Without the discipline a restart can leave a second process running.
  lemma RegisterThenRestart(a: Address)
    ensures !OneLive(Run(EMPTY, [SpawnDirectly(a), Register(a), Restart(a)]))
  {
    var ops := [SpawnDirectly(a), Register(a), Restart(a)];
    var r1 := Apply(EMPTY, ops[0]);
    var r2 := Apply(r1, ops[1]);
    var r3 := Apply(r2, ops[2]);
    assert Run(r2, [Restart(a)]) == Run(r3, []) == r3;
    assert ops[1..] == [Register(a), Restart(a)] && ops[1..][1..] == [Restart(a)];
    assert Run(r1, ops[1..]) == Run(r2, [Restart(a)]);
    assert Live(r3, 0) && Live(r3, 1) && r3.spawned[0] == r3.spawned[1];
  }

  // ---------------------------------------------------------------- the objects

  class System {
    var actors: map<Address, Pid>
    var spawned: seq<Address>
    var stopped: set<Pid>

    constructor ()
      ensures actors == map[] && spawned == [] && stopped == {}
    {
      actors, spawned, stopped := map[], [], {};
    }

    method Spawn(a: Address) returns (pid: Option<Pid>)
      modifies this
      ensures pid == if a in old(actors) then None else Some(|old(spawned)|)
      ensures actors == if pid.None? then old(actors) else old(actors)[a := pid.value]
      ensures spawned == (if pid.None? then old(spawned) else old(spawned) + [a]) && stopped == old(stopped)
    {
      if a in actors {
        return None;
      }
      pid := Some(|spawned|);
      actors := actors[a := |spawned|];
      spawned := spawned + [a];
    }

    method StopProcess(p: Pid)
      modifies this`stopped
      ensures stopped == old(stopped) + {p}
    {
      stopped := stopped + {p};
    }

    // Clears the registry, then stops every process that was in it.
    method Stop()
      modifies this
      ensures actors == map[] && spawned == old(spawned)
      ensures stopped == old(stopped) + (set a | a in old(actors) :: old(actors)[a])
    {
      var rest := actors.Keys;
      ghost var all := actors;
      var processes := actors;
      actors := map[];
      while rest != {}
        invariant rest <= all.Keys && actors == map[] && spawned == old(spawned)
        invariant stopped == old(stopped) + (set a | a in all.Keys - rest :: all[a])
        decreases rest
      {
        var a :| a in rest;
        StopProcess(processes[a]);
        rest := rest - {a};
      }
      assert all.Keys - rest == all.Keys;
    }
  }

  class Supervisor {
    var configs: set<Address>
    var procs: map<Address, Pid>
    var restartCount: nat
    var lastRestart: int
    const restartLimit: int
    const restartWindow: int

    constructor (limit: int, window: int, now: int)
      ensures configs == {} && procs == map[] && LimiterValue() == Limiter(limit, window, 0, now)
    {
      configs, procs, restartCount, lastRestart, restartLimit, restartWindow := {}, map[], 0, now, limit, window;
    }

    function LimiterValue(): Limiter
      reads this
    {
      Limiter(restartLimit, restartWindow, restartCount, lastRestart)
    }

    function Value(system: System): Runtime
      reads this, system
    {
      Runtime(system.actors, system.spawned, system.stopped, configs, procs)
    }

    method SpawnChild(system: System, a: Address) returns (ok: bool)
      modifies system, this`configs, this`procs
      ensures ok == (a !in old(system.actors))
      ensures Value(system) == Apply(old(Value(system)), Child(a))
    {
      var pid := system.Spawn(a);
      if pid.None? {
        return false;
      }
      configs := configs + {a};
      if a in system.actors {
        procs := procs[a := system.actors[a]];
      }
      return true;
    }

    method AddChild(system: System, a: Address)
      modifies this`configs
      ensures Value(system) == Apply(old(Value(system)), Register(a))
    {
      configs := configs + {a};
    }

    method RemoveChild(system: System, a: Address)
      modifies this`configs, this`procs
      ensures Value(system) == Apply(old(Value(system)), Unregister(a))
    {
      configs := configs - {a};
      procs := procs - {a};
    }

    method StopChild(system: System, a: Address)
      modifies system`stopped, this`configs, this`procs
      ensures Value(system) == Apply(old(Value(system)), StopOne(a))
    {
      var proc := if a in procs then Some(procs[a]) else None;
      configs := configs - {a};
      procs := procs - {a};
      if proc.Some? {
        system.StopProcess(proc.value);
      }
    }

    method RestartChild(system: System, a: Address)
      modifies system, this`procs
      ensures Value(system) == Apply(old(Value(system)), Restart(a))
    {
      if a !in configs {
        return;
      }
      if a in procs {
        system.StopProcess(procs[a]);
      }
      system.actors := system.actors - {a};
      var pid := system.Spawn(a);
      if pid.Some? && a in system.actors {
        procs := procs[a := system.actors[a]];
      }
    }

    // A failure notice; its payload may not be an address.
    method HandleFailure(system: System, now: int, failed: Option<Address>)
      modifies system, this
      ensures LimiterValue() == OnFailure(old(LimiterValue()), now).0
      ensures Value(system) == if OnFailure(old(LimiterValue()), now).1 && failed.Some?
                               then Apply(old(Value(system)), Restart(failed.value)) else old(Value(system))
    {
      if now - lastRestart <= restartWindow {
        restartCount := restartCount + 1;
        if restartCount > restartLimit {
          return;
        }
      } else {
        restartCount := 1;
        lastRestart := now;
      }
      if failed.Some? {
        RestartChild(system, failed.value);
      }
    }
  }
}
