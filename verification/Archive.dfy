/** The transition store the archive tools work on, as tables other writers change between any
    two statements, and the file names bundles are written under. */
module Archive {
  import opened Text

  // ---------------------------------------------------------------- tables

  datatype JobRow = JobRow(name: string, state: string, lastSequence: int, updatedAt: int)

  datatype Transition = Transition(job: string, sequence: int, content: string)

  datatype TaskRow = TaskRow(job: string, task: string, content: string)

  datatype SequenceRow = SequenceRow(job: string, last: int)

  datatype Db = Db(jobs: map<string, JobRow>, transitions: set<Transition>, tasks: set<TaskRow>, sequences: set<SequenceRow>)

  function TransitionsOf(db: Db, job: string): set<Transition> { set r | r in db.transitions && r.job == job }

  function TasksOf(db: Db, job: string): set<TaskRow> { set r | r in db.tasks && r.job == job }

  function SequencesOf(db: Db, job: string): set<SequenceRow> { set r | r in db.sequences && r.job == job }

  // The four deletes of one prune transaction.
  function Deleted(db: Db, job: string): Db
  {
    Db(db.jobs - {job}, db.transitions - TransitionsOf(db, job), db.tasks - TasksOf(db, job),
       db.sequences - SequencesOf(db, job))
  }

  // No table has a row of the job.
  predicate Gone(db: Db, job: string)
  {
    && job !in db.jobs && (forall r :: r in db.transitions ==> r.job != job)
    && (forall r :: r in db.tasks ==> r.job != job) && (forall r :: r in db.sequences ==> r.job != job)
  }

  // Table by table: what goes is exactly what belongs to the job.
  lemma DeletedRows(db: Db, job: string)
    ensures Gone(Deleted(db, job), job)
    ensures forall j :: j in Deleted(db, job).jobs <==> j in db.jobs && j != job
    ensures forall j :: j in Deleted(db, job).jobs ==> Deleted(db, job).jobs[j] == db.jobs[j]
    ensures forall r :: r in Deleted(db, job).transitions <==> r in db.transitions && r.job != job
    ensures forall r :: r in Deleted(db, job).tasks <==> r in db.tasks && r.job != job
    ensures forall r :: r in Deleted(db, job).sequences <==> r in db.sequences && r.job != job
  {}

  lemma DeletedOthers(db: Db, job: string, other: string)
    requires other != job
    ensures TransitionsOf(Deleted(db, job), other) == TransitionsOf(db, other)
  {}

  // The numbers reported are those of the rows that went.
  lemma DeletedCounts(db: Db, job: string)
    ensures |db.transitions| - |Deleted(db, job).transitions| == |TransitionsOf(db, job)|
    ensures |db.tasks| - |Deleted(db, job).tasks| == |TasksOf(db, job)|
    ensures |db.sequences| - |Deleted(db, job).sequences| == |SequencesOf(db, job)|
  {
    var d := Deleted(db, job);
    DeletedRows(db, job);
    assert db.transitions == d.transitions + TransitionsOf(db, job) && d.transitions !! TransitionsOf(db, job);
    assert db.tasks == d.tasks + TasksOf(db, job) && d.tasks !! TasksOf(db, job);
    assert db.sequences == d.sequences + SequencesOf(db, job) && d.sequences !! SequencesOf(db, job);
  }

  // What the other writers do to the database before the n-th statement; they may do anything.
  type Writers = (nat, Db) -> Db

  // Before statements `from` to `to`, a job's transitions are only added to: the scheduler inserts
  // them and never updates or deletes one.
  ghost predicate AppendOnly(others: Writers, job: string, from: nat, to: nat)
  {
    forall n, db :: from <= n < to ==> TransitionsOf(db, job) <= TransitionsOf(others(n, db), job)
  }

  // Before statements `from` to `to`, nobody adds a transition to the job.
  ghost predicate Quiet(others: Writers, job: string, from: nat, to: nat)
  {
    forall n, db :: from <= n < to ==> TransitionsOf(others(n, db), job) == TransitionsOf(db, job)
  }

  // The database as each of k statements finds it.
  function Evolve(others: Writers, clock: nat, db: Db, k: nat): Db
  {
    if k == 0 then db else others(clock + k - 1, Evolve(others, clock, db, k - 1))
  }

  lemma {:induction false} EvolveGrows(others: Writers, clock: nat, db: Db, i: nat, k: nat, job: string)
    requires i <= k && AppendOnly(others, job, clock + i, clock + k)
    ensures TransitionsOf(Evolve(others, clock, db, i), job) <= TransitionsOf(Evolve(others, clock, db, k), job)
    decreases k
  {
    if i < k {
      EvolveGrows(others, clock, db, i, k - 1, job);
    }
  }

  lemma {:induction false} EvolveQuiet(others: Writers, clock: nat, db: Db, i: nat, k: nat, job: string)
    requires i <= k && Quiet(others, job, clock + i, clock + k)
    ensures TransitionsOf(Evolve(others, clock, db, i), job) == TransitionsOf(Evolve(others, clock, db, k), job)
    decreases k
  {
    if i < k {
      EvolveQuiet(others, clock, db, i, k - 1, job);
    }
  }

  lemma {:induction false} EvolvePlus(others: Writers, clock: nat, db: Db, i: nat, k: nat)
    ensures Evolve(others, clock + i, Evolve(others, clock, db, i), k) == Evolve(others, clock, db, i + k)
    decreases k
  {
    if k > 0 {
      EvolvePlus(others, clock, db, i, k - 1);
    }
  }

  class Store {
    var db: Db
    var clock: nat                 // statements so far
    const others: Writers

    constructor (db: Db, others: Writers)
      ensures this.db == db && clock == 0 && this.others == others
    {
      this.db, this.clock, this.others := db, 0, others;
    }

    // The next statement of a tool finds what the other writers left.
    method Tick()
      modifies this
      ensures db == others(old(clock), old(db)) && clock == old(clock) + 1
    {
      db := others(clock, db);
      clock := clock + 1;
    }

    // Time passes with no statement of the tools.
    method Idle(n: nat)
      modifies this
      ensures db == Evolve(others, old(clock), old(db), n) && clock == old(clock) + n
    {
      for i := 0 to n
        invariant db == Evolve(others, old(clock), old(db), i) && clock == old(clock) + i
      {
        Tick();
      }
    }
  }

  // ---------------------------------------------------------------- file names

  predicate Safe(c: char)
  {
    'A' <= c <= 'Z' || 'a' <= c <= 'z' || '0' <= c <= '9' || c == '.' || c == '_' || c == '-'
  }

  // Every maximal run of other characters becomes one underscore.
  function ReplaceRuns(s: string, inRun: bool): (r: string)
    ensures forall i :: 0 <= i < |r| ==> Safe(r[i])
  {
    if s == "" then ""
    else if Safe(s[0]) then [s[0]] + ReplaceRuns(s[1..], false)
    else (if inRun then "" else "_") + ReplaceRuns(s[1..], true)
  }

  function TrimRightSpaces(s: string): string
  {
    if s != "" && IsSpace(s[|s| - 1]) then TrimRightSpaces(s[..|s| - 1]) else s
  }

  function TrimSpace(s: string): string { TrimRightSpaces(SkipSpaces(s)) }

  // A name without separators, never empty.
  function Sanitize(job: string): (r: string)
    ensures r != "" && forall i :: 0 <= i < |r| ==> Safe(r[i])
  {
    var safe := ReplaceRuns(TrimSpace(job), false);
    if safe == "" then "job" else safe
  }

  function PathOf(job: string): string { "bundles/" + Sanitize(job) + ".json" }

  lemma {:induction false} ReplaceSafe(s: string, inRun: bool)
    requires forall i :: 0 <= i < |s| ==> Safe(s[i])
    ensures ReplaceRuns(s, inRun) == s
    decreases s
  {
    if s != "" {
      ReplaceSafe(s[1..], false);
      assert [s[0]] + s[1..] == s;
    }
  }

  // Names that are already safe are kept, so they never collide; sanitizing is idempotent.
  lemma SanitizeSafe(job: string)
    requires job != "" && forall i :: 0 <= i < |job| ==> Safe(job[i])
    ensures Sanitize(job) == job
  {
    assert forall c :: Safe(c) ==> !IsSpace(c);
    assert !IsSpace(job[0]) && !IsSpace(job[|job| - 1]);
    ReplaceSafe(job, false);
  }

  // Letters, digits, dot, underscore and dash, by code.
  lemma SafeCodes(c: char)
    ensures var n := c as int;
            Safe(c) <==> 65 <= n <= 90 || 97 <= n <= 122 || 48 <= n <= 57 || n in {46, 95, 45}
  {}

  // Text without an unsafe character.
  predicate AllSafe(s: string) { forall i :: 0 <= i < |s| ==> Safe(s[i]) }

  // A run of unsafe characters only.
  predicate AllUnsafe(s: string) { forall i :: 0 <= i < |s| ==> !Safe(s[i]) }

  lemma {:induction false} ReplaceAfterSafe(a: string, rest: string, inRun: bool)
    requires AllSafe(a)
    ensures ReplaceRuns(a + rest, inRun) == a + ReplaceRuns(rest, if a == "" then inRun else false)
    decreases a
  {
    if a == "" {
      assert a + rest == rest;
    } else {
      assert (a + rest)[1..] == a[1..] + rest;
      ReplaceAfterSafe(a[1..], rest, false);
      assert a == [a[0]] + a[1..];
    }
  }

  lemma {:induction false} ReplaceInRun(u: string, rest: string)
    requires AllUnsafe(u)
    ensures ReplaceRuns(u + rest, true) == ReplaceRuns(rest, true)
    decreases u
  {
    if u == "" {
      assert u + rest == rest;
    } else {
      assert (u + rest)[1..] == u[1..] + rest;
      ReplaceInRun(u[1..], rest);
    }
  }

  lemma TrimNothing(s: string)
    requires s != "" && Safe(s[0]) && Safe(s[|s| - 1])
    ensures TrimSpace(s) == s
  {
    assert forall c :: Safe(c) ==> !IsSpace(c);
  }

  lemma ReplaceRun(a: string, u: string, b: string)
    requires a != "" && u != "" && AllSafe(a) && AllUnsafe(u) && AllSafe(b)
    ensures ReplaceRuns(a + (u + b), false) == a + ("_" + b)
  {
    ReplaceAfterSafe(a, u + b, false);
    var rest := u[1..] + b;
    assert (u + b)[1..] == rest && (u + b)[0] == u[0];
    assert ReplaceRuns(rest, true) == b by { ReplaceInRun(u[1..], b); ReplaceSafe(b, true); }
  }

  // Between safe texts a run of other characters becomes one underscore, whatever its length.
  lemma SanitizeRun(a: string, u: string, b: string)
    requires a != "" && u != "" && b != "" && AllSafe(a) && AllUnsafe(u) && AllSafe(b)
    ensures Sanitize(a + (u + b)) == a + ("_" + b)
  {
    var s := a + (u + b);
    assert s[0] == a[0] && s[|s| - 1] == b[|b| - 1];
    TrimNothing(s);
    ReplaceRun(a, u, b);
  }

  lemma {:induction false} SkipAll(spaces: string, rest: string)
    requires forall i :: 0 <= i < |spaces| ==> IsSpace(spaces[i])
    ensures SkipSpaces(spaces + rest) == SkipSpaces(rest)
    decreases spaces
  {
    if spaces == "" {
      assert spaces + rest == rest;
    } else {
      assert (spaces + rest)[1..] == spaces[1..] + rest;
      SkipAll(spaces[1..], rest);
    }
  }

  lemma {:induction false} TrimAllRight(rest: string, spaces: string)
    requires forall i :: 0 <= i < |spaces| ==> IsSpace(spaces[i])
    ensures TrimRightSpaces(rest + spaces) == TrimRightSpaces(rest)
    decreases |spaces|
  {
    if spaces == "" {
      assert rest + spaces == rest;
    } else {
      var s := rest + spaces;
      assert s[..|s| - 1] == rest + spaces[..|spaces| - 1];
      TrimAllRight(rest, spaces[..|spaces| - 1]);
    }
  }

  // Blanks around a name do not matter, and a blank name becomes "job".
  lemma SanitizeTrims(left: string, job: string, right: string)
    requires (forall i :: 0 <= i < |left| ==> IsSpace(left[i])) && (forall i :: 0 <= i < |right| ==> IsSpace(right[i]))
    requires job != "" && !IsSpace(job[0])
    ensures Sanitize(left + job + right) == Sanitize(job) && Sanitize(left) == "job"
  {
    assert left + job + right == left + (job + right);
    SkipAll(left, job + right);
    assert SkipSpaces(job + right) == job + right && SkipSpaces(job) == job;
    TrimAllRight(job, right);
    SkipAll(left, "");
    assert left + "" == left;
  }

  // Equal paths are equal sanitized names.
  lemma PathInjective(a: string, b: string)
    ensures PathOf(a) == PathOf(b) <==> Sanitize(a) == Sanitize(b)
  {
    if PathOf(a) == PathOf(b) {
      var n, m := |Sanitize(a)|, |Sanitize(b)|;
      assert n == m;
      assert PathOf(a)[8..8 + n] == Sanitize(a) && PathOf(b)[8..8 + n] == Sanitize(b);
    }
  }

  // Different jobs can share a file.
  lemma NamesCollide()
    ensures "a/b" != "a?b" && PathOf("a/b") == PathOf("a?b")
  {
    assert ReplaceRuns("b", true) == "b" by { ReplaceSafe("b", true); }
    assert "/b"[1..] == "b" && "?b"[1..] == "b" && "a/b"[1..] == "/b" && "a?b"[1..] == "?b";
    assert ReplaceRuns("/b", false) == "_" + "b" == ReplaceRuns("?b", false);
    assert TrimSpace("a/b") == "a/b" && TrimSpace("a?b") == "a?b";
  }
}
