/** Pruning archived jobs (cmd/transition_archive_prune/main.go): a job is deleted only if its live
    state still matches the manifest, and then no transition outside its bundle is lost. */
module ArchivePrune {
  import opened Text
  import opened Archive
  import opened ArchiveExport

  // ---------------------------------------------------------------- decisions

  predicate ValidateManifest(m: Manifest)
  {
    && m.schema == SCHEMA
    && m.verification.enabled && m.verification.verified && m.verification.checksPassed
    && m.verification.verifiedBundles >= m.exportedJobs
  }

  // Prune takes the manifest of a verified export and never one of a dry run or of an export
  // that was not verified.
  lemma ManifestAccepted(config: ExportConfig, selected: nat, entries: seq<Entry>)
    ensures ValidateManifest(ManifestOf(config, selected, entries)) <==> config.verifyBundles && !config.dryRun
  {}

  // A manifest that passes is refused again as soon as any one of its guarantees is missing.
  lemma ManifestRefused(m: Manifest, schema: string, bundles: nat)
    requires ValidateManifest(m) && schema != SCHEMA && bundles < m.exportedJobs
    ensures !ValidateManifest(m.(schema := schema))
    ensures !ValidateManifest(m.(verification := m.verification.(enabled := false)))
    ensures !ValidateManifest(m.(verification := m.verification.(verified := false)))
    ensures !ValidateManifest(m.(verification := m.verification.(checksPassed := false)))
    ensures !ValidateManifest(m.(verification := m.verification.(verifiedBundles := bundles)))
  {}

  predicate IsTerminal(state: string) { state == "SUCCEEDED" || state == "FAILED" || state == "CANCELED" }

  datatype Snapshot = Snapshot(row: JobRow, transitions: nat, tasks: nat, sequences: nat)

  const DAY := 24 * 60 * 60

  // Old enough for the retention window at time `now`.
  predicate Cold(row: JobRow, days: nat, now: int) { row.updatedAt < now - days * DAY }

  predicate Eligible(m: Manifest, e: Entry, live: Option<Snapshot>, now: int)
  {
    && live.Some? && IsTerminal(live.value.row.state) && live.value.row.state == e.state
    && live.value.row.lastSequence == e.lastSequence
    && live.value.transitions == e.transitionRows && live.value.tasks == e.taskRows && live.value.sequences == e.sequenceRows
    && Cold(live.value.row, m.hotRetentionDays, now)
  }

  // The three end states, and the edge of the retention window: a job untouched for exactly that many
  // days is not old enough, one second more is.
  lemma Thresholds(state: string, row: JobRow, days: nat, now: int)
    ensures IsTerminal(state) <==> state in {"SUCCEEDED", "FAILED", "CANCELED"}
    ensures !Cold(row.(updatedAt := now - days * 86400), days, now) && Cold(row.(updatedAt := now - days * 86400 - 1), days, now)
    ensures Cold(row, days, now) ==> Cold(row, days, now + 1)
  {}

  // An eligible entry is determined by the live state, except for where its file is: drift in any
  // compared field is noticed.
  lemma DriftNoticed(m: Manifest, e: Entry, f: Entry, live: Option<Snapshot>, now: int)
    requires Eligible(m, e, live, now) && Eligible(m, f, live, now)
    ensures e.state == f.state && e.lastSequence == f.lastSequence
    ensures e.transitionRows == f.transitionRows && e.taskRows == f.taskRows && e.sequenceRows == f.sequenceRows
    ensures e.state in {"SUCCEEDED", "FAILED", "CANCELED"}
  {}

  // Four queries again, none of them in one snapshot.
  function LiveSnapshot(others: Writers, clock: nat, db: Db, job: string): Option<Snapshot>
  {
    var first := Evolve(others, clock, db, 1);
    if job !in first.jobs then None
    else Some(Snapshot(first.jobs[job], |TransitionsOf(Evolve(others, clock, db, 2), job)|,
                       |TasksOf(Evolve(others, clock, db, 3), job)|, |SequencesOf(Evolve(others, clock, db, 4), job)|))
  }

  // ---------------------------------------------------------------- nothing is lost

  lemma {:induction false} SubsetOfSameSize<T>(a: set<T>, b: set<T>)
    requires a <= b && |a| == |b|
    ensures a == b
  {
    if a != {} {
      var x :| x in a;
      SubsetOfSameSize(a - {x}, b - {x});
    } else {
      assert b == {};
    }
  }

  // `archived` is what some bundle holds: rows the job still had when prune began, as many as the
  // entry says.  An eligible job's rows at the count are exactly those.
  lemma CountedIsArchived(others: Writers, clock: nat, db: Db, m: Manifest, e: Entry, now: int, archived: set<Transition>)
    requires Eligible(m, e, LiveSnapshot(others, clock, db, e.job), now)
    requires archived <= TransitionsOf(db, e.job) && |archived| == e.transitionRows && AppendOnly(others, e.job, clock, clock + 2)
    ensures TransitionsOf(Evolve(others, clock, db, 2), e.job) == archived
  {
    EvolveGrows(others, clock, db, 0, 2, e.job);
    SubsetOfSameSize(archived, TransitionsOf(Evolve(others, clock, db, 2), e.job));
  }

  // What the delete transaction, the fifth statement, removes is what was archived exactly when no
  // transition was added after the count.
  lemma NothingLostIff(others: Writers, clock: nat, db: Db, m: Manifest, e: Entry, now: int, archived: set<Transition>)
    requires Eligible(m, e, LiveSnapshot(others, clock, db, e.job), now)
    requires archived <= TransitionsOf(db, e.job) && |archived| == e.transitionRows && AppendOnly(others, e.job, clock, clock + 5)
    ensures TransitionsOf(Evolve(others, clock, db, 5), e.job) <= archived
            <==> TransitionsOf(Evolve(others, clock, db, 5), e.job) == TransitionsOf(Evolve(others, clock, db, 2), e.job)
  {
    CountedIsArchived(others, clock, db, m, e, now, archived);
    EvolveGrows(others, clock, db, 2, 5, e.job);
  }

  lemma NothingLost(others: Writers, clock: nat, db: Db, m: Manifest, e: Entry, now: int, archived: set<Transition>)
    requires Eligible(m, e, LiveSnapshot(others, clock, db, e.job), now)
    requires archived <= TransitionsOf(db, e.job) && |archived| == e.transitionRows && AppendOnly(others, e.job, clock, clock + 2)
    requires Quiet(others, e.job, clock + 2, clock + 5)
    ensures TransitionsOf(Evolve(others, clock, db, 5), e.job) == archived
  {
    CountedIsArchived(others, clock, db, m, e, now, archived);
    EvolveQuiet(others, clock, db, 2, 5, e.job);
  }

  // Before statements `from` to `to`, nobody writes anything about the job.
  ghost predicate Untouched(others: Writers, job: string, from: nat, to: nat)
  {
    forall n, db :: from <= n < to ==> SameJob(db, others(n, db), job)
  }

  ghost predicate SameJob(a: Db, b: Db, job: string)
  {
    && (job in a.jobs <==> job in b.jobs) && (job in a.jobs ==> a.jobs[job] == b.jobs[job])
    && TransitionsOf(a, job) == TransitionsOf(b, job) && TasksOf(a, job) == TasksOf(b, job)
    && SequencesOf(a, job) == SequencesOf(b, job)
  }

  lemma {:induction false} EvolveSame(others: Writers, clock: nat, db: Db, k: nat, job: string)
    requires Untouched(others, job, clock, clock + k)
    ensures SameJob(db, Evolve(others, clock, db, k), job)
  {
    if k > 0 {
      EvolveSame(others, clock, db, k - 1, job);
    }
  }

  // The listing query's condition: terminal and older than the retention window.
  predicate Listable(row: JobRow, days: nat, now: int) { IsTerminal(row.state) && Cold(row, days, now) }

  // A listing describes the job as it is and the job is old enough.
  predicate ListedAs(db: Db, l: Listed, days: nat, now: int)
  {
    l.job in db.jobs && l.state == db.jobs[l.job].state && Listable(db.jobs[l.job], days, now)
  }

  // What four queries in a row find of a job nobody touches meanwhile.
  lemma SameFour(others: Writers, clock: nat, db: Db, job: string)
    requires Untouched(others, job, clock, clock + 4)
    ensures SameJob(db, Evolve(others, clock, db, 1), job) && SameJob(db, Evolve(others, clock, db, 2), job)
    ensures SameJob(db, Evolve(others, clock, db, 3), job) && SameJob(db, Evolve(others, clock, db, 4), job)
  {
    EvolveSame(others, clock, db, 1, job);
    EvolveSame(others, clock, db, 2, job);
    EvolveSame(others, clock, db, 3, job);
    EvolveSame(others, clock, db, 4, job);
  }

  // The snapshot of a job as it is in one database.
  function SnapshotOf(db: Db, job: string): Option<Snapshot>
  {
    if job !in db.jobs then None
    else Some(Snapshot(db.jobs[job], |TransitionsOf(db, job)|, |TasksOf(db, job)|, |SequencesOf(db, job)|))
  }

  lemma UntouchedSnapshot(others: Writers, clock: nat, db: Db, job: string)
    requires Untouched(others, job, clock, clock + 4)
    ensures LiveSnapshot(others, clock, db, job) == SnapshotOf(db, job)
  {
    SameFour(others, clock, db, job);
  }

  // A bundle read while nobody touches the job is a snapshot of it.
  lemma UntouchedLoaded(others: Writers, clock: nat, db: Db, job: string, b: Bundle)
    requires Untouched(others, job, clock, clock + 4) && Loaded(others, clock, db, job) == Some(b)
    ensures SnapshotOf(db, job) == Some(Snapshot(b.row, |b.transitions|, |b.tasks|, |b.sequences|))
  {
    SameFour(others, clock, db, job);
  }

  lemma SameSnapshotOf(a: Db, b: Db, job: string)
    requires SameJob(a, b, job)
    ensures SnapshotOf(a, job) == SnapshotOf(b, job)
  {}

  // The entry made from a snapshot of a job that still is as listed.
  lemma SnapshotEligible(db: Db, l: Listed, sha: Digest, b: Bundle, m: Manifest, now: int)
    requires ListedAs(db, l, m.hotRetentionDays, now)
    requires SnapshotOf(db, l.job) == Some(Snapshot(b.row, |b.transitions|, |b.tasks|, |b.sequences|))
    ensures Eligible(m, EntryOf(l, b, sha), SnapshotOf(db, l.job), now)
  {}

  // The entry made for a job nobody touches stays eligible, whenever prune runs and whatever
  // happened to other jobs.
  lemma UntouchedEligible(others: Writers, clock: nat, db: Db, l: Listed, sha: Digest, b: Bundle, m: Manifest,
                          later: nat, db2: Db, now: int)
    requires Untouched(others, l.job, clock, clock + 4) && Untouched(others, l.job, later, later + 4)
    requires ListedAs(db, l, m.hotRetentionDays, now) && SameJob(db, db2, l.job) && Loaded(others, clock, db, l.job) == Some(b)
    ensures Eligible(m, EntryOf(l, b, sha), LiveSnapshot(others, later, db2, l.job), now)
  {
    assert SnapshotOf(db2, l.job) == Some(Snapshot(b.row, |b.transitions|, |b.tasks|, |b.sequences|)) by {
      UntouchedLoaded(others, clock, db, l.job, b);
      SameSnapshotOf(db, db2, l.job);
    }
    SnapshotEligible(db2, l, sha, b, m, now);
    UntouchedSnapshot(others, later, db2, l.job);
  }

  // ---------------------------------------------------------------- deletions

  // One executed delete: when its evaluation began, for which entry, the live state it saw, and the
  // rows removed.
  datatype Deletion = Deletion(at: nat, entry: Entry, live: Snapshot, transitions: set<Transition>, tasks: nat, sequences: nat)

  // Whatever was archived of the job is exactly what was deleted, if from statement `from`, which found
  // `start`, transitions were only added, and none between the count and the delete.
  ghost predicate Lossless(d: Deletion, others: Writers, from: nat, start: Db)
  {
    forall archived: set<Transition> ::
      (&& archived <= TransitionsOf(start, d.entry.job) && |archived| == d.entry.transitionRows
       && AppendOnly(others, d.entry.job, from, d.at + 2) && Quiet(others, d.entry.job, d.at + 2, d.at + 5))
      ==> d.transitions == archived
  }

  method LoadLiveSnapshot(store: Store, job: string) returns (live: Option<Snapshot>)
    modifies store
    ensures live == LiveSnapshot(store.others, old(store.clock), old(store.db), job)
    ensures var n := if live.None? then 1 else 4;
            store.clock == old(store.clock) + n &&
            store.db == Evolve(store.others, old(store.clock), old(store.db), n)
  {
    ghost var others, clock, db := store.others, store.clock, store.db;
    assert Evolve(others, clock, db, 0) == db;
    store.Tick();
    assert store.db == Evolve(others, clock, db, 1);
    if job !in store.db.jobs {
      return None;
    }
    var row := store.db.jobs[job];
    store.Tick();
    assert store.db == Evolve(others, clock, db, 2);
    var transitions := |TransitionsOf(store.db, job)|;
    store.Tick();
    assert store.db == Evolve(others, clock, db, 3);
    var tasks := |TasksOf(store.db, job)|;
    store.Tick();
    assert store.db == Evolve(others, clock, db, 4);
    var sequences := |SequencesOf(store.db, job)|;
    live := Some(Snapshot(row, transitions, tasks, sequences));
  }

  method ExecutePrune(store: Store, e: Entry, at: nat, live: Snapshot) returns (d: Deletion)
    modifies store
    ensures var db := store.others(old(store.clock), old(store.db));
            && store.clock == old(store.clock) + 1 && store.db == Deleted(db, e.job)
            && d == Deletion(at, e, live, TransitionsOf(db, e.job), |TasksOf(db, e.job)|, |SequencesOf(db, e.job)|)
  {
    store.Tick();
    d := Deletion(at, e, live, TransitionsOf(store.db, e.job), |TasksOf(store.db, e.job)|, |SequencesOf(store.db, e.job)|);
    store.db := Deleted(store.db, e.job);
  }

  // Rows that are only added to between two statements are still there, except those of `pruned`.
  ghost predicate Keeps(others: Writers, from: nat, to: nat, before: Db, after: Db, pruned: set<string>)
  {
    forall j :: j !in pruned && AppendOnly(others, j, from, to) ==> TransitionsOf(before, j) <= TransitionsOf(after, j)
  }

  lemma KeepsTrans(others: Writers, a: nat, b: nat, c: nat, x: Db, y: Db, z: Db, p: set<string>, q: set<string>)
    requires a <= b <= c && Keeps(others, a, b, x, y, p) && Keeps(others, b, c, y, z, q)
    ensures Keeps(others, a, c, x, z, p + q)
  {
    forall j | j !in p + q && AppendOnly(others, j, a, c) ensures TransitionsOf(x, j) <= TransitionsOf(z, j) {
      assert AppendOnly(others, j, a, b) && AppendOnly(others, j, b, c);
    }
  }

  lemma EvolveKeeps(others: Writers, clock: nat, db: Db, k: nat)
    ensures Keeps(others, clock, clock + k, db, Evolve(others, clock, db, k), {})
  {
    forall j | AppendOnly(others, j, clock, clock + k) ensures TransitionsOf(db, j) <= TransitionsOf(Evolve(others, clock, db, k), j) {
      EvolveGrows(others, clock, db, 0, k, j);
    }
  }

  lemma DeleteKeeps(others: Writers, clock: nat, db: Db, job: string)
    ensures Keeps(others, clock, clock + 5, db, Deleted(Evolve(others, clock, db, 5), job), {job})
  {
    EvolveKeeps(others, clock, db, 5);
    var after := Evolve(others, clock, db, 5);
    forall j | j != job ensures TransitionsOf(Deleted(after, job), j) == TransitionsOf(after, j) {
      DeletedOthers(after, job, j);
    }
  }

  lemma DeleteLossless(others: Writers, clock: nat, db: Db, m: Manifest, e: Entry, now: int, d: Deletion)
    requires Eligible(m, e, LiveSnapshot(others, clock, db, e.job), now)
    requires d.at == clock && d.entry == e && d.transitions == TransitionsOf(Evolve(others, clock, db, 5), e.job)
    ensures Lossless(d, others, clock, db)
    ensures Keeps(others, clock, clock + 5, db, Deleted(Evolve(others, clock, db, 5), e.job), {e.job})
  {
    forall archived: set<Transition> |
      && archived <= TransitionsOf(db, e.job) && |archived| == e.transitionRows
      && AppendOnly(others, e.job, clock, clock + 2) && Quiet(others, e.job, clock + 2, clock + 5)
      ensures d.transitions == archived
    {
      NothingLost(others, clock, db, m, e, now, archived);
    }
    DeleteKeeps(others, clock, db, e.job);
  }

  ghost predicate DistinctEntries(entries: seq<Entry>)
  {
    forall i, j :: 0 <= i < j < |entries| ==> entries[i].job != entries[j].job
  }

  lemma LosslessEarlier(d: Deletion, others: Writers, from: nat, start: Db, later: Db, pruned: set<string>)
    requires Lossless(d, others, d.at, later) && from <= d.at && Keeps(others, from, d.at, start, later, pruned) && d.entry.job !in pruned
    ensures Lossless(d, others, from, start)
  {
    var job := d.entry.job;
    forall archived: set<Transition> |
      && archived <= TransitionsOf(start, job) && |archived| == d.entry.transitionRows
      && AppendOnly(others, job, from, d.at + 2) && Quiet(others, job, d.at + 2, d.at + 5)
      ensures d.transitions == archived
    {
      assert AppendOnly(others, job, from, d.at) && AppendOnly(others, job, d.at, d.at + 2);
    }
  }

  datatype Summary = Summary(checked: nat, eligible: nat, deletedJobs: nat,
                             deletedTransitions: nat, deletedTasks: nat, deletedSequences: nat)

  function TransitionRows(d: Deletion): nat { |d.transitions| }

  function TaskRows(d: Deletion): nat { d.tasks }

  function SequenceRows(d: Deletion): nat { d.sequences }

  function Total(deletions: seq<Deletion>, rows: Deletion -> nat): nat
  {
    if deletions == [] then 0
    else Total(deletions[..|deletions| - 1], rows) + rows(deletions[|deletions| - 1])
  }

  // The result of a prune run so far.
  datatype PruneResult = PruneResult(deletions: seq<Deletion>, summary: Summary)

  datatype PruneState = PruneState(result: PruneResult, clock: nat, db: Db)

  // Every deletion happened after the start and was lossless with respect to it.
  ghost predicate AllLossless(deletions: seq<Deletion>, entries: seq<Entry>, others: Writers, start: PruneState)
  {
    forall k :: 0 <= k < |deletions| ==>
      deletions[k].entry in entries && start.clock <= deletions[k].at && Lossless(deletions[k], others, start.clock, start.db)
  }

  // Each deletion was of an entry whose live state matched it.
  ghost predicate AllEligible(deletions: seq<Deletion>, m: Manifest, now: int)
  {
    forall k :: 0 <= k < |deletions| ==>
      deletions[k].entry in m.entries && Eligible(m, deletions[k].entry, Some(deletions[k].live), now)
  }

  lemma AllLosslessSnoc(deletions: seq<Deletion>, d: Deletion, entries: seq<Entry>, others: Writers, start: PruneState)
    requires AllLossless(deletions, entries, others, start)
    requires d.entry in entries && start.clock <= d.at && Lossless(d, others, start.clock, start.db)
    ensures AllLossless(deletions + [d], entries, others, start)
  {}

  lemma TotalSnoc(deletions: seq<Deletion>, d: Deletion, rows: Deletion -> nat)
    ensures Total(deletions + [d], rows) == Total(deletions, rows) + rows(d)
  {
    assert (deletions + [d])[..|deletions|] == deletions;
  }

  // The jobs of the first i entries.
  function JobsBefore(entries: seq<Entry>, i: nat): set<string>
    requires i <= |entries|
  {
    set k | 0 <= k < i :: entries[k].job
  }

  ghost predicate Tallied(x: PruneResult, checked: nat)
  {
    && x.summary.deletedJobs == |x.deletions| <= x.summary.eligible <= x.summary.checked == checked
    && x.summary.deletedTransitions == Total(x.deletions, TransitionRows)
    && x.summary.deletedTasks == Total(x.deletions, TaskRows) && x.summary.deletedSequences == Total(x.deletions, SequenceRows)
  }

  // The state s after i entries: `pruned` are the jobs deleted, and everything else is still there.
  ghost predicate Pruning(m: Manifest, i: nat, dryRun: bool, pruned: set<string>, others: Writers, start: PruneState, s: PruneState, now: int)
    requires i <= |m.entries|
  {
    var x := s.result;
    && Tallied(x, i) && AllEligible(x.deletions, m, now) && pruned <= JobsBefore(m.entries, i)
    && start.clock <= s.clock && Keeps(others, start.clock, s.clock, start.db, s.db, pruned)
    && (DistinctEntries(m.entries) ==> AllLossless(x.deletions, m.entries, others, start))
    && (if dryRun then x.deletions == [] && pruned == {} else x.summary.eligible == |x.deletions|)
  }

  function Counted(x: PruneResult, eligible: bool, d: Option<Deletion>): PruneResult
  {
    var s := x.summary.(checked := x.summary.checked + 1, eligible := x.summary.eligible + if eligible then 1 else 0);
    if d.None? then x.(summary := s)
    else PruneResult(x.deletions + [d.value],
                     s.(deletedJobs := s.deletedJobs + 1, deletedTransitions := s.deletedTransitions + |d.value.transitions|,
                        deletedTasks := s.deletedTasks + d.value.tasks, deletedSequences := s.deletedSequences + d.value.sequences))
  }

  lemma TalliedNext(x: PruneResult, i: nat, eligible: bool, d: Deletion)
    requires Tallied(x, i) && eligible
    ensures Tallied(Counted(x, eligible, Some(d)), i + 1)
  {
    TotalSnoc(x.deletions, d, TransitionRows);
    TotalSnoc(x.deletions, d, TaskRows);
    TotalSnoc(x.deletions, d, SequenceRows);
  }

  // One more entry, found eligible or not, and deleted or not.
  lemma PruningNext(m: Manifest, i: nat, dryRun: bool, pruned: set<string>, others: Writers, start: PruneState, s: PruneState, t: PruneState,
                    now: int, eligible: bool, d: Option<Deletion>)
    requires i < |m.entries| && Pruning(m, i, dryRun, pruned, others, start, s, now)
    requires t.result == Counted(s.result, eligible, d) && s.clock <= t.clock
    requires d.Some? <==> eligible && !dryRun
    requires d.Some? ==> d.value.entry == m.entries[i] && Eligible(m, m.entries[i], Some(d.value.live), now)
    requires d.Some? ==> d.value.at == s.clock && Lossless(d.value, others, s.clock, s.db)
    requires Keeps(others, s.clock, t.clock, s.db, t.db, if d.Some? then {m.entries[i].job} else {})
    ensures Pruning(m, i + 1, dryRun, pruned + (if d.Some? then {m.entries[i].job} else {}), others, start, t, now)
  {
    KeepsTrans(others, start.clock, s.clock, t.clock, start.db, s.db, t.db, pruned, if d.Some? then {m.entries[i].job} else {});
    if d.Some? {
      TalliedNext(s.result, i, eligible, d.value);
      if DistinctEntries(m.entries) {
        LosslessEarlier(d.value, others, start.clock, start.db, s.db, pruned);
        AllLosslessSnoc(s.result.deletions, d.value, m.entries, others, start);
      }
    }
  }

  // ---------------------------------------------------------------- a whole prune run

  const NOTHING := PruneResult([], Summary(0, 0, 0, 0, 0, 0))

  function Removed(db: Db, at: nat, e: Entry, live: Snapshot): Deletion
  {
    Deletion(at, e, live, TransitionsOf(db, e.job), |TasksOf(db, e.job)|, |SequencesOf(db, e.job)|)
  }

  // One turn of the decision loop.
  function PruneOne(others: Writers, m: Manifest, now: int, dryRun: bool, s: PruneState, e: Entry): PruneState
  {
    var live := LiveSnapshot(others, s.clock, s.db, e.job);
    var eligible := Eligible(m, e, live, now);
    if dryRun || !eligible then
      var n := if live.None? then 1 else 4;
      PruneState(Counted(s.result, eligible, None), s.clock + n, Evolve(others, s.clock, s.db, n))
    else
      var db := Evolve(others, s.clock, s.db, 5);
      PruneState(Counted(s.result, true, Some(Removed(db, s.clock, e, live.value))), s.clock + 5, Deleted(db, e.job))
  }

  // The i-th turn of a run, whose states are those before the first entry and after each.
  ghost predicate TurnAt(others: Writers, m: Manifest, now: int, dryRun: bool, states: seq<PruneState>, i: nat)
    requires i < |m.entries| && i + 1 < |states|
  {
    states[i + 1] == PruneOne(others, m, now, dryRun, states[i], m.entries[i])
  }

  ghost predicate PruneRun(others: Writers, m: Manifest, now: int, dryRun: bool, states: seq<PruneState>)
  {
    && 0 < |states| <= |m.entries| + 1 && states[0].result == NOTHING
    && forall i {:trigger TurnAt(others, m, now, dryRun, states, i)} :: 0 <= i < |states| - 1 ==>
         TurnAt(others, m, now, dryRun, states, i)
  }

  // What a turn does to the database: a deletion leaves no row of the job in any table and reports
  // what went; any other turn leaves it to the other writers.
  ghost predicate TurnEffect(others: Writers, s: PruneState, t: PruneState, job: string)
  {
    if t.result.deletions == s.result.deletions then s.clock <= t.clock && t.db == Evolve(others, s.clock, s.db, t.clock - s.clock)
    else
      var before := Evolve(others, s.clock, s.db, 5);
      && t.clock == s.clock + 5 && |t.result.deletions| == |s.result.deletions| + 1 && Gone(t.db, job)
      && t.db.jobs == before.jobs - {job}
      && t.db.transitions == (set r | r in before.transitions && r.job != job)
      && t.db.tasks == (set r | r in before.tasks && r.job != job)
      && t.db.sequences == (set r | r in before.sequences && r.job != job)
      && var d := t.result.deletions[|s.result.deletions|];
         && d.transitions == before.transitions - t.db.transitions
         && d.tasks == |before.tasks| - |t.db.tasks| && d.sequences == |before.sequences| - |t.db.sequences|
  }

  lemma DeletionEffect(before: Db, at: nat, e: Entry, live: Snapshot)
    ensures var d, after := Removed(before, at, e, live), Deleted(before, e.job);
            && Gone(after, e.job) && after.jobs == before.jobs - {e.job}
            && after.transitions == (set r | r in before.transitions && r.job != e.job)
            && after.tasks == (set r | r in before.tasks && r.job != e.job)
            && after.sequences == (set r | r in before.sequences && r.job != e.job)
            && d.transitions == before.transitions - after.transitions
            && d.tasks == |before.tasks| - |after.tasks| && d.sequences == |before.sequences| - |after.sequences|
  {
    DeletedRows(before, e.job);
    DeletedCounts(before, e.job);
  }

  lemma PruneOneEffect(others: Writers, m: Manifest, now: int, dryRun: bool, s: PruneState, e: Entry)
    ensures TurnEffect(others, s, PruneOne(others, m, now, dryRun, s, e), e.job)
  {
    var live := LiveSnapshot(others, s.clock, s.db, e.job);
    if !dryRun && Eligible(m, e, live, now) {
      DeletionEffect(Evolve(others, s.clock, s.db, 5), s.clock, e, live.value);
    }
  }

  // Over every run, every turn has that effect.
  lemma TurnClears(others: Writers, m: Manifest, now: int, dryRun: bool, states: seq<PruneState>, i: nat)
    requires PruneRun(others, m, now, dryRun, states) && i < |states| - 1
    ensures TurnEffect(others, states[i], states[i + 1], m.entries[i].job)
  {
    assert TurnAt(others, m, now, dryRun, states, i);
    PruneOneEffect(others, m, now, dryRun, states[i], m.entries[i]);
  }

  // Whether a turn of a run finds its entry eligible, and how many of the first k do.
  ghost predicate RipeAt(others: Writers, m: Manifest, now: int, states: seq<PruneState>, i: nat)
  {
    i < |m.entries| && i < |states| && Ripe(others, m, m.entries[i], now, states[i])
  }

  ghost function RipeTurns(others: Writers, m: Manifest, now: int, states: seq<PruneState>, k: nat): nat
  {
    if k == 0 then 0
    else RipeTurns(others, m, now, states, k - 1) + if RipeAt(others, m, now, states, k - 1) then 1 else 0
  }

  // Dry or not, a run counts the entries it checks and those it finds eligible.
  lemma {:induction false} EligibleCounted(others: Writers, m: Manifest, now: int, dryRun: bool, states: seq<PruneState>, k: nat)
    requires PruneRun(others, m, now, dryRun, states) && k < |states|
    ensures states[k].result.summary.eligible == RipeTurns(others, m, now, states, k)
    ensures states[k].result.summary.checked == k
    decreases k
  {
    if k > 0 {
      EligibleCounted(others, m, now, dryRun, states, k - 1);
      CountedTurn(others, m, now, dryRun, states, k - 1);
    }
  }

  lemma CountedTurn(others: Writers, m: Manifest, now: int, dryRun: bool, states: seq<PruneState>, i: nat)
    requires PruneRun(others, m, now, dryRun, states) && i < |states| - 1
    ensures var x, y := states[i].result.summary, states[i + 1].result.summary;
            y.checked == x.checked + 1 && y.eligible == x.eligible + if RipeAt(others, m, now, states, i) then 1 else 0
  {
    assert TurnAt(others, m, now, dryRun, states, i);
    CountedOne(others, m, now, dryRun, states[i], m.entries[i]);
  }

  lemma CountedOne(others: Writers, m: Manifest, now: int, dryRun: bool, s: PruneState, e: Entry)
    ensures var x := PruneOne(others, m, now, dryRun, s, e).result.summary;
            && x.checked == s.result.summary.checked + 1
            && x.eligible == s.result.summary.eligible + if Ripe(others, m, e, now, s) then 1 else 0
  {}

  lemma PruneOneSafe(others: Writers, m: Manifest, now: int, dryRun: bool, s: PruneState, i: nat, pruned: set<string>, start: PruneState)
    returns (pruned': set<string>)
    requires i < |m.entries| && Pruning(m, i, dryRun, pruned, others, start, s, now)
    ensures Pruning(m, i + 1, dryRun, pruned', others, start, PruneOne(others, m, now, dryRun, s, m.entries[i]), now)
  {
    var e, t := m.entries[i], PruneOne(others, m, now, dryRun, s, m.entries[i]);
    var live := LiveSnapshot(others, s.clock, s.db, e.job);
    var eligible := Eligible(m, e, live, now);
    if dryRun || !eligible {
      EvolveKeeps(others, s.clock, s.db, if live.None? then 1 else 4);
      PruningNext(m, i, dryRun, pruned, others, start, s, t, now, eligible, None);
      pruned' := pruned + {};
    } else {
      var d := Removed(Evolve(others, s.clock, s.db, 5), s.clock, e, live.value);
      DeleteLossless(others, s.clock, s.db, m, e, now, d);
      PruningNext(m, i, dryRun, pruned, others, start, s, t, now, true, Some(d));
      pruned' := pruned + {e.job};
    }
  }

  // Over every run and every interleaving with other writers: each deletion was of an entry whose
  // live state matched it, and lost nothing that was archived; a dry run deletes nothing, any other
  // run every job it finds eligible.
  lemma {:induction false} PruneSafe(others: Writers, m: Manifest, now: int, dryRun: bool, states: seq<PruneState>, k: nat)
    returns (pruned: set<string>)
    requires PruneRun(others, m, now, dryRun, states) && k < |states|
    ensures Pruning(m, k, dryRun, pruned, others, states[0], states[k], now)
    decreases k
  {
    if k == 0 {
      pruned := {};
    } else {
      var before := PruneSafe(others, m, now, dryRun, states, k - 1);
      assert TurnAt(others, m, now, dryRun, states, k - 1);
      pruned := PruneOneSafe(others, m, now, dryRun, states[k - 1], k - 1, before, states[0]);
    }
  }

  lemma {:induction false} ClockGrows(others: Writers, m: Manifest, now: int, dryRun: bool, states: seq<PruneState>, i: nat, k: nat)
    requires PruneRun(others, m, now, dryRun, states) && i <= k < |states|
    ensures states[i].clock <= states[k].clock
    decreases k
  {
    if i < k {
      ClockGrows(others, m, now, dryRun, states, i, k - 1);
      assert TurnAt(others, m, now, dryRun, states, k - 1);
    }
  }

  // A turn with a job that is present and untouched takes at least the four queries.
  lemma TurnLength(others: Writers, m: Manifest, now: int, dryRun: bool, s: PruneState, e: Entry)
    requires e.job in s.db.jobs
    ensures var t := PruneOne(others, m, now, dryRun, s, e);
            s.clock < t.clock && (Untouched(others, e.job, s.clock, t.clock) ==> s.clock + 4 <= t.clock)
  {
    var t := PruneOne(others, m, now, dryRun, s, e);
    if Untouched(others, e.job, s.clock, t.clock) {
      EvolveSame(others, s.clock, s.db, 1, e.job);
    }
  }

  lemma OtherPruned(others: Writers, m: Manifest, now: int, dryRun: bool, s: PruneState, e: Entry, job: string)
    requires e.job != job && Untouched(others, job, s.clock, PruneOne(others, m, now, dryRun, s, e).clock)
    ensures SameJob(s.db, PruneOne(others, m, now, dryRun, s, e).db, job)
  {
    var k := PruneOne(others, m, now, dryRun, s, e).clock - s.clock;
    EvolveSame(others, s.clock, s.db, k, job);
    DeletedOther(Evolve(others, s.clock, s.db, k), e.job, job);
  }

  lemma SameJobTrans(a: Db, b: Db, c: Db, job: string)
    requires SameJob(a, b, job) && SameJob(b, c, job)
    ensures SameJob(a, c, job)
  {}

  // Pruning other entries leaves a job nobody touches as it was.
  lemma {:induction false} OthersPruned(others: Writers, m: Manifest, now: int, dryRun: bool, states: seq<PruneState>, k: nat, job: string)
    requires PruneRun(others, m, now, dryRun, states) && k < |states|
    requires Untouched(others, job, states[0].clock, states[k].clock) && forall i :: 0 <= i < k ==> m.entries[i].job != job
    ensures SameJob(states[0].db, states[k].db, job)
    decreases k
  {
    if k > 0 {
      ClockGrows(others, m, now, dryRun, states, 0, k - 1);
      ClockGrows(others, m, now, dryRun, states, k - 1, k);
      OthersPruned(others, m, now, dryRun, states, k - 1, job);
      assert TurnAt(others, m, now, dryRun, states, k - 1);
      OtherPruned(others, m, now, dryRun, states[k - 1], m.entries[k - 1], job);
      SameJobTrans(states[0].db, states[k - 1].db, states[k].db, job);
    }
  }

  lemma DeletedOther(db: Db, job: string, other: string)
    requires other != job
    ensures SameJob(db, Deleted(db, job), other)
  {}

  ghost predicate Ripe(others: Writers, m: Manifest, e: Entry, now: int, s: PruneState)
  {
    Eligible(m, e, LiveSnapshot(others, s.clock, s.db, e.job), now)
  }

  ghost predicate Deletes(deletions: seq<Deletion>, e: Entry) { exists k :: 0 <= k < |deletions| && deletions[k].entry == e }

  lemma OnlyAdds(others: Writers, m: Manifest, now: int, s: PruneState, e: Entry, t: PruneState)
    requires t == PruneOne(others, m, now, false, s, e)
    ensures forall x :: Deletes(s.result.deletions, x) ==> Deletes(t.result.deletions, x)
    ensures Ripe(others, m, e, now, s) ==> Deletes(t.result.deletions, e)
  {
    var before, after := s.result.deletions, t.result.deletions;
    assert before <= after;
    forall x | Deletes(before, x) ensures Deletes(after, x) {
      var k :| 0 <= k < |before| && before[k].entry == x;
      assert after[k].entry == x;
    }
    if Ripe(others, m, e, now, s) {
      assert after[|before|].entry == e;
    }
  }

  lemma {:induction false} DeletesStays(others: Writers, m: Manifest, now: int, states: seq<PruneState>, i: nat, k: nat, e: Entry)
    requires PruneRun(others, m, now, false, states) && i <= k < |states| && Deletes(states[i].result.deletions, e)
    ensures Deletes(states[k].result.deletions, e)
    decreases k
  {
    if i < k {
      DeletesStays(others, m, now, states, i, k - 1, e);
      assert TurnAt(others, m, now, false, states, k - 1);
      OnlyAdds(others, m, now, states[k - 1], m.entries[k - 1], states[k]);
    }
  }

  // A job that is eligible when prune starts and that nobody touches until its own turn has read it
  // is pruned, whatever the run does to the entries before it.
  lemma UntouchedPruned(others: Writers, m: Manifest, now: int, states: seq<PruneState>, i: nat)
    requires PruneRun(others, m, now, false, states) && i < |states| - 1 && DistinctEntries(m.entries)
    requires Untouched(others, m.entries[i].job, states[0].clock, states[i].clock + 4)
    requires Ripe(others, m, m.entries[i], now, states[0])
    ensures Deletes(states[|states| - 1].result.deletions, m.entries[i])
  {
    var e := m.entries[i];
    assert Ripe(others, m, e, now, states[i]) by {
      ClockGrows(others, m, now, false, states, 0, i);
      OthersPruned(others, m, now, false, states, i, e.job);
      UntouchedSnapshot(others, states[0].clock, states[0].db, e.job);
      UntouchedSnapshot(others, states[i].clock, states[i].db, e.job);
      SameSnapshotOf(states[0].db, states[i].db, e.job);
    }
    assert Deletes(states[i + 1].result.deletions, e) by {
      assert TurnAt(others, m, now, false, states, i);
      OnlyAdds(others, m, now, states[i], e, states[i + 1]);
    }
    DeletesStays(others, m, now, states, i + 1, |states| - 1, e);
  }

  // ---------------------------------------------------------------- the tool

  // Evaluates one entry and deletes its job if it is eligible.
  method PruneEntry(store: Store, m: Manifest, e: Entry, dryRun: bool, now: int, x: PruneResult) returns (y: PruneResult)
    modifies store
    ensures Reached(y, store) == PruneOne(store.others, m, now, dryRun, old(Reached(x, store)), e)
  {
    ghost var others, clock, db := store.others, store.clock, store.db;
    var at := store.clock;
    var live := LoadLiveSnapshot(store, e.job);
    var eligible := Eligible(m, e, live, now);
    if dryRun || !eligible {
      return Counted(x, eligible, None);
    }
    assert others(store.clock, store.db) == Evolve(others, clock, db, 5);
    var deletion := ExecutePrune(store, e, at, live.value);
    y := Counted(x, true, Some(deletion));
  }

  function Smaller(a: nat, b: nat): nat { if a < b then a else b }

  lemma TurnKept(others: Writers, m: Manifest, now: int, dryRun: bool, states: seq<PruneState>, s: PruneState, i: nat)
    requires i < |m.entries| && i + 1 < |states| && TurnAt(others, m, now, dryRun, states, i)
    ensures TurnAt(others, m, now, dryRun, states + [s], i)
  {
    assert (states + [s])[i] == states[i] && (states + [s])[i + 1] == states[i + 1];
  }

  lemma TurnAdded(others: Writers, m: Manifest, now: int, dryRun: bool, states: seq<PruneState>, s: PruneState)
    requires 0 < |states| <= |m.entries|
    requires s == PruneOne(others, m, now, dryRun, states[|states| - 1], m.entries[|states| - 1])
    ensures TurnAt(others, m, now, dryRun, states + [s], |states| - 1)
  {
    assert (states + [s])[|states| - 1] == states[|states| - 1] && (states + [s])[|states|] == s;
  }

  lemma RunSnoc(others: Writers, m: Manifest, now: int, dryRun: bool, states: seq<PruneState>, s: PruneState)
    requires PruneRun(others, m, now, dryRun, states) && |states| <= |m.entries|
    requires s == PruneOne(others, m, now, dryRun, states[|states| - 1], m.entries[|states| - 1])
    ensures PruneRun(others, m, now, dryRun, states + [s])
  {
    var all := states + [s];
    TurnAdded(others, m, now, dryRun, states, s);
    forall i: nat | i < |all| - 1 ensures TurnAt(others, m, now, dryRun, all, i) {
      if i < |states| - 1 {
        assert TurnAt(others, m, now, dryRun, states, i);
        TurnKept(others, m, now, dryRun, states, s, i);
      }
    }
  }

  // The state of a run of the tool.
  function Reached(x: PruneResult, store: Store): PruneState
    reads store
  {
    PruneState(x, store.clock, store.db)
  }

  // The decision loop over the first entries of a manifest.
  method PruneEntries(store: Store, m: Manifest, limit: nat, dryRun: bool, now: int)
    returns (x: PruneResult, ghost states: seq<PruneState>)
    requires limit <= |m.entries|
    modifies store
    ensures PruneRun(store.others, m, now, dryRun, states) && |states| == limit + 1
    ensures states[0] == old(Reached(NOTHING, store)) && states[limit] == Reached(x, store)
  {
    x := NOTHING;
    states := [Reached(x, store)];
    for i := 0 to limit
      invariant PruneRun(store.others, m, now, dryRun, states) && |states| == i + 1
      invariant states[0] == old(Reached(NOTHING, store)) && states[i] == Reached(x, store)
    {
      x := PruneEntry(store, m, m.entries[i], dryRun, now, x);
      RunSnoc(store.others, m, now, dryRun, states, Reached(x, store));
      states := states + [Reached(x, store)];
    }
  }

  // Only a manifest that is accepted is worked on, as far as the batch limit allows.
  method PruneTool(store: Store, m: Manifest, batchLimit: nat, dryRun: bool, now: int)
    returns (r: Option<PruneResult>, ghost states: seq<PruneState>)
    modifies store
    ensures r.Some? <==> ValidateManifest(m)
    ensures r.None? ==> store.db == old(store.db) && store.clock == old(store.clock)
    ensures r.Some? ==>
              && PruneRun(store.others, m, now, dryRun, states) && |states| == Smaller(|m.entries|, batchLimit) + 1
              && states[0] == old(Reached(NOTHING, store)) && states[|states| - 1] == Reached(r.value, store)
  {
    states := [];
    if !ValidateManifest(m) {
      return None, states;
    }
    var x;
    x, states := PruneEntries(store, m, Smaller(|m.entries|, batchLimit), dryRun, now);
    r := Some(x);
  }
}
