/** Export and prune together (cmd/transition_archive_export, cmd/transition_archive_prune): from one
    listing to the deletes, with other writers before every statement. */
module ArchiveEndToEnd {
  import opened Text
  import opened Archive
  import opened ArchiveExport
  import opened ArchivePrune

  // ---------------------------------------------------------------- deletions and bundle files

  lemma BundleKept(others: Writers, clock: nat, db: Db, listed: seq<Listed>, made: seq<Bundle>, i: nat, k: nat)
    requires MadeInTurn(others, clock, db, listed, made) && i < |made| && 4 * i + 4 <= k
    requires AppendOnly(others, listed[i].job, clock + 4 * i + 3, clock + k)
    ensures made[i].transitions <= TransitionsOf(Evolve(others, clock, db, k), listed[i].job)
  {
    assert BundleAt(others, clock, db, listed, i) == Some(made[i]);
    LoadedKept(others, clock + 4 * i, Evolve(others, clock, db, 4 * i), listed[i].job);
    NextJob(others, clock, db, i, 4);
    EvolveGrows(others, clock, db, 4 * (i + 1), k, listed[i].job);
  }

  // The rows of a deletion are those in the file its entry names.
  ghost predicate InBundleFile(d: Deletion, files: Files)
  {
    && d.entry.path in files && files[d.entry.path].Json?
    && files[d.entry.path].bundle.job == d.entry.job && files[d.entry.path].bundle.transitions == d.transitions
  }

  // The bundle file of a deletion records the terminal state, the last sequence number and the row
  // counts the job had when it was found eligible, and the job was old enough.
  ghost predicate MatchesFile(d: Deletion, files: Files, days: nat, now: int)
  {
    && d.entry.path in files && files[d.entry.path].Json?
    && var b := files[d.entry.path].bundle;
       && b.job == d.entry.job && IsTerminal(d.live.row.state) && Cold(d.live.row, days, now)
       && b.row.state == d.live.row.state && b.row.lastSequence == d.live.row.lastSequence
       && |b.transitions| == d.live.transitions && |b.tasks| == d.live.tasks && |b.sequences| == d.live.sequences
  }

  ghost predicate AllMatched(deletions: seq<Deletion>, files: Files, days: nat, now: int)
  {
    forall k :: 0 <= k < |deletions| ==> MatchesFile(deletions[k], files, days, now)
  }

  lemma MatchOne(d: Deletion, m: Manifest, files: Files, sha: Digest, now: int)
    requires d.entry in m.entries && Eligible(m, d.entry, Some(d.live), now) && AllVerified(files, sha, m.entries)
    ensures MatchesFile(d, files, m.hotRetentionDays, now)
  {
    var i :| 0 <= i < |m.entries| && m.entries[i] == d.entry;
    assert Verified(files, sha, m.entries[i]);
  }

  lemma AllMatch(deletions: seq<Deletion>, m: Manifest, files: Files, sha: Digest, now: int)
    requires AllEligible(deletions, m, now) && AllVerified(files, sha, m.entries)
    ensures AllMatched(deletions, files, m.hotRetentionDays, now)
  {
    forall k | 0 <= k < |deletions| ensures MatchesFile(deletions[k], files, m.hotRetentionDays, now) {
      assert deletions[k].entry in m.entries;
      MatchOne(deletions[k], m, files, sha, now);
    }
  }

  // From the export's read of the i-th job, which started at statement `clock`, to the count before a
  // deletion its transitions were only added to, and from there to the delete none was added.
  ghost predicate Undisturbed(others: Writers, clock: nat, i: nat, d: Deletion)
  {
    AppendOnly(others, d.entry.job, clock + 4 * i + 3, d.at + 2) && Quiet(others, d.entry.job, d.at + 2, d.at + 5)
  }

  // Every undisturbed deletion is covered by its bundle file.
  ghost predicate Covered(deletions: seq<Deletion>, entries: seq<Entry>, others: Writers, clock: nat, files: Files)
  {
    forall k, i ::
      (0 <= k < |deletions| && 0 <= i < |entries| && deletions[k].entry == entries[i] && Undisturbed(others, clock, i, deletions[k]))
      ==> InBundleFile(deletions[k], files)
  }

  // The files of a verified export hold the bundles made.
  lemma FileOf(files: Files, sha: Digest, listed: seq<Listed>, x: Export, i: nat)
    requires Describes(x.entries, listed, x.made, sha) && x.files == Written(files, x.made)
    requires AllVerified(x.files, sha, x.entries) && DistinctJobs(listed) && i < |x.entries|
    ensures x.entries[i].path in x.files && x.files[x.entries[i].path] == Json(x.made[i])
  {
    VerifiedIff(files, sha, listed, x.made, x.entries);
    forall j | i < j < |x.made| ensures Paths(x.made)[j] != Paths(x.made)[i] {
      PathInjective(x.made[i].job, x.made[j].job);
    }
    LastWritten(files, Paths(x.made), x.made, i);
  }

  lemma DeletedFromFile(others: Writers, clock: nat, db: Db, x: Export, files: Files, sha: Digest, listed: seq<Listed>,
                        n: nat, i: nat, d: Deletion)
    requires Progress(x, files, sha, listed, others, clock, db) && |x.made| == |listed| && DistinctJobs(listed)
    requires AllVerified(x.files, sha, x.entries) && 4 * |listed| <= n && clock + n <= d.at
    requires i < |x.entries| && d.entry == x.entries[i] && Lossless(d, others, clock + n, Evolve(others, clock, db, n))
    requires Undisturbed(others, clock, i, d)
    ensures InBundleFile(d, x.files)
  {
    assert listed[..|x.made|] == listed;
    FileOf(files, sha, listed, x, i);
    var job := d.entry.job;
    assert AppendOnly(others, job, clock + 4 * i + 3, clock + n) && AppendOnly(others, job, clock + n, d.at + 2);
    BundleKept(others, clock, db, listed, x.made, i, n);
    assert d.transitions == x.made[i].transitions;
  }

  lemma AllCovered(others: Writers, clock: nat, db: Db, x: Export, files: Files, sha: Digest, listed: seq<Listed>,
                   n: nat, start: PruneState, deletions: seq<Deletion>)
    requires start.clock == clock + n && start.db == Evolve(others, clock, db, n)
    requires Progress(x, files, sha, listed, others, clock, db) && |x.made| == |listed| && DistinctJobs(listed)
    requires AllVerified(x.files, sha, x.entries) && 4 * |listed| <= n
    requires AllLossless(deletions, x.entries, others, start)
    ensures Covered(deletions, x.entries, others, clock, x.files)
  {
    forall k, i | 0 <= k < |deletions| && 0 <= i < |x.entries| && deletions[k].entry == x.entries[i] &&
                  Undisturbed(others, clock, i, deletions[k])
      ensures InBundleFile(deletions[k], x.files)
    {
      DeletedFromFile(others, clock, db, x, files, sha, listed, n, i, deletions[k]);
    }
  }

  // ---------------------------------------------------------------- jobs that are certainly pruned

  lemma EntriesDistinct(x: Export, files: Files, sha: Digest, listed: seq<Listed>, others: Writers, clock: nat, db: Db)
    requires Progress(x, files, sha, listed, others, clock, db) && |x.made| == |listed| && DistinctJobs(listed)
    ensures DistinctEntries(x.entries) && |x.entries| == |listed|
  {
    assert listed[..|x.made|] == listed;
  }

  // The listing describes the job as it is when the export begins, the job is old enough, and nobody
  // touches it between two statements.
  ghost predicate Certain(others: Writers, db: Db, l: Listed, days: nat, now: int, from: nat, to: nat)
  {
    Untouched(others, l.job, from, to) && ListedAs(db, l, days, now)
  }

  lemma StillListed(others: Writers, clock: nat, db: Db, l: Listed, days: nat, now: int, k: nat)
    requires Certain(others, db, l, days, now, clock, clock + k)
    ensures SameJob(db, Evolve(others, clock, db, k), l.job) && ListedAs(Evolve(others, clock, db, k), l, days, now)
  {
    EvolveSame(others, clock, db, k, l.job);
  }

  lemma SameUpTo(others: Writers, clock: nat, db: Db, l: Listed, days: nat, now: int, to: nat, k: nat, at: Db)
    requires Certain(others, db, l, days, now, clock, to) && clock + k <= to && at == Evolve(others, clock, db, k)
    ensures SameJob(db, at, l.job)
  {
    EvolveSame(others, clock, db, k, l.job);
  }

  lemma SameSince(a: Db, b: Db, c: Db, job: string)
    requires SameJob(a, b, job) && SameJob(a, c, job)
    ensures SameJob(b, c, job)
  {}

  lemma EntryFor(x: Export, files: Files, sha: Digest, listed: seq<Listed>, others: Writers, clock: nat, db: Db, i: nat)
    requires Progress(x, files, sha, listed, others, clock, db) && |x.made| == |listed| && i < |listed|
    ensures |x.entries| == |listed| && x.entries[i] == EntryOf(listed[i], x.made[i], sha)
  {
    assert listed[..|x.made|] == listed;
  }

  // The state its bundle was read from.
  lemma MadeFor(others: Writers, clock: nat, db: Db, listed: seq<Listed>, made: seq<Bundle>, i: nat) returns (c: nat, at: Db)
    requires MadeInTurn(others, clock, db, listed, made) && i < |made|
    ensures c == clock + 4 * i && at == Evolve(others, clock, db, 4 * i) && Loaded(others, c, at, listed[i].job) == Some(made[i])
  {
    c, at := clock + 4 * i, Evolve(others, clock, db, 4 * i);
    BundleHere(others, clock, db, listed, i, c, at);
  }

  // The entry of a certain job is eligible in any later state that still has the job's rows.
  lemma CertainRipe(others: Writers, clock: nat, db: Db, l: Listed, sha: Digest, b: Bundle, m: Manifest, e: Entry,
                    c: nat, at: Db, s: PruneState, now: int)
    requires Certain(others, db, l, m.hotRetentionDays, now, clock, s.clock + 4) && clock <= c <= s.clock
    requires SameJob(db, at, l.job) && SameJob(db, s.db, l.job)
    requires Loaded(others, c, at, l.job) == Some(b) && e == EntryOf(l, b, sha)
    ensures Ripe(others, m, e, now, s)
  {
    SameSince(db, at, s.db, l.job);
    assert ListedAs(at, l, m.hotRetentionDays, now);
    assert Untouched(others, l.job, c, c + 4) && Untouched(others, l.job, s.clock, s.clock + 4);
    UntouchedEligible(others, c, at, l, sha, b, m, s.clock, s.db, now);
  }

  // In particular in the state prune starts from.
  lemma CertainEligible(others: Writers, clock: nat, db: Db, x: Export, files: Files, sha: Digest, listed: seq<Listed>,
                        m: Manifest, n: nat, i: nat, s: PruneState, now: int)
    requires Progress(x, files, sha, listed, others, clock, db) && |x.made| == |listed| && i < |listed| && 4 * i + 4 <= n
    requires s.clock == clock + n && s.db == Evolve(others, clock, db, n)
    requires Certain(others, db, listed[i], m.hotRetentionDays, now, clock, s.clock + 4)
    ensures |x.entries| == |listed| && Ripe(others, m, x.entries[i], now, s)
  {
    EntryFor(x, files, sha, listed, others, clock, db, i);
    var c, at := MadeFor(others, clock, db, listed, x.made, i);
    SameUpTo(others, clock, db, listed[i], m.hotRetentionDays, now, s.clock + 4, n, s.db);
    SameUpTo(others, clock, db, listed[i], m.hotRetentionDays, now, s.clock + 4, 4 * i, at);
    CertainRipe(others, clock, db, listed[i], sha, x.made[i], m, x.entries[i], c, at, s, now);
  }

  // A certain job's turn ends before the run does.
  lemma TurnInRun(others: Writers, m: Manifest, now: int, states: seq<PruneState>, i: nat)
    requires PruneRun(others, m, now, false, states) && i < |states| - 1 && DistinctEntries(m.entries)
    requires Untouched(others, m.entries[i].job, states[0].clock, states[|states| - 1].clock) && m.entries[i].job in states[0].db.jobs
    ensures states[0].clock <= states[i].clock && states[i].clock + 4 <= states[|states| - 1].clock
  {
    ClockGrows(others, m, now, false, states, 0, i);
    ClockGrows(others, m, now, false, states, i, i + 1);
    ClockGrows(others, m, now, false, states, i + 1, |states| - 1);
    OthersPruned(others, m, now, false, states, i, m.entries[i].job);
    assert TurnAt(others, m, now, false, states, i);
    TurnLength(others, m, now, false, states[i], m.entries[i]);
  }

  lemma CertainPruned(others: Writers, clock: nat, db: Db, x: Export, files: Files, sha: Digest, listed: seq<Listed>,
                      m: Manifest, n: nat, states: seq<PruneState>, i: nat, now: int)
    requires Progress(x, files, sha, listed, others, clock, db) && |x.made| == |listed| && DistinctJobs(listed)
    requires m.entries == x.entries && PruneRun(others, m, now, false, states) && i < |states| - 1 && i < |listed| && 4 * |listed| <= n
    requires states[0].clock == clock + n && states[0].db == Evolve(others, clock, db, n)
    requires Certain(others, db, listed[i], m.hotRetentionDays, now, clock, states[|states| - 1].clock)
    ensures i < |x.entries| && Deletes(states[|states| - 1].result.deletions, x.entries[i])
  {
    EntriesDistinct(x, files, sha, listed, others, clock, db);
    ClockGrows(others, m, now, false, states, 0, |states| - 1);
    assert x.entries[i].job == listed[i].job by { EntryFor(x, files, sha, listed, others, clock, db, i); }
    assert listed[i].job in states[0].db.jobs by { StillListed(others, clock, db, listed[i], m.hotRetentionDays, now, n); }
    TurnInRun(others, m, now, states, i);
    CertainEligible(others, clock, db, x, files, sha, listed, m, n, i, states[0], now);
    UntouchedPruned(others, m, now, states, i);
  }

  // ---------------------------------------------------------------- the whole protocol

  lemma AfterWaiting(others: Writers, clock: nat, db: Db, n: nat, midClock: nat, mid: Db, wait: nat)
    requires mid == Evolve(others, clock, db, n) && midClock == clock + n
    ensures Evolve(others, midClock, mid, wait) == Evolve(others, clock, db, n + wait)
  {
    EvolvePlus(others, clock, db, n, wait);
  }

  lemma ExportAccepted(others: Writers, clock: nat, db: Db, x: Export, files: Files, sha: Digest, listed: seq<Listed>, accepted: bool)
    requires DistinctJobs(listed)
    requires !AllPresent(others, clock, db, listed) ==> !accepted
    requires AllPresent(others, clock, db, listed) ==>
               Progress(x, files, sha, listed, others, clock, db) && |x.made| == |listed| &&
               (accepted <==> AllVerified(x.files, sha, x.entries))
    ensures accepted <==>
              AllPresent(others, clock, db, listed) && DistinctNames(listed) && ReadAsListed(others, clock, db, listed)
  {
    if AllPresent(others, clock, db, listed) {
      assert listed[..|x.made|] == listed;
      VerifiedIff(files, sha, listed, x.made, x.entries);
      StatesRead(others, clock, db, listed, x.made);
    }
  }

  lemma RunLossless(others: Writers, m: Manifest, now: int, states: seq<PruneState>)
    requires PruneRun(others, m, now, false, states) && DistinctEntries(m.entries)
    ensures var deletions := states[|states| - 1].result.deletions;
            AllLossless(deletions, m.entries, others, states[0]) && AllEligible(deletions, m, now)
  {
    var pruned := PruneSafe(others, m, now, false, states, |states| - 1);
  }

  // The listed jobs a run reaches and nobody touches are all deleted by it.
  ghost predicate AllPruned(others: Writers, clock: nat, db: Db, listed: seq<Listed>, entries: seq<Entry>, k: nat, days: nat, now: int,
                            end: PruneState)
    requires k <= |listed| == |entries|
  {
    forall i :: 0 <= i < k && Certain(others, db, listed[i], days, now, clock, end.clock) ==> Deletes(end.result.deletions, entries[i])
  }

  lemma RunPrunes(others: Writers, clock: nat, db: Db, x: Export, files: Files, sha: Digest, listed: seq<Listed>,
                  m: Manifest, n: nat, states: seq<PruneState>, now: int)
    requires Progress(x, files, sha, listed, others, clock, db) && |x.made| == |listed| && DistinctJobs(listed)
    requires 4 * |listed| <= n && m.entries == x.entries && |x.entries| == |listed| && PruneRun(others, m, now, false, states)
    requires states[0].clock == clock + n && states[0].db == Evolve(others, clock, db, n)
    ensures AllPruned(others, clock, db, listed, x.entries, |states| - 1, m.hotRetentionDays, now, states[|states| - 1])
  {
    var end := states[|states| - 1];
    forall i | 0 <= i < |states| - 1 && Certain(others, db, listed[i], m.hotRetentionDays, now, clock, end.clock)
      ensures Deletes(end.result.deletions, x.entries[i])
    {
      CertainPruned(others, clock, db, x, files, sha, listed, m, n, states, i, now);
    }
  }

  // What a prune run of the manifest does, started n statements after the export began.
  lemma RunCovered(others: Writers, clock: nat, db: Db, x: Export, files: Files, sha: Digest, listed: seq<Listed>,
                   m: Manifest, n: nat, states: seq<PruneState>, now: int)
    requires Progress(x, files, sha, listed, others, clock, db) && |x.made| == |listed| && DistinctJobs(listed)
    requires AllVerified(x.files, sha, x.entries) && 4 * |listed| <= n && m.entries == x.entries
    requires PruneRun(others, m, now, false, states)
    requires states[0].clock == clock + n && states[0].db == Evolve(others, clock, db, n)
    ensures |x.entries| == |listed|
    ensures Covered(states[|states| - 1].result.deletions, x.entries, others, clock, x.files)
    ensures AllMatched(states[|states| - 1].result.deletions, x.files, m.hotRetentionDays, now)
    ensures AllPruned(others, clock, db, listed, x.entries, |states| - 1, m.hotRetentionDays, now, states[|states| - 1])
  {
    var deletions := states[|states| - 1].result.deletions;
    EntriesDistinct(x, files, sha, listed, others, clock, db);
    RunLossless(others, m, now, states);
    AllMatch(deletions, m, x.files, sha, now);
    AllCovered(others, clock, db, x, files, sha, listed, n, states[0], deletions);
    RunPrunes(others, clock, db, x, files, sha, listed, m, n, states, now);
  }

  // Exporting with verification, waiting, and pruning from the manifest.  The export is accepted
  // exactly when every job is present, no two share a file name and each is read in the state it was
  // listed in.  Then every transition row prune deletes is in the verified bundle file, unless the
  // job was disturbed; and the listed jobs nobody touches, within the batch limit, are all pruned.
  method ArchiveThenPrune(store: Store, files: Files, sha: Digest, listed: seq<Listed>, days: nat,
                          wait: nat, batchLimit: nat, now: int)
    returns (x: Export, manifest: Option<Manifest>, deletions: seq<Deletion>)
    requires DistinctJobs(listed)
    modifies store
    ensures manifest.Some? <==>
              && AllPresent(store.others, old(store.clock), old(store.db), listed)
              && DistinctNames(listed) && ReadAsListed(store.others, old(store.clock), old(store.db), listed)
    ensures Covered(deletions, x.entries, store.others, old(store.clock), x.files)
    ensures AllMatched(deletions, x.files, days, now)
    ensures manifest.Some? ==>
              |x.entries| == |listed| &&
              forall i :: 0 <= i < Smaller(|listed|, batchLimit) &&
                          Certain(store.others, old(store.db), listed[i], days, now, old(store.clock), store.clock) ==>
                            Deletes(deletions, x.entries[i])
  {
    ghost var others, clock, db := store.others, store.clock, store.db;
    manifest, x := ExportTool(store, files, sha, listed, ExportConfig(days, false, true));
    deletions := [];
    ExportAccepted(others, clock, db, x, files, sha, listed, manifest.Some?);
    if manifest.Some? {
      ghost var n, mid, midClock := 4 * |listed|, store.db, store.clock;
      store.Idle(wait);
      AfterWaiting(others, clock, db, n, midClock, mid, wait);
      var pruned, states := PruneTool(store, manifest.value, batchLimit, false, now);
      if pruned.Some? { deletions := pruned.value.deletions; }
      RunCovered(others, clock, db, x, files, sha, listed, manifest.value, n + wait, states, now);
    }
  }

  // ---------------------------------------------------------------- a transition that is lost

  // One finished job without transitions, and a writer that inserts one before statement 8: the
  // export reads with statements 0 to 3, prune reads with 4 to 7 and deletes with 8.
  const LATE := Transition("j", 1, "late")

  const FINISHED := JobRow("job", "FAILED", 0, 0)

  const LISTED := Listed("j", "FAILED")

  const BEFORE := Db(map["j" := FINISHED], {}, {}, {})

  const ARCHIVED := Bundle(SCHEMA, "j", FINISHED, {}, {}, {})

  function LateWriter(n: nat, db: Db): Db
  {
    if n == 8 then db.(transitions := db.transitions + {LATE}) else db
  }

  lemma {:induction false} NothingYet(clock: nat, k: nat)
    requires clock + k <= 8
    ensures Evolve(LateWriter, clock, BEFORE, k) == BEFORE
  {
    if k > 0 {
      NothingYet(clock, k - 1);
    }
  }

  lemma NoRows(job: string)
    ensures TransitionsOf(BEFORE, job) == {} && TasksOf(BEFORE, job) == {} && SequencesOf(BEFORE, job) == {}
  {}

  lemma LateLoaded()
    ensures Loaded(LateWriter, 0, BEFORE, "j") == Some(ARCHIVED)
  {
    NothingYet(0, 1);
    NothingYet(0, 2);
    NothingYet(0, 3);
    NothingYet(0, 4);
    NoRows("j");
  }

  function LateExport(sha: Digest): Export { Extended(Export(map[], [], []), sha, LISTED, ARCHIVED) }

  lemma LateExported(sha: Digest)
    ensures Exporting(LateExport(sha), map[], sha, [LISTED], LateWriter, 0, BEFORE, 1, 4, BEFORE)
    ensures AllVerified(LateExport(sha).files, sha, LateExport(sha).entries)
  {
    LateLoaded();
    NothingYet(0, 0);
    NothingYet(0, 4);
    ExportStep(Export(map[], [], []), map[], sha, [LISTED], LateWriter, 0, BEFORE, 0, 0, BEFORE, ARCHIVED, BEFORE);
    assert LateExport(sha).entries == [EntryOf(LISTED, ARCHIVED, sha)];
    assert Verified(LateExport(sha).files, sha, EntryOf(LISTED, ARCHIVED, sha));
  }

  lemma LateSnapshot()
    ensures LiveSnapshot(LateWriter, 4, BEFORE, "j") == Some(Snapshot(FINISHED, 0, 0, 0))
  {
    NothingYet(4, 1);
    NothingYet(4, 2);
    NothingYet(4, 3);
    NothingYet(4, 4);
    NoRows("j");
  }

  lemma LateDelete()
    ensures Evolve(LateWriter, 4, BEFORE, 5) == BEFORE.(transitions := {LATE})
    ensures TransitionsOf(BEFORE.(transitions := {LATE}), "j") == {LATE}
    ensures Deleted(BEFORE.(transitions := {LATE}), "j").transitions == {}
  {
    NothingYet(4, 4);
    assert {} + {LATE} == {LATE};
    assert TransitionsOf(BEFORE.(transitions := {LATE}), "j") == {LATE};
  }

  // The run of prune from the manifest of the verified export.
  lemma LatePruned(sha: Digest, m: Manifest, s: PruneState, t: PruneState)
    requires m.hotRetentionDays == 1 && m.entries == LateExport(sha).entries && s == PruneState(NOTHING, 4, BEFORE)
    requires t == PruneOne(LateWriter, m, 2 * DAY, false, s, EntryOf(LISTED, ARCHIVED, sha))
    ensures |t.result.deletions| == 1 && t.result.deletions[0].transitions == {LATE}
    ensures t.result.deletions[0].entry == EntryOf(LISTED, ARCHIVED, sha) && t.db.transitions == {}
  {
    var e := EntryOf(LISTED, ARCHIVED, sha);
    LateSnapshot();
    LateDelete();
    assert Eligible(m, e, Some(Snapshot(FINISHED, 0, 0, 0)), 2 * DAY);
  }

  lemma LateFile(sha: Digest)
    ensures var x, e := LateExport(sha), EntryOf(LISTED, ARCHIVED, sha);
            x.entries == [e] && e.path in x.files && x.files[e.path] == Json(ARCHIVED)
  {}

  lemma LateRun(sha: Digest, m: Manifest) returns (states: seq<PruneState>)
    requires m.hotRetentionDays == 1 && m.entries == LateExport(sha).entries
    ensures PruneRun(LateWriter, m, 2 * DAY, false, states) && |states| == 2 && states[0] == PruneState(NOTHING, 4, BEFORE)
    ensures var d := states[1].result.deletions;
            |d| == 1 && d[0].transitions == {LATE} && d[0].entry == EntryOf(LISTED, ARCHIVED, sha) && states[1].db.transitions == {}
  {
    LateFile(sha);
    var s, e := PruneState(NOTHING, 4, BEFORE), EntryOf(LISTED, ARCHIVED, sha);
    var t := PruneOne(LateWriter, m, 2 * DAY, false, s, e);
    assert PruneRun(LateWriter, m, 2 * DAY, false, [s]);
    RunSnoc(LateWriter, m, 2 * DAY, false, [s], t);
    LatePruned(sha, m, s, t);
    states := [s] + [t];
  }

  // The quiet window is needed.  The job is exported, verified and accepted, transitions are only ever
  // added, and the run deletes a transition that is not in the bundle file.
  lemma LateTransitionLost(sha: Digest) returns (x: Export, m: Manifest, states: seq<PruneState>)
    ensures AppendOnly(LateWriter, "j", 0, 9)
    ensures Exporting(x, map[], sha, [LISTED], LateWriter, 0, BEFORE, 1, 4, BEFORE) && AllVerified(x.files, sha, x.entries)
    ensures m == ManifestOf(ExportConfig(1, false, true), 1, x.entries) && ValidateManifest(m)
    ensures PruneRun(LateWriter, m, 2 * DAY, false, states) && |states| == 2 && states[0] == PruneState(NOTHING, 4, BEFORE)
    ensures var d := states[1].result.deletions;
            && |d| == 1 && d[0].transitions == {LATE} && LATE !in states[1].db.transitions
            && d[0].entry.path in x.files && x.files[d[0].entry.path] == Json(ARCHIVED) && LATE !in ARCHIVED.transitions
  {
    x := LateExport(sha);
    LateExported(sha);
    LateFile(sha);
    m := ManifestOf(ExportConfig(1, false, true), 1, x.entries);
    states := LateRun(sha, m);
  }
}
