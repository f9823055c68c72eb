/** Exporting jobs to bundle files and verifying the files against the manifest
    (cmd/transition_archive_export/main.go). */
module ArchiveExport {
  import opened Text
  import opened Archive

  const SCHEMA := "transition-archive-v1"

  // A job as the listing query saw it.
  datatype Listed = Listed(job: string, state: string)

  datatype Bundle = Bundle(schema: string, job: string, row: JobRow, tasks: set<TaskRow>,
                           transitions: set<Transition>, sequences: set<SequenceRow>)

  // File contents: an encoded bundle, or anything that does not decode to one.
  datatype Payload = Json(bundle: Bundle) | Garbage(text: string)

  type Files = map<string, Payload>

  datatype Entry = Entry(job: string, state: string, path: string, sha: string,
                         transitionRows: nat, taskRows: nat, sequenceRows: nat, lastSequence: int)

  datatype Verification = Verification(enabled: bool, verified: bool, verifiedBundles: nat, checksPassed: bool)

  datatype Manifest = Manifest(schema: string, hotRetentionDays: nat, selectedJobs: nat, exportedJobs: nat,
                               entries: seq<Entry>, verification: Verification)

  // SHA-256 of a file's bytes; nothing is assumed about it.
  type Digest = Payload -> string

  // ---------------------------------------------------------------- exporting one job

  // Four queries, each finding the database as the other writers left it.
  function Loaded(others: Writers, clock: nat, db: Db, job: string): Option<Bundle>
  {
    var first := Evolve(others, clock, db, 1);
    if job !in first.jobs then None
    else Some(Bundle(SCHEMA, job, first.jobs[job],
                     TasksOf(Evolve(others, clock, db, 2), job),
                     TransitionsOf(Evolve(others, clock, db, 3), job),
                     SequencesOf(Evolve(others, clock, db, 4), job)))
  }

  function EntryOf(listed: Listed, b: Bundle, sha: Digest): Entry
  {
    Entry(listed.job, listed.state, PathOf(listed.job), sha(Json(b)),
          |b.transitions|, |b.tasks|, |b.sequences|, b.row.lastSequence)
  }

  // The bundle holds only rows the job still has, if its rows are only added to.
  lemma LoadedKept(others: Writers, clock: nat, db: Db, job: string)
    requires AppendOnly(others, job, clock + 3, clock + 4) && Loaded(others, clock, db, job).Some?
    ensures Loaded(others, clock, db, job).value.transitions <= TransitionsOf(Evolve(others, clock, db, 4), job)
  {
    EvolveGrows(others, clock, db, 3, 4, job);
  }

  method LoadBundle(store: Store, job: string) returns (b: Option<Bundle>)
    modifies store
    ensures b == Loaded(store.others, old(store.clock), old(store.db), job)
    ensures var n := if b.None? then 1 else 4;
            store.clock == old(store.clock) + n &&
            store.db == Evolve(store.others, old(store.clock), old(store.db), n)
  {
    ghost var others, clock, db := store.others, store.clock, store.db;
    assert Evolve(others, clock, db, 0) == db;
    store.Tick();
    assert store.db == Evolve(others, clock, db, 1);
    if job !in store.db.jobs {
      return None;
    }
    var row := store.db.jobs[job];
    store.Tick();
    assert store.db == Evolve(others, clock, db, 2);
    var tasks := TasksOf(store.db, job);
    store.Tick();
    assert store.db == Evolve(others, clock, db, 3);
    var transitions := TransitionsOf(store.db, job);
    store.Tick();
    assert store.db == Evolve(others, clock, db, 4);
    var sequences := SequencesOf(store.db, job);
    b := Some(Bundle(SCHEMA, job, row, tasks, transitions, sequences));
  }

  // ---------------------------------------------------------------- verification

  // What verifyManifest checks of one entry.
  predicate Verified(files: Files, sha: Digest, e: Entry)
  {
    && e.path in files && sha(files[e.path]) == e.sha && files[e.path].Json?
    && var b := files[e.path].bundle;
       && b.schema == SCHEMA && b.job == e.job && b.row.state == e.state
       && |b.tasks| == e.taskRows && |b.transitions| == e.transitionRows && |b.sequences| == e.sequenceRows
       && b.row.lastSequence == e.lastSequence
  }

  ghost predicate AllVerified(files: Files, sha: Digest, entries: seq<Entry>)
  {
    forall i :: 0 <= i < |entries| ==> Verified(files, sha, entries[i])
  }

  method VerifyManifest(files: Files, sha: Digest, entries: seq<Entry>) returns (r: Option<Verification>)
    ensures r.Some? <==> AllVerified(files, sha, entries)
    ensures r.Some? ==> r.value == Verification(true, true, |entries|, true)
  {
    var count := 0;
    for i := 0 to |entries|
      invariant count == i && forall k :: 0 <= k < i ==> Verified(files, sha, entries[k])
    {
      if !Verified(files, sha, entries[i]) {
        return None;
      }
      count := count + 1;
    }
    r := Some(Verification(true, true, count, true));
  }

  // An entry that verifies is determined by its file: no recorded field can differ.
  lemma EntryDetermined(files: Files, sha: Digest, e: Entry, f: Entry)
    requires Verified(files, sha, e) && Verified(files, sha, f) && e.path == f.path
    ensures e == f && files[e.path].Json? && files[e.path].bundle.schema == SCHEMA
  {}

  // A file that was replaced by one with another digest, or removed, does not verify.
  lemma TamperDetected(files: Files, sha: Digest, entries: seq<Entry>, i: nat, other: Payload)
    requires AllVerified(files, sha, entries) && i < |entries| && sha(other) != sha(files[entries[i].path])
    ensures !AllVerified(files[entries[i].path := other], sha, entries) && !AllVerified(files - {entries[i].path}, sha, entries)
  {
    assert Verified(files, sha, entries[i]);
    assert !Verified(files[entries[i].path := other], sha, entries[i]) && !Verified(files - {entries[i].path}, sha, entries[i]);
  }

  // Entries for different jobs that verify have different files.
  lemma VerifiedDistinct(files: Files, sha: Digest, entries: seq<Entry>, i: nat, j: nat)
    requires AllVerified(files, sha, entries) && i < |entries| && j < |entries| && entries[i].job != entries[j].job
    ensures entries[i].path != entries[j].path
    ensures files[entries[i].path].Json? && files[entries[i].path].bundle.job == entries[i].job
  {
    assert Verified(files, sha, entries[i]) && Verified(files, sha, entries[j]);
  }

  // ---------------------------------------------------------------- a whole export

  // The entries and files that bundles made for listed jobs lead to.
  ghost predicate Describes(entries: seq<Entry>, listed: seq<Listed>, made: seq<Bundle>, sha: Digest)
  {
    && |entries| == |listed| == |made|
    && forall i :: 0 <= i < |entries| ==>
         entries[i] == EntryOf(listed[i], made[i], sha) && made[i].schema == SCHEMA && made[i].job == listed[i].job
  }

  // Files written one after the other; a later one replaces an earlier one of the same path.
  function WriteAll(files: Files, paths: seq<string>, made: seq<Bundle>): Files
    requires |paths| == |made|
  {
    if made == [] then files
    else
      var n := |made| - 1;
      WriteAll(files, paths[..n], made[..n])[paths[n] := Json(made[n])]
  }

  function Paths(made: seq<Bundle>): (paths: seq<string>)
    ensures |paths| == |made| && forall i :: 0 <= i < |made| ==> paths[i] == PathOf(made[i].job)
  {
    seq(|made|, i requires 0 <= i < |made| => PathOf(made[i].job))
  }

  function Written(files: Files, made: seq<Bundle>): Files { WriteAll(files, Paths(made), made) }

  // The bundle of the i-th job when jobs are exported one after the other, four queries each.
  ghost function BundleAt(others: Writers, clock: nat, db: Db, listed: seq<Listed>, i: nat): Option<Bundle>
    requires i < |listed|
  {
    Loaded(others, clock + 4 * i, Evolve(others, clock, db, 4 * i), listed[i].job)
  }

  ghost predicate MadeInTurn(others: Writers, clock: nat, db: Db, listed: seq<Listed>, made: seq<Bundle>)
  {
    |made| <= |listed| &&
    forall i {:trigger BundleAt(others, clock, db, listed, i)} :: 0 <= i < |made| ==>
      BundleAt(others, clock, db, listed, i) == Some(made[i])
  }

  lemma NextJob(others: Writers, clock: nat, db: Db, i: nat, k: nat)
    ensures Evolve(others, clock + k * i, Evolve(others, clock, db, k * i), k) == Evolve(others, clock, db, k * (i + 1))
  {
    EvolvePlus(others, clock, db, k * i, k);
    assert k * i + k == k * (i + 1);
  }

  lemma MadeSnoc(others: Writers, clock: nat, db: Db, listed: seq<Listed>, made: seq<Bundle>, b: Bundle)
    requires MadeInTurn(others, clock, db, listed, made) && |made| < |listed|
    requires Some(b) == BundleAt(others, clock, db, listed, |made|)
    ensures MadeInTurn(others, clock, db, listed, made + [b])
  {
    var all := made + [b];
    forall i | 0 <= i < |all| ensures Some(all[i]) == BundleAt(others, clock, db, listed, i) {
      if i < |made| { assert all[i] == made[i]; }
    }
  }

  lemma DescribesSnoc(entries: seq<Entry>, listed: seq<Listed>, made: seq<Bundle>, sha: Digest, l: Listed, b: Bundle)
    requires Describes(entries, listed, made, sha) && b.schema == SCHEMA && b.job == l.job
    ensures Describes(entries + [EntryOf(l, b, sha)], listed + [l], made + [b], sha)
  {}

  lemma DescribesNext(entries: seq<Entry>, listed: seq<Listed>, made: seq<Bundle>, sha: Digest, b: Bundle)
    requires |made| < |listed| && Describes(entries, listed[..|made|], made, sha)
    requires b.schema == SCHEMA && b.job == listed[|made|].job
    ensures Describes(entries + [EntryOf(listed[|made|], b, sha)], listed[..|made| + 1], made + [b], sha)
  {
    var i := |made|;
    DescribesSnoc(entries, listed[..i], made, sha, listed[i], b);
    assert listed[..i + 1] == listed[..i] + [listed[i]];
  }

  lemma WrittenSnoc(files: Files, made: seq<Bundle>, b: Bundle)
    ensures Written(files, made + [b]) == Written(files, made)[PathOf(b.job) := Json(b)]
  {
    var all := made + [b];
    assert all[..|made|] == made && Paths(all)[..|made|] == Paths(made);
  }

  // The export's results so far: the manifest entries, the files, and (for the proofs) the bundles.
  datatype Export = Export(files: Files, entries: seq<Entry>, made: seq<Bundle>)

  // How far an export has come that started with `files` at statement `clock` on `db`.
  ghost predicate Progress(x: Export, files: Files, sha: Digest, listed: seq<Listed>, others: Writers, clock: nat, db: Db)
  {
    && MadeInTurn(others, clock, db, listed, x.made)
    && x.files == Written(files, x.made) && Describes(x.entries, listed[..|x.made|], x.made, sha)
  }

  lemma ProgressNext(x: Export, files: Files, sha: Digest, listed: seq<Listed>, others: Writers, clock: nat, db: Db, b: Bundle)
    requires Progress(x, files, sha, listed, others, clock, db) && |x.made| < |listed|
    requires MadeInTurn(others, clock, db, listed, x.made + [b]) && b.schema == SCHEMA && b.job == listed[|x.made|].job
    ensures Progress(Extended(x, sha, listed[|x.made|], b), files, sha, listed, others, clock, db)
  {
    DescribesNext(x.entries, listed, x.made, sha, b);
    WrittenSnoc(files, x.made, b);
  }

  // Every listed job still has a row when its turn comes.
  ghost predicate AllPresent(others: Writers, clock: nat, db: Db, listed: seq<Listed>)
  {
    forall i {:trigger BundleAt(others, clock, db, listed, i)} :: 0 <= i < |listed| ==>
      BundleAt(others, clock, db, listed, i).Some?
  }

  // An export that has come to its i-th job, at statement c on d.
  ghost predicate Exporting(x: Export, files: Files, sha: Digest, listed: seq<Listed>, others: Writers, clock: nat, db: Db,
                            i: nat, c: nat, d: Db)
  {
    && Progress(x, files, sha, listed, others, clock, db) && |x.made| == i <= |listed|
    && c == clock + 4 * i && d == Evolve(others, clock, db, 4 * i)
  }

  // What exporting one job makes of the results so far.
  function Extended(x: Export, sha: Digest, job: Listed, b: Bundle): Export
  {
    Export(x.files[PathOf(job.job) := Json(b)], x.entries + [EntryOf(job, b, sha)], x.made + [b])
  }

  lemma LoadedFacts(others: Writers, clock: nat, db: Db, job: string)
    ensures var b := Loaded(others, clock, db, job); b.Some? ==> b.value.schema == SCHEMA && b.value.job == job
  {}

  lemma BundleHere(others: Writers, clock: nat, db: Db, listed: seq<Listed>, i: nat, c: nat, d: Db)
    requires i < |listed| && c == clock + 4 * i && d == Evolve(others, clock, db, 4 * i)
    ensures BundleAt(others, clock, db, listed, i) == Loaded(others, c, d, listed[i].job)
  {}

  // What reading the i-th job adds to the bundles, and where it leaves the database.
  lemma ReadNext(others: Writers, clock: nat, db: Db, listed: seq<Listed>, made: seq<Bundle>, c: nat, d: Db, b: Bundle)
    requires MadeInTurn(others, clock, db, listed, made) && |made| < |listed|
    requires c == clock + 4 * |made| && d == Evolve(others, clock, db, 4 * |made|) && Loaded(others, c, d, listed[|made|].job) == Some(b)
    ensures MadeInTurn(others, clock, db, listed, made + [b]) && b.schema == SCHEMA && b.job == listed[|made|].job
    ensures Evolve(others, c, d, 4) == Evolve(others, clock, db, 4 * (|made| + 1))
  {
    assert b.schema == SCHEMA && b.job == listed[|made|].job by { LoadedFacts(others, c, d, listed[|made|].job); }
    assert MadeInTurn(others, clock, db, listed, made + [b]) by {
      BundleHere(others, clock, db, listed, |made|, c, d);
      MadeSnoc(others, clock, db, listed, made, b);
    }
    NextJob(others, clock, db, |made|, 4);
  }

  lemma ExportingNext(x: Export, files: Files, sha: Digest, listed: seq<Listed>, others: Writers, clock: nat, db: Db,
                      i: nat, c: nat, d: Db, b: Bundle, next: Db)
    requires Exporting(x, files, sha, listed, others, clock, db, i, c, d) && i < |listed|
    requires MadeInTurn(others, clock, db, listed, x.made + [b]) && b.schema == SCHEMA && b.job == listed[i].job
    requires next == Evolve(others, clock, db, 4 * (i + 1))
    ensures Exporting(Extended(x, sha, listed[i], b), files, sha, listed, others, clock, db, i + 1, c + 4, next)
  {
    ProgressNext(x, files, sha, listed, others, clock, db, b);
  }

  lemma ExportStep(x: Export, files: Files, sha: Digest, listed: seq<Listed>, others: Writers, clock: nat, db: Db,
                   i: nat, c: nat, d: Db, b: Bundle, next: Db)
    requires Exporting(x, files, sha, listed, others, clock, db, i, c, d) && i < |listed|
    requires Loaded(others, c, d, listed[i].job) == Some(b) && next == Evolve(others, c, d, 4)
    ensures Exporting(Extended(x, sha, listed[i], b), files, sha, listed, others, clock, db, i + 1, c + 4, next)
  {
    ReadNext(others, clock, db, listed, x.made, c, d, b);
    ExportingNext(x, files, sha, listed, others, clock, db, i, c, d, b, next);
  }

  lemma MissingHere(others: Writers, clock: nat, db: Db, listed: seq<Listed>, i: nat, c: nat, d: Db)
    requires i < |listed| && c == clock + 4 * i && d == Evolve(others, clock, db, 4 * i)
    requires Loaded(others, c, d, listed[i].job).None?
    ensures !AllPresent(others, clock, db, listed)
  {
    BundleHere(others, clock, db, listed, i, c, d);
  }

  lemma AllMade(x: Export, files: Files, sha: Digest, listed: seq<Listed>, others: Writers, clock: nat, db: Db, c: nat, d: Db)
    requires Exporting(x, files, sha, listed, others, clock, db, |listed|, c, d)
    ensures AllPresent(others, clock, db, listed)
  {}

  // Reads a job, writes its file and adds its entry.
  method ExportJobBundle(store: Store, x: Export, sha: Digest, job: Listed) returns (r: Option<Export>, ghost b: Option<Bundle>)
    modifies store
    ensures b == Loaded(store.others, old(store.clock), old(store.db), job.job)
    ensures r == if b.None? then None else Some(Extended(x, sha, job, b.value))
    ensures r.Some? ==> store.clock == old(store.clock) + 4 &&
                        store.db == Evolve(store.others, old(store.clock), old(store.db), 4)
  {
    var bundle := LoadBundle(store, job.job);
    b := bundle;
    if bundle.None? {
      return None, b;
    }
    var payload := Json(bundle.value);
    var entry := Entry(job.job, job.state, PathOf(job.job), sha(payload),
                       |bundle.value.transitions|, |bundle.value.tasks|, |bundle.value.sequences|, bundle.value.row.lastSequence);
    r := Some(Export(x.files[PathOf(job.job) := payload], x.entries + [entry], x.made + [bundle.value]));
  }

  // The export loop; a missing job ends the tool.
  method ExportAll(store: Store, files: Files, sha: Digest, listed: seq<Listed>) returns (r: Option<Export>)
    modifies store
    ensures r.Some? <==> AllPresent(store.others, old(store.clock), old(store.db), listed)
    ensures r.Some? ==> Exporting(r.value, files, sha, listed, store.others, old(store.clock), old(store.db), |listed|, store.clock, store.db)
  {
    ghost var others, clock, db := store.others, store.clock, store.db;
    var x := Export(files, [], []);
    for i := 0 to |listed|
      invariant Exporting(x, files, sha, listed, others, clock, db, i, store.clock, store.db)
    {
      ghost var c, d := store.clock, store.db;
      var next, b := ExportJobBundle(store, x, sha, listed[i]);
      if next.None? {
        MissingHere(others, clock, db, listed, i, c, d);
        return None;
      }
      ExportStep(x, files, sha, listed, others, clock, db, i, c, d, b.value, store.db);
      x := next.value;
    }
    AllMade(x, files, sha, listed, others, clock, db, store.clock, store.db);
    r := Some(x);
  }

  // The last bundle written under a path is the one in the file.
  lemma {:induction false} LastWritten(files: Files, paths: seq<string>, made: seq<Bundle>, i: nat)
    requires |paths| == |made| && i < |made| && forall j :: i < j < |made| ==> paths[j] != paths[i]
    ensures paths[i] in WriteAll(files, paths, made) && WriteAll(files, paths, made)[paths[i]] == Json(made[i])
    decreases made
  {
    var n := |made| - 1;
    if i < n {
      LastWritten(files, paths[..n], made[..n], i);
    }
  }

  ghost predicate DistinctJobs(listed: seq<Listed>)
  {
    forall i, j :: 0 <= i < j < |listed| ==> listed[i].job != listed[j].job
  }

  ghost predicate DistinctNames(listed: seq<Listed>)
  {
    forall i, j :: 0 <= i < j < |listed| ==> Sanitize(listed[i].job) != Sanitize(listed[j].job)
  }

  ghost predicate StatesKept(listed: seq<Listed>, made: seq<Bundle>)
    requires |listed| == |made|
  {
    forall i :: 0 <= i < |listed| ==> listed[i].state == made[i].row.state
  }

  // Every job is read in the state it was listed in.
  ghost predicate ReadAsListed(others: Writers, clock: nat, db: Db, listed: seq<Listed>)
  {
    forall i {:trigger BundleAt(others, clock, db, listed, i)} :: 0 <= i < |listed| && BundleAt(others, clock, db, listed, i).Some? ==>
      BundleAt(others, clock, db, listed, i).value.row.state == listed[i].state
  }

  lemma StatesRead(others: Writers, clock: nat, db: Db, listed: seq<Listed>, made: seq<Bundle>)
    requires MadeInTurn(others, clock, db, listed, made) && |made| == |listed|
    ensures StatesKept(listed, made) <==> ReadAsListed(others, clock, db, listed)
  {
    forall i: nat | i < |listed| ensures BundleAt(others, clock, db, listed, i) == Some(made[i]) {}
    if ReadAsListed(others, clock, db, listed) {
      forall i: nat | i < |listed| ensures listed[i].state == made[i].row.state {
        assert BundleAt(others, clock, db, listed, i) == Some(made[i]);
      }
    }
  }

  // An export verifies exactly when no two of its jobs share a file name and no job changed
  // state between the listing and its own query.
  lemma VerifiedIff(files: Files, sha: Digest, listed: seq<Listed>, made: seq<Bundle>, entries: seq<Entry>)
    requires Describes(entries, listed, made, sha) && DistinctJobs(listed)
    ensures AllVerified(Written(files, made), sha, entries) <==> DistinctNames(listed) && StatesKept(listed, made)
  {
    var files' := Written(files, made);
    if DistinctNames(listed) {
      forall i | 0 <= i < |entries| ensures entries[i].path in files' && files'[entries[i].path] == Json(made[i]) {
        forall j | i < j < |made| ensures Paths(made)[j] != Paths(made)[i] {
          PathInjective(made[i].job, made[j].job);
        }
        LastWritten(files, Paths(made), made, i);
      }
    }
    if AllVerified(files', sha, entries) {
      forall i, j | 0 <= i < j < |listed| ensures Sanitize(listed[i].job) != Sanitize(listed[j].job) {
        VerifiedDistinct(files', sha, entries, i, j);
        PathInjective(listed[i].job, listed[j].job);
      }
    }
  }

  // ---------------------------------------------------------------- the tool

  datatype ExportConfig = ExportConfig(hotRetentionDays: nat, dryRun: bool, verifyBundles: bool)

  predicate ShouldVerify(config: ExportConfig) { config.verifyBundles && !config.dryRun }

  // The manifest of an export that was not aborted.
  function ManifestOf(config: ExportConfig, selected: nat, entries: seq<Entry>): Manifest
  {
    Manifest(SCHEMA, config.hotRetentionDays, selected, |entries|, entries,
             if ShouldVerify(config) then Verification(true, true, |entries|, true) else Verification(false, false, 0, false))
  }

  method ExportTool(store: Store, files: Files, sha: Digest, listed: seq<Listed>, config: ExportConfig)
    returns (manifest: Option<Manifest>, x: Export)
    modifies store
    ensures config.dryRun ==> manifest == Some(ManifestOf(config, |listed|, [])) && x.files == files && store.db == old(store.db)
    ensures !config.dryRun && !AllPresent(store.others, old(store.clock), old(store.db), listed) ==> manifest.None?
    ensures !config.dryRun && AllPresent(store.others, old(store.clock), old(store.db), listed) ==>
              && Progress(x, files, sha, listed, store.others, old(store.clock), old(store.db)) && |x.made| == |listed|
              && store.clock == old(store.clock) + 4 * |listed|
              && store.db == Evolve(store.others, old(store.clock), old(store.db), 4 * |listed|)
              && manifest == if config.verifyBundles && !AllVerified(x.files, sha, x.entries) then None
                             else Some(ManifestOf(config, |listed|, x.entries))
  {
    x := Export(files, [], []);
    if config.dryRun {
      manifest := Some(ManifestOf(config, |listed|, []));
      return;
    }
    var exported := ExportAll(store, files, sha, listed);
    if exported.None? {
      return None, x;
    }
    x := exported.value;
    var verification := Verification(ShouldVerify(config), false, 0, false);
    if verification.enabled {
      var verified := VerifyManifest(x.files, sha, x.entries);
      if verified.None? {
        return None, x;
      }
      verification := verified.value;
    }
    manifest := Some(Manifest(SCHEMA, config.hotRetentionDays, |listed|, |x.entries|, x.entries, verification));
  }
}
