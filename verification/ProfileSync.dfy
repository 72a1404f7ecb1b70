/** Syncing the built-in profile into a project (lib/profile_manifest.py): a three-way merge per file between the
    profile, the project's copy and the manifest entry, run key by key, with the manifest saved only at the end. */
module ProfileSync {
  import opened Options

  datatype Path = Path(rel: string)

  /** File contents. Contents with equal SHA-256 digests are taken to be equal, so a digest is its content. */
  datatype Content = Content(bytes: string)

  datatype Mode = Narration | Drama | Ad

  datatype Mark = Active(hash: Content) | Tombstone

  datatype Manifest = Manifest(entries: map<Path, Mark>, mode: Option<Mode>)

  /** The four counters that say what happened to a file, and the ones that say why. */
  datatype Bucket = Created | Repaired | Skipped | Errors

  datatype Detail =
    | Upgraded | UserModified | UserOnly | Pruned | Orphaned | DeletedUser | Tombstoned | Unchanged | Collision
    | MigratedTotal

  datatype Stats = Stats(main: multiset<Bucket>, detail: multiset<Detail>) {
    function Add(b: Bucket, x: Option<Detail>): Stats {
      Stats(main + multiset{b}, if x.Some? then detail + multiset{x.value} else detail)
    }
  }

  const NO_STATS := Stats(multiset{}, multiset{})

  datatype ProfileError = ProfileMissing | ProfileMisconfigured | ProfileEmpty

  function Get<V>(m: map<Path, V>, k: Path): Option<V> {
    if k in m then Some(m[k]) else None
  }

  function Put<V>(m: map<Path, V>, k: Path, v: Option<V>): (r: map<Path, V>)
    ensures forall j :: Get(r, j) == if j == k then v else Get(m, j)
  {
    if v.Some? then m[k := v.value] else m - {k}
  }

  lemma SameLookups<V>(a: map<Path, V>, b: map<Path, V>)
    requires forall k :: Get(a, k) == Get(b, k)
    ensures a == b
  {
    forall k ensures k in a <==> k in b {
      assert Get(a, k) == Get(b, k);
    }
    forall k | k in a ensures a[k] == b[k] {
      assert Get(a, k) == Get(b, k);
    }
  }

  // ---------- the decision table ----------

  /** What becomes of one file and its entry, and what is counted. */
  datatype Verdict = Verdict(file: Option<Content>, mark: Option<Mark>, main: Bucket, detail: Option<Detail>)

  /** The fifteen rows over profile copy `p`, project copy `d` and entry `m`. All three are never absent together. */
  function Decide(p: Option<Content>, d: Option<Content>, m: Option<Mark>): Verdict {
    if m.None? then
      if p.None? then Verdict(d, None, Skipped, Some(UserOnly))
      else if d.None? then Verdict(p, Some(Active(p.value)), Created, None)
      else Verdict(d, if d == p then Some(Active(p.value)) else None, Skipped, Some(Collision))
    else if m.value.Tombstone? then
      if d.None? then Verdict(d, m, Skipped, Some(Tombstoned))
      else Verdict(d, None, Skipped, Some(UserOnly))
    else if d.None? then
      Verdict(d, Some(Tombstone), if p.Some? then Skipped else Repaired, Some(if p.Some? then DeletedUser else Pruned))
    else if p.None? then
      if d.value == m.value.hash then Verdict(None, Some(Tombstone), Repaired, Some(Pruned))
      else Verdict(d, None, Skipped, Some(Orphaned))
    else if d == p then Verdict(d, Some(Active(p.value)), Skipped, Some(Unchanged))
    else if d.value == m.value.hash then Verdict(p, Some(Active(p.value)), Repaired, Some(Upgraded))
    else Verdict(d, m, Skipped, Some(UserModified))
  }

  // ---------- a whole sync, key by key ----------

  function KeysOf(profile: map<Path, Content>, files: map<Path, Content>, entries: map<Path, Mark>): set<Path> {
    profile.Keys + files.Keys + entries.Keys
  }

  function VerdictAt(profile: map<Path, Content>, files: map<Path, Content>, entries: map<Path, Mark>,
                     k: Path): Verdict {
    Decide(Get(profile, k), Get(files, k), Get(entries, k))
  }

  /** The files once the verdicts of the keys in `touched` have reached the disk. */
  ghost function FilesAfter(profile: map<Path, Content>, files: map<Path, Content>, entries: map<Path, Mark>,
                            touched: set<Path>): (r: map<Path, Content>)
    ensures forall k :: Get(r, k) == if k in touched then VerdictAt(profile, files, entries, k).file else Get(files, k)
  {
    map k | k in KeysOf(profile, files, entries)
            && (if k in touched then VerdictAt(profile, files, entries, k).file else Get(files, k)).Some? ::
      (if k in touched then VerdictAt(profile, files, entries, k).file else Get(files, k)).value
  }

  /** The entries once the verdicts of the keys in `done` have been recorded. */
  ghost function EntriesAfter(profile: map<Path, Content>, files: map<Path, Content>, entries: map<Path, Mark>,
                              done: set<Path>): (r: map<Path, Mark>)
    ensures forall k :: Get(r, k) == if k in done then VerdictAt(profile, files, entries, k).mark else Get(entries, k)
  {
    map k | k in KeysOf(profile, files, entries)
            && (if k in done then VerdictAt(profile, files, entries, k).mark else Get(entries, k)).Some? ::
      (if k in done then VerdictAt(profile, files, entries, k).mark else Get(entries, k)).value
  }

  /** Which keys raise an I/O error, and which of those after their file was already written. */
  datatype Faults = Faults(failed: set<Path>, written: set<Path>)

  function MainAt(profile: map<Path, Content>, files: map<Path, Content>, entries: map<Path, Mark>, faults: Faults,
                  k: Path): Bucket {
    if k in faults.failed then Errors else VerdictAt(profile, files, entries, k).main
  }

  function DetailAt(profile: map<Path, Content>, files: map<Path, Content>, entries: map<Path, Mark>, faults: Faults,
                    k: Path): Option<Detail> {
    if k in faults.failed then None else VerdictAt(profile, files, entries, k).detail
  }

  /** The keys that add to a counter. */
  ghost function InBucket(profile: map<Path, Content>, files: map<Path, Content>, entries: map<Path, Mark>,
                          faults: Faults, keys: set<Path>, b: Bucket): set<Path> {
    set k | k in keys && MainAt(profile, files, entries, faults, k) == b
  }

  ghost function InDetail(profile: map<Path, Content>, files: map<Path, Content>, entries: map<Path, Mark>,
                          faults: Faults, keys: set<Path>, x: Detail): set<Path> {
    set k | k in keys && DetailAt(profile, files, entries, faults, k) == Some(x)
  }

  /** A run's counters count keys. */
  ghost predicate Tallied(profile: map<Path, Content>, files: map<Path, Content>, entries: map<Path, Mark>,
                          faults: Faults, keys: set<Path>, stats: Stats) {
    && (forall b :: stats.main[b] == |InBucket(profile, files, entries, faults, keys, b)|)
    && (forall x :: stats.detail[x] == |InDetail(profile, files, entries, faults, keys, x)|)
  }

  lemma CountOne(profile: map<Path, Content>, files: map<Path, Content>, entries: map<Path, Mark>, faults: Faults,
                 keys: set<Path>, stats: Stats, k: Path)
    requires Tallied(profile, files, entries, faults, keys, stats) && k !in keys
    ensures Tallied(profile, files, entries, faults, keys + {k},
                    stats.Add(MainAt(profile, files, entries, faults, k), DetailAt(profile, files, entries, faults, k)))
  {
    forall b
      ensures stats.Add(MainAt(profile, files, entries, faults, k),
                        DetailAt(profile, files, entries, faults, k)).main[b]
              == |InBucket(profile, files, entries, faults, keys + {k}, b)|
    {
      BucketOne(profile, files, entries, faults, keys, k, b);
    }
    forall x
      ensures stats.Add(MainAt(profile, files, entries, faults, k),
                        DetailAt(profile, files, entries, faults, k)).detail[x]
              == |InDetail(profile, files, entries, faults, keys + {k}, x)|
    {
      DetailOne(profile, files, entries, faults, keys, k, x);
    }
  }

  lemma BucketOne(profile: map<Path, Content>, files: map<Path, Content>, entries: map<Path, Mark>, faults: Faults,
                  keys: set<Path>, k: Path, b: Bucket)
    requires k !in keys
    ensures |InBucket(profile, files, entries, faults, keys + {k}, b)|
            == |InBucket(profile, files, entries, faults, keys, b)|
               + if MainAt(profile, files, entries, faults, k) == b then 1 else 0
  {
    var was := InBucket(profile, files, entries, faults, keys, b);
    assert InBucket(profile, files, entries, faults, keys + {k}, b)
           == if MainAt(profile, files, entries, faults, k) == b then was + {k} else was;
  }

  lemma DetailOne(profile: map<Path, Content>, files: map<Path, Content>, entries: map<Path, Mark>, faults: Faults,
                  keys: set<Path>, k: Path, x: Detail)
    requires k !in keys
    ensures |InDetail(profile, files, entries, faults, keys + {k}, x)|
            == |InDetail(profile, files, entries, faults, keys, x)|
               + if DetailAt(profile, files, entries, faults, k) == Some(x) then 1 else 0
  {
    var was := InDetail(profile, files, entries, faults, keys, x);
    assert InDetail(profile, files, entries, faults, keys + {k}, x)
           == if DetailAt(profile, files, entries, faults, k) == Some(x) then was + {k} else was;
  }

  function Touched(keys: set<Path>, faults: Faults): set<Path> {
    set k | k in keys && (k !in faults.failed || k in faults.written)
  }

  /** What a reset leaves when the keys in `copied` were copied. */
  ghost function ResetFiles(profile: map<Path, Content>, copied: set<Path>): map<Path, Content> {
    map k | k in profile && k in copied :: profile[k]
  }

  ghost function ResetEntries(profile: map<Path, Content>, done: set<Path>): map<Path, Mark> {
    map k | k in profile && k in done :: Active(profile[k])
  }

  /** A manifest that is missing or unreadable, or was written in another mode, means a reset. */
  predicate NeedsReset(manifest: Option<Manifest>, mode: Mode) {
    manifest.None? || (manifest.value.mode.Some? && manifest.value.mode.value != mode)
  }

  /** What a project directory holds between runs. */
  datatype Dir = Dir(files: map<Path, Content>, manifest: Option<Manifest>)

  ghost predicate Resets(d: Dir, mode: Mode) {
    NeedsReset(d.manifest, mode)
  }

  /** The directory after one run. */
  ghost function Synced(d: Dir, profile: map<Path, Content>, mode: Mode, faults: Faults): Dir {
    if Resets(d, mode) then
      Dir(ResetFiles(profile, Touched(profile.Keys, faults)),
          Some(Manifest(ResetEntries(profile, profile.Keys - faults.failed), Some(mode))))
    else
      var entries := d.manifest.value.entries;
      var keys := KeysOf(profile, d.files, entries);
      Dir(FilesAfter(profile, d.files, entries, Touched(keys, faults)),
          Some(Manifest(EntriesAfter(profile, d.files, entries, keys - faults.failed), Some(mode))))
  }

  /** The keys one run goes through. */
  ghost function RunKeys(d: Dir, profile: map<Path, Content>, mode: Mode): set<Path> {
    if Resets(d, mode) then profile.Keys else KeysOf(profile, d.files, d.manifest.value.entries)
  }

  /** A project directory: the synced files and the saved manifest. */
  class ProjectDir {
    var files: map<Path, Content>
    var manifest: Option<Manifest>

    constructor (files: map<Path, Content>, manifest: Option<Manifest>)
      ensures this.files == files && this.manifest == manifest
    {
      this.files, this.manifest := files, manifest;
    }

    /** One key: the row of the table, applied in place. */
    method ApplyDecision(profile: map<Path, Content>, rel: Path, pExists: bool, dExists: bool, entries: map<Path, Mark>,
                         stats: Stats)
      returns (entries': map<Path, Mark>, stats': Stats)
      requires pExists <==> rel in profile
      requires dExists <==> rel in files
      requires pExists || dExists || rel in entries
      modifies this`files
      ensures var v := VerdictAt(profile, old(files), entries, rel);
              && files == Put(old(files), rel, v.file) && entries' == Put(entries, rel, v.mark)
              && stats' == stats.Add(v.main, v.detail)
    {
      entries', stats' := entries, stats;
      if pExists && !dExists {
        if rel !in entries {
          files := files[rel := profile[rel]];
          entries' := entries[rel := Active(profile[rel])];
          stats' := stats.Add(Created, None);
        } else if entries[rel].Active? {
          entries' := entries[rel := Tombstone];
          stats' := stats.Add(Skipped, Some(DeletedUser));
        } else {
          stats' := stats.Add(Skipped, Some(Tombstoned));
        }
      } else if pExists && dExists {
        var pHash, dHash := profile[rel], files[rel];
        if rel !in entries {
          if dHash == pHash {
            entries' := entries[rel := Active(pHash)];
          }
          stats' := stats.Add(Skipped, Some(Collision));
        } else if entries[rel].Tombstone? {
          entries' := entries - {rel};
          stats' := stats.Add(Skipped, Some(UserOnly));
        } else if dHash == pHash && entries[rel].hash == pHash {
          stats' := stats.Add(Skipped, Some(Unchanged));
        } else if dHash == entries[rel].hash && dHash != pHash {
          files := files[rel := pHash];
          entries' := entries[rel := Active(pHash)];
          stats' := stats.Add(Repaired, Some(Upgraded));
        } else if dHash != entries[rel].hash && dHash == pHash {
          entries' := entries[rel := Active(pHash)];
          stats' := stats.Add(Skipped, Some(Unchanged));
        } else {
          stats' := stats.Add(Skipped, Some(UserModified));
        }
      } else if dExists {
        if rel !in entries {
          stats' := stats.Add(Skipped, Some(UserOnly));
        } else if entries[rel].Tombstone? {
          entries' := entries - {rel};
          stats' := stats.Add(Skipped, Some(UserOnly));
        } else if files[rel] == entries[rel].hash {
          files := files - {rel};
          entries' := entries[rel := Tombstone];
          stats' := stats.Add(Repaired, Some(Pruned));
        } else {
          entries' := entries - {rel};
          stats' := stats.Add(Skipped, Some(Orphaned));
        }
      } else if entries[rel].Active? {
        entries' := entries[rel := Tombstone];
        stats' := stats.Add(Repaired, Some(Pruned));
      } else {
        stats' := stats.Add(Skipped, Some(Tombstoned));
      }
    }

    /** One key of the run. An I/O error leaves the entry alone, whether or not the file was already written. */
    method Visit(profile: map<Path, Content>, rel: Path, dExists: bool, faults: Faults, entries: map<Path, Mark>,
                 stats: Stats)
      returns (entries': map<Path, Mark>, stats': Stats)
      requires dExists <==> rel in files
      requires rel in profile || dExists || rel in entries
      modifies this`files
      ensures var v := VerdictAt(profile, old(files), entries, rel);
              && files == (if rel in faults.failed && rel !in faults.written then old(files)
                           else Put(old(files), rel, v.file))
              && entries' == (if rel in faults.failed then entries else Put(entries, rel, v.mark))
              && stats' == stats.Add(MainAt(profile, old(files), entries, faults, rel),
                                     DetailAt(profile, old(files), entries, faults, rel))
    {
      entries', stats' := entries, stats;
      if rel !in faults.failed {
        entries', stats' := ApplyDecision(profile, rel, rel in profile, dExists, entries, stats);
      } else {
        if rel in faults.written {
          var _, _ := ApplyDecision(profile, rel, rel in profile, dExists, entries, stats);
        }
        stats' := stats.Add(Errors, None);
      }
    }

    /** The loop over all keys, in any order. */
    method VisitAll(profile: map<Path, Content>, faults: Faults, entries: map<Path, Mark>)
      returns (entries': map<Path, Mark>, stats: Stats)
      modifies this`files
      ensures Visited(profile, old(files), entries, faults, KeysOf(profile, old(files), entries), files, entries',
                      stats)
    {
      hide Visited, Put, VerdictAt, MainAt, DetailAt;
      ghost var before := files;
      var destFiles := files.Keys;
      var keys := KeysOf(profile, files, entries);
      entries', stats := entries, NO_STATS;
      ghost var done: set<Path> := {};
      NothingVisited(profile, files, entries, faults);
      while keys != {}
        invariant keys + done == KeysOf(profile, before, entries) && keys !! done
        invariant Visited(profile, before, entries, faults, done, files, entries', stats)
        decreases keys
      {
        var rel :| rel in keys;
        VisitNext(profile, before, entries, faults, done, files, entries', stats, rel);
        entries', stats := Visit(profile, rel, rel in destFiles, faults, entries', stats);
        keys, done := keys - {rel}, done + {rel};
      }
    }

    ghost function Snapshot(): Dir
      reads this
    {
      Dir(files, manifest)
    }

    /** Empties the project's copy, copies the whole profile and writes a fresh manifest. */
    method FullReset(profile: map<Path, Content>, mode: Mode, faults: Faults) returns (stats: Stats)
      modifies this
      ensures files == ResetFiles(profile, Touched(profile.Keys, faults))
      ensures manifest == Some(Manifest(ResetEntries(profile, profile.Keys - faults.failed), Some(mode)))
      ensures stats.main[Created] == stats.detail[MigratedTotal] == |profile.Keys - faults.failed|
      ensures stats.main[Errors] == |profile.Keys * faults.failed|
      ensures stats.main[Repaired] == stats.main[Skipped] == 0
    {
      hide Copied, Touched, ResetFiles, ResetEntries;
      files := map[];
      var entries: map<Path, Mark> := map[];
      stats := NO_STATS;
      var keys := profile.Keys;
      ghost var done: set<Path> := {};
      NothingCopied(profile, faults);
      while keys != {}
        invariant keys + done == profile.Keys && keys !! done
        invariant Copied(profile, faults, done, files, entries, stats)
        decreases keys
      {
        var rel :| rel in keys;
        CopyNext(profile, faults, done, files, entries, stats, rel);
        if rel !in faults.failed {
          files := files[rel := profile[rel]];
          entries := entries[rel := Active(profile[rel])];
          stats := stats.Add(Created, Some(MigratedTotal));
        } else {
          if rel in faults.written {
            files := files[rel := profile[rel]];
          }
          stats := stats.Add(Errors, None);
        }
        keys, done := keys - {rel}, done + {rel};
      }
      manifest := Some(Manifest(entries, Some(mode)));
      assert done == profile.Keys;
      CopiedMeans(profile, faults, profile.Keys, files, entries, stats);
    }

    /** The entry point. A profile that is missing, misconfigured or empty stops the run before it touches anything. */
    method Sync(resolved: Result<map<Path, Content>, ProfileError>, mode: Mode, faults: Faults)
      returns (r: Result<Stats, ProfileError>)
      modifies this
      ensures r.Err? <==> resolved.Err? || resolved.value == map[]
      ensures r.Err? ==>
                Snapshot() == old(Snapshot()) && r.error == if resolved.Err? then resolved.error else ProfileEmpty
      ensures r.Ok? ==> Snapshot() == Synced(old(Snapshot()), resolved.value, mode, faults)
      // Each counter counts keys, and every key is counted once as created, repaired, skipped or failed.
      ensures r.Ok? ==>
                r.value.main[Created] + r.value.main[Repaired] + r.value.main[Skipped] + r.value.main[Errors]
                == |RunKeys(old(Snapshot()), resolved.value, mode)|
      ensures r.Ok? && !Resets(old(Snapshot()), mode) ==>
                Tallied(resolved.value, old(files), old(manifest).value.entries, faults,
                        RunKeys(old(Snapshot()), resolved.value, mode), r.value)
    {
      if resolved.Err? {
        return Err(resolved.error);
      }
      var profile := resolved.value;
      if profile == map[] {
        return Err(ProfileEmpty);
      }
      if NeedsReset(manifest, mode) {
        var counts := FullReset(profile, mode, faults);
        assert profile.Keys == (profile.Keys - faults.failed) + (profile.Keys * faults.failed);
        return Ok(counts);
      }
      ghost var before := Snapshot();
      var entries, stats := VisitAll(profile, faults, manifest.value.entries);
      manifest := Some(Manifest(entries, Some(mode)));
      BucketsPartition(profile, before.files, before.manifest.value.entries, faults, RunKeys(before, profile, mode));
      return Ok(stats);
    }
  }

  lemma BucketsPartition(profile: map<Path, Content>, files: map<Path, Content>, entries: map<Path, Mark>,
                         faults: Faults, keys: set<Path>)
    ensures |InBucket(profile, files, entries, faults, keys, Created)|
            + |InBucket(profile, files, entries, faults, keys, Repaired)|
            + |InBucket(profile, files, entries, faults, keys, Skipped)|
            + |InBucket(profile, files, entries, faults, keys, Errors)| == |keys|
  {
    hide MainAt;
    FourParts(keys, InBucket(profile, files, entries, faults, keys, Created),
              InBucket(profile, files, entries, faults, keys, Repaired),
              InBucket(profile, files, entries, faults, keys, Skipped),
              InBucket(profile, files, entries, faults, keys, Errors));
  }

  lemma FourParts<T>(all: set<T>, a: set<T>, b: set<T>, c: set<T>, d: set<T>)
    requires a !! b !! c !! d
    requires forall x :: x in all <==> x in a || x in b || x in c || x in d
    ensures |a| + |b| + |c| + |d| == |all|
  {
    assert all == a + b + c + d;
  }

  /** The state of a reset once the keys in `done` have been tried. */
  ghost predicate Copied(profile: map<Path, Content>, faults: Faults, done: set<Path>, files: map<Path, Content>,
                         entries: map<Path, Mark>, stats: Stats) {
    && files == ResetFiles(profile, Touched(done, faults))
    && entries == ResetEntries(profile, done - faults.failed)
    && stats.main[Created] == stats.detail[MigratedTotal] == |done - faults.failed|
    && stats.main[Errors] == |done * faults.failed|
    && stats.main[Repaired] == stats.main[Skipped] == 0
  }

  lemma CopiedMeans(profile: map<Path, Content>, faults: Faults, done: set<Path>, files: map<Path, Content>,
                    entries: map<Path, Mark>, stats: Stats)
    requires Copied(profile, faults, done, files, entries, stats)
    ensures files == ResetFiles(profile, Touched(done, faults))
    ensures entries == ResetEntries(profile, done - faults.failed)
    ensures stats.main[Created] == stats.detail[MigratedTotal] == |done - faults.failed|
    ensures stats.main[Errors] == |done * faults.failed|
    ensures stats.main[Repaired] == stats.main[Skipped] == 0
  {
  }

  lemma NothingCopied(profile: map<Path, Content>, faults: Faults)
    ensures Copied(profile, faults, {}, map[], map[], NO_STATS)
  {
  }

  lemma CopyNext(profile: map<Path, Content>, faults: Faults, done: set<Path>, files: map<Path, Content>,
                 entries: map<Path, Mark>, stats: Stats, k: Path)
    requires Copied(profile, faults, done, files, entries, stats) && k in profile && k !in done
    ensures k !in faults.failed ==>
              Copied(profile, faults, done + {k}, files[k := profile[k]], entries[k := Active(profile[k])],
                     stats.Add(Created, Some(MigratedTotal)))
    ensures k in faults.failed ==>
              Copied(profile, faults, done + {k}, if k in faults.written then files[k := profile[k]] else files,
                     entries,
                     stats.Add(Errors, None))
  {
    hide Touched, ResetFiles, ResetEntries;
    ResetNext(profile, faults, done, k);
    CardNext(done, faults.failed, k);
  }

  lemma ResetNext(profile: map<Path, Content>, faults: Faults, done: set<Path>, k: Path)
    requires k in profile && k !in done
    ensures ResetFiles(profile, Touched(done + {k}, faults)) ==
              var was := ResetFiles(profile, Touched(done, faults));
              if k in faults.failed && k !in faults.written then was else was[k := profile[k]]
    ensures ResetEntries(profile, (done + {k}) - faults.failed) ==
              var was := ResetEntries(profile, done - faults.failed);
              if k in faults.failed then was else was[k := Active(profile[k])]
  {
  }

  lemma CardNext<T>(done: set<T>, failed: set<T>, k: T)
    requires k !in done
    ensures |(done + {k}) - failed| == |done - failed| + if k in failed then 0 else 1
    ensures |(done + {k}) * failed| == |done * failed| + if k in failed then 1 else 0
  {
    if k in failed {
      assert (done + {k}) - failed == done - failed;
      assert (done + {k}) * failed == done * failed + {k};
    } else {
      assert (done + {k}) - failed == (done - failed) + {k};
      assert (done + {k}) * failed == done * failed;
    }
  }

  /** The state of the loop once the keys in `done` have been visited. */
  ghost predicate Visited(profile: map<Path, Content>, files: map<Path, Content>, entries: map<Path, Mark>,
                          faults: Faults,
                          done: set<Path>, files': map<Path, Content>, entries': map<Path, Mark>, stats: Stats) {
    && files' == FilesAfter(profile, files, entries, Touched(done, faults))
    && entries' == EntriesAfter(profile, files, entries, done - faults.failed)
    && Tallied(profile, files, entries, faults, done, stats)
  }

  lemma NothingVisited(profile: map<Path, Content>, files: map<Path, Content>, entries: map<Path, Mark>, faults: Faults)
    ensures Visited(profile, files, entries, faults, {}, files, entries, NO_STATS)
  {
    SameLookups(files, FilesAfter(profile, files, entries, Touched({}, faults)));
    SameLookups(entries, EntriesAfter(profile, files, entries, {} - faults.failed));
  }

  lemma FilesNext(profile: map<Path, Content>, files: map<Path, Content>, entries: map<Path, Mark>, faults: Faults,
                  done: set<Path>, k: Path)
    requires k !in done
    ensures var was := FilesAfter(profile, files, entries, Touched(done, faults));
            && Get(was, k) == Get(files, k)
            && FilesAfter(profile, files, entries, Touched(done + {k}, faults))
               == if k in faults.failed && k !in faults.written then was
                  else Put(was, k, VerdictAt(profile, files, entries, k).file)
  {
    hide VerdictAt, FilesAfter;
    var was := FilesAfter(profile, files, entries, Touched(done, faults));
    SameLookups(FilesAfter(profile, files, entries, Touched(done + {k}, faults)),
                if k in faults.failed && k !in faults.written then was
                else Put(was, k, VerdictAt(profile, files, entries, k).file));
  }

  lemma EntriesNext(profile: map<Path, Content>, files: map<Path, Content>, entries: map<Path, Mark>, faults: Faults,
                    done: set<Path>, k: Path)
    requires k !in done
    ensures var was := EntriesAfter(profile, files, entries, done - faults.failed);
            && Get(was, k) == Get(entries, k)
            && EntriesAfter(profile, files, entries, (done + {k}) - faults.failed)
               == if k in faults.failed then was else Put(was, k, VerdictAt(profile, files, entries, k).mark)
  {
    hide VerdictAt, EntriesAfter;
    var was := EntriesAfter(profile, files, entries, done - faults.failed);
    SameLookups(EntriesAfter(profile, files, entries, (done + {k}) - faults.failed),
                if k in faults.failed then was else Put(was, k, VerdictAt(profile, files, entries, k).mark));
  }

  /** A key not yet visited still looks as it did at the start, and visiting it extends the visited part by it. */
  lemma VisitNext(profile: map<Path, Content>, files: map<Path, Content>, entries: map<Path, Mark>, faults: Faults,
                  done: set<Path>, files': map<Path, Content>, entries': map<Path, Mark>, stats: Stats, k: Path)
    requires Visited(profile, files, entries, faults, done, files', entries', stats) && k !in done
    ensures Get(files', k) == Get(files, k) && Get(entries', k) == Get(entries, k)
    ensures var v := VerdictAt(profile, files', entries', k);
            Visited(profile, files, entries, faults, done + {k},
                    if k in faults.failed && k !in faults.written then files' else Put(files', k, v.file),
                    if k in faults.failed then entries' else Put(entries', k, v.mark),
                    stats.Add(MainAt(profile, files', entries', faults, k),
                              DetailAt(profile, files', entries', faults, k)))
  {
    hide Decide, FilesAfter, EntriesAfter, Put, Tallied, Touched;
    FilesNext(profile, files, entries, faults, done, k);
    EntriesNext(profile, files, entries, faults, done, k);
    CountOne(profile, files, entries, faults, done, stats, k);
  }
}
