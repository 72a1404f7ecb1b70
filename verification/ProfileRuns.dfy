/** What syncing guarantees over whole runs: recovery from interruptions, convergence, safety of user work,
    and no return of files the user deleted. */
module ProfileRuns {
  import opened Options
  import opened ProfileSync

  const NO_FAULTS := Faults({}, {})

  // ---------- one key at a time ----------

  /** A run without faults and without a reset applies the table to every key. */
  lemma SyncedAt(d: Dir, profile: map<Path, Content>, mode: Mode, k: Path)
    requires !Resets(d, mode)
    ensures var v, d' := VerdictAt(profile, d.files, d.manifest.value.entries, k), Synced(d, profile, mode, NO_FAULTS);
            && Get(d'.files, k) == v.file && d'.manifest.Some? && d'.manifest.value.mode == Some(mode)
            && Get(d'.manifest.value.entries, k) == v.mark
  {
  }

  lemma SameDirs(a: Dir, b: Dir)
    requires a.manifest.Some? && b.manifest.Some? && a.manifest.value.mode == b.manifest.value.mode
    requires forall k :: Get(a.files, k) == Get(b.files, k)
    requires forall k :: Get(a.manifest.value.entries, k) == Get(b.manifest.value.entries, k)
    ensures a == b
  {
    SameLookups(a.files, b.files);
    SameLookups(a.manifest.value.entries, b.manifest.value.entries);
  }

  /** Replaying a key whose file was already written, but whose entry was not, comes to the same end exactly when
      the file had not changed or the profile still has the version that was written. */
  lemma ReplayOneKey(p1: Option<Content>, p2: Option<Content>, d: Option<Content>, m: Option<Mark>)
    ensures var d' := Decide(p1, d, m).file;
            var again, once := Decide(p2, d', m), Decide(p2, d, m);
            again.file == once.file && again.mark == once.mark <==> d' == d || p1 == p2
  {
  }

  /** A second pass over a key changes no file, and a third pass nothing at all. The second pass changes the entry
      exactly when the user had restored a deleted file to the profile's version. */
  lemma SettleOneKey(p: Option<Content>, d: Option<Content>, m: Option<Mark>)
    ensures var v1 := Decide(p, d, m);
            var v2 := Decide(p, v1.file, v1.mark);
            var v3 := Decide(p, v2.file, v2.mark);
            && v2.file == v1.file && v3.file == v2.file && v3.mark == v2.mark
            && (v2.mark == v1.mark <==> !(m == Some(Tombstone) && p.Some? && d == p))
  {
  }

  /** The merge law: a file follows the profile if it still is the recorded version or was never recorded and is
      absent; otherwise it is the user's and stays as it is. */
  lemma OnlyRecordedVersionsChange(p: Option<Content>, d: Option<Content>, m: Option<Mark>)
    ensures Decide(p, d, m).file == if (d.Some? && m == Some(Active(d.value))) || (d.None? && m.None?) then p else d
    ensures var v := Decide(p, d, m);
            && (v.mark.Some? && v.mark.value.Active? ==> v.mark == m || (p.Some? && v.mark.value.hash == p.value))
            && (m.Some? && d.None? ==> v.file.None? && v.mark == Some(Tombstone))
  {
  }

  /** What is counted, in terms of what happened to the file. Created: it appears. Repaired: it is replaced or removed,
      or the entry of a file that both sides have dropped is closed. Everything else is skipped, and errors are never
      counted by the table itself. */
  lemma BucketsTellTheTruth(p: Option<Content>, d: Option<Content>, m: Option<Mark>)
    ensures var v := Decide(p, d, m);
            && (v.main == Created <==> d.None? && v.file.Some?)
            && (v.main == Repaired <==>
                  (d.Some? && v.file != d) || (d.None? && p.None? && m.Some? && m.value.Active?))
            && v.main != Errors
  {
  }

  /** And why: each detail has its own case, and a created file needs none. */
  lemma DetailsTellTheTruth(p: Option<Content>, d: Option<Content>, m: Option<Mark>)
    ensures var v := Decide(p, d, m);
            var recorded := m.Some? && m.value.Active?;
            var untouched := d.Some? && m == Some(Active(d.value));
            && (v.detail == Some(Upgraded) <==> d.Some? && v.file.Some? && v.file != d)
            && (v.detail == Some(Pruned) <==> recorded && p.None? && (d.None? || untouched))
            && (v.detail == Some(Orphaned) <==> recorded && p.None? && d.Some? && !untouched)
            && (v.detail == Some(UserModified) <==> recorded && p.Some? && d.Some? && d != p && !untouched)
            && (v.detail == Some(Unchanged) <==> recorded && p.Some? && d == p)
            && (v.detail == Some(DeletedUser) <==> recorded && p.Some? && d.None?)
            && (v.detail == Some(Tombstoned) <==> m == Some(Tombstone) && d.None?)
            && (v.detail == Some(UserOnly) <==> (m == Some(Tombstone) && d.Some?) || (m.None? && p.None?))
            && (v.detail == Some(Collision) <==> m.None? && p.Some? && d.Some?)
            && (v.detail == None <==> v.main == Created) && v.detail != Some(MigratedTotal)
  {
  }

  /** What an entry says after a clean pass: a tombstone means a recorded file that is absent; an active entry means a
      file of the profile that has never been missed, delivered in this version or changed by the user since. */
  lemma EntriesTellTheTruth(p: Option<Content>, d: Option<Content>, m: Option<Mark>)
    ensures var v := Decide(p, d, m);
            && (v.mark == Some(Tombstone) <==> v.file.None? && m.Some?)
            && (v.mark.Some? && v.mark.value.Active? <==>
                  p.Some? && v.file.Some? && m != Some(Tombstone) && (m.None? ==> v.file == p))
            && (v.mark.Some? && v.mark.value.Active? ==>
                  if v.file == p then v.mark.value.hash == p.value else v.mark == m && m != Some(Active(v.file.value)))
  {
  }

  // ---------- interruptions ----------

  /** A run that stops before the manifest is saved. The files of the keys in `touched` were written. A reset first
      empties the directory, so it may also stop with only the files in `kept` left and nothing copied. */
  ghost function Interrupted(d: Dir, profile: map<Path, Content>, mode: Mode, kept: set<Path>,
                             touched: set<Path>): Dir {
    if !Resets(d, mode) then d.(files := FilesAfter(profile, d.files, d.manifest.value.entries, touched))
    else if touched * profile.Keys == {} then d.(files := map k | k in d.files && k in kept :: d.files[k])
    else d.(files := ResetFiles(profile, touched))
  }

  /** Crash recovery is exact: an interrupted run leaves no trace after the next full run if and only if it was a
      reset, or the profile still is the same for every key whose file the interrupted run had changed. */
  lemma {:induction false} CrashRecovery(d: Dir, p1: map<Path, Content>, p2: map<Path, Content>, mode: Mode,
                                         kept: set<Path>, touched: set<Path>)
    ensures Synced(Interrupted(d, p1, mode, kept, touched), p2, mode, NO_FAULTS) == Synced(d, p2, mode, NO_FAULTS) <==>
              Resets(d, mode) || forall k ::
                k in touched && VerdictAt(p1, d.files, d.manifest.value.entries, k).file != Get(d.files, k) ==>
                Get(p1, k) == Get(p2, k)
  {
    InterruptedKeepsManifest(d, p1, mode, kept, touched);
    if !Resets(d, mode) {
      MergeRecovery(d, p1, p2, mode, kept, touched);
    }
  }

  lemma {:induction false} MergeRecovery(d: Dir, p1: map<Path, Content>, p2: map<Path, Content>, mode: Mode,
                                         kept: set<Path>, touched: set<Path>)
    requires !Resets(d, mode)
    ensures Synced(Interrupted(d, p1, mode, kept, touched), p2, mode, NO_FAULTS) == Synced(d, p2, mode, NO_FAULTS) <==>
              forall k ::
                k in touched && VerdictAt(p1, d.files, d.manifest.value.entries, k).file != Get(d.files, k) ==>
                Get(p1, k) == Get(p2, k)
  {
    hide Decide;
    var c, entries := Interrupted(d, p1, mode, kept, touched), d.manifest.value.entries;
    var again, once := Synced(c, p2, mode, NO_FAULTS), Synced(d, p2, mode, NO_FAULTS);
    forall k
      ensures Get(again.files, k) == Get(once.files, k)
              && Get(again.manifest.value.entries, k) == Get(once.manifest.value.entries, k)
              <==> (k in touched && VerdictAt(p1, d.files, entries, k).file != Get(d.files, k) ==>
                    Get(p1, k) == Get(p2, k))
    {
      SyncedAt(c, p2, mode, k);
      SyncedAt(d, p2, mode, k);
      ReplayOneKey(Get(p1, k), Get(p2, k), Get(d.files, k), Get(entries, k));
    }
    if forall k :: k in touched && VerdictAt(p1, d.files, entries, k).file != Get(d.files, k) ==>
       Get(p1, k) == Get(p2, k) {
      SameDirs(again, once);
    }
  }

  /** Any number of interruptions under one profile, then one full run: the same as one full run. */
  lemma {:induction false} RepeatedCrashesRecover(d: Dir, profile: map<Path, Content>, mode: Mode,
                                                  stops: seq<(set<Path>, set<Path>)>)
    ensures Synced(InterruptedAll(d, profile, mode, stops), profile, mode, NO_FAULTS)
            == Synced(d, profile, mode, NO_FAULTS)
    decreases |stops|
  {
    if |stops| > 0 {
      var c := Interrupted(d, profile, mode, stops[0].0, stops[0].1);
      RepeatedCrashesRecover(c, profile, mode, stops[1..]);
      CrashRecovery(d, profile, profile, mode, stops[0].0, stops[0].1);
    }
  }

  ghost function InterruptedAll(d: Dir, profile: map<Path, Content>, mode: Mode,
                                stops: seq<(set<Path>, set<Path>)>): (r: Dir)
    ensures r.manifest == d.manifest
    decreases |stops|
  {
    if |stops| == 0 then d
    else InterruptedAll(Interrupted(d, profile, mode, stops[0].0, stops[0].1), profile, mode, stops[1..])
  }

  lemma InterruptedKeepsManifest(d: Dir, profile: map<Path, Content>, mode: Mode, kept: set<Path>, touched: set<Path>)
    ensures Interrupted(d, profile, mode, kept, touched).manifest == d.manifest
  {
  }

  /** A directory that agrees with the profile of one mode: every file delivered and recorded. */
  ghost predicate Delivered(d: Dir, profile: map<Path, Content>, mode: Mode) {
    d == Dir(profile, Some(Manifest(map k | k in profile :: Active(profile[k]), Some(mode))))
  }

  /** An interrupted switch of modes is not undone by going back to the old mode: the run in the old mode keeps
      every file exactly as the interruption left it, and takes each missing one for deleted by the user. */
  lemma {:induction false} AbandonedSwitchIsNotUndone(d: Dir, mode: Mode, profile: map<Path, Content>, newMode: Mode,
                                                      newProfile: map<Path, Content>, kept: set<Path>,
                                                      touched: set<Path>)
    requires Delivered(d, profile, mode) && newMode != mode
    ensures var c := Interrupted(d, newProfile, newMode, kept, touched);
            var back := Synced(c, profile, mode, NO_FAULTS);
            && back.files == c.files
            && (forall k :: k in profile && k !in c.files ==> Get(back.manifest.value.entries, k) == Some(Tombstone))
            && (back == d <==> c.files == profile)
  {
    hide Interrupted, Synced;
    var c := Interrupted(d, newProfile, newMode, kept, touched);
    var back := Synced(c, profile, mode, NO_FAULTS);
    InterruptedKeepsManifest(d, newProfile, newMode, kept, touched);
    FaultySyncedAt(c, profile, mode, NO_FAULTS, Path(""));
    forall k
      ensures Get(back.files, k) == Get(c.files, k)
      ensures Get(c.files, k) == Get(profile, k) ==>
                Get(back.manifest.value.entries, k) == Get(d.manifest.value.entries, k)
      ensures k in profile && k !in c.files ==> Get(back.manifest.value.entries, k) == Some(Tombstone)
    {
      SyncedAt(c, profile, mode, k);
      assert Get(d.manifest.value.entries, k) == if k in profile then Some(Active(profile[k])) else None;
    }
    SameLookups(back.files, c.files);
    if c.files == profile {
      SameDirs(back, d);
    }
  }

  /** Whether a pass over a key cannot tell two contents of its file apart, given the profile and the entry: they are
      the same; or the entry is missing and they are the profile's version and none; or each is the recorded version
      or what the profile has. */
  predicate SameFate(p: Option<Content>, c: Option<Content>, d: Option<Content>, m: Option<Mark>) {
    || c == d
    || (m.None? && c in {None, p} && d in {None, p})
    || (m.Some? && m.value.Active? && c in {p, Some(m.value.hash)} && d in {p, Some(m.value.hash)})
  }

  lemma SameFateOfKey(p: Option<Content>, c: Option<Content>, d: Option<Content>, m: Option<Mark>)
    ensures var x, y := Decide(p, c, m), Decide(p, d, m); x.file == y.file && x.mark == y.mark <==> SameFate(p, c, d, m)
  {
  }

  /** Going back to the old mode after an interrupted switch, from any directory in that mode, undoes the switch if and
      only if every file it left behind has the same fate as the one that was there before. */
  lemma {:induction false} AbandonedSwitch(d: Dir, mode: Mode, profile: map<Path, Content>, newMode: Mode,
                                           newProfile: map<Path, Content>, kept: set<Path>, touched: set<Path>)
    requires !Resets(d, mode) && newMode != mode
    ensures var c := Interrupted(d, newProfile, newMode, kept, touched);
            Synced(c, profile, mode, NO_FAULTS) == Synced(d, profile, mode, NO_FAULTS) <==>
              forall k :: SameFate(Get(profile, k), Get(c.files, k), Get(d.files, k), Get(d.manifest.value.entries, k))
  {
    hide Interrupted, Synced, Decide, SameFate;
    var c, entries := Interrupted(d, newProfile, newMode, kept, touched), d.manifest.value.entries;
    var back, once := Synced(c, profile, mode, NO_FAULTS), Synced(d, profile, mode, NO_FAULTS);
    InterruptedKeepsManifest(d, newProfile, newMode, kept, touched);
    SyncedAt(c, profile, mode, Path(""));
    SyncedAt(d, profile, mode, Path(""));
    forall k
      ensures Get(back.files, k) == Get(once.files, k)
              && Get(back.manifest.value.entries, k) == Get(once.manifest.value.entries, k)
              <==> SameFate(Get(profile, k), Get(c.files, k), Get(d.files, k), Get(entries, k))
    {
      SyncedAt(c, profile, mode, k);
      SyncedAt(d, profile, mode, k);
      SameFateOfKey(Get(profile, k), Get(c.files, k), Get(d.files, k), Get(entries, k));
    }
    if forall k :: SameFate(Get(profile, k), Get(c.files, k), Get(d.files, k), Get(entries, k)) {
      SameDirs(back, once);
    }
  }

  // ---------- convergence ----------

  /** A reset delivers the whole profile. */
  lemma ResetIsDelivered(d: Dir, profile: map<Path, Content>, mode: Mode)
    requires d.manifest.None? || (d.manifest.value.mode.Some? && d.manifest.value.mode != Some(mode))
    ensures Delivered(Synced(d, profile, mode, NO_FAULTS), profile, mode)
  {
    var d' := Synced(d, profile, mode, NO_FAULTS);
    assert d'.files == profile;
    assert d'.manifest.value.entries == map k | k in profile :: Active(profile[k]);
  }

  lemma {:induction false} DeliveredIsStable(d: Dir, profile: map<Path, Content>, mode: Mode)
    requires Delivered(d, profile, mode)
    ensures Synced(d, profile, mode, NO_FAULTS) == d
  {
    var d' := Synced(d, profile, mode, NO_FAULTS);
    forall k ensures Get(d'.files, k) == Get(d.files, k)
             ensures Get(d'.manifest.value.entries, k) == Get(d.manifest.value.entries, k)
    {
      SyncedAt(d, profile, mode, k);
    }
    SameDirs(d', d);
  }

  /** A deleted file the user has put back in the profile's version. */
  ghost predicate Restored(d: Dir, profile: map<Path, Content>, k: Path) {
    && d.manifest.Some? && Get(d.manifest.value.entries, k) == Some(Tombstone) && k in profile
    && Get(d.files, k) == Some(profile[k])
  }

  /** With no outside change the files are stable after one run, files and manifest after two. One run is enough
      for both exactly when it resets the directory or finds no file restored after a deletion. */
  lemma {:induction false} Convergence(d: Dir, profile: map<Path, Content>, mode: Mode)
    ensures var d1 := Synced(d, profile, mode, NO_FAULTS);
            var d2 := Synced(d1, profile, mode, NO_FAULTS);
            && d2.files == d1.files
            && Synced(d2, profile, mode, NO_FAULTS) == d2
            && (d2 == d1 <==> Resets(d, mode) || forall k :: !Restored(d, profile, k))
  {
    hide Decide;
    var d1 := Synced(d, profile, mode, NO_FAULTS);
    var d2 := Synced(d1, profile, mode, NO_FAULTS);
    var d3 := Synced(d2, profile, mode, NO_FAULTS);
    if Resets(d, mode) {
      ResetIsDelivered(d, profile, mode);
      DeliveredIsStable(d1, profile, mode);
    } else {
      forall k
        ensures Get(d2.files, k) == Get(d1.files, k) == Get(d3.files, k)
        ensures Get(d3.manifest.value.entries, k) == Get(d2.manifest.value.entries, k)
        ensures Get(d2.manifest.value.entries, k) == Get(d1.manifest.value.entries, k) <==> !Restored(d, profile, k)
      {
        SyncedAt(d, profile, mode, k);
        SyncedAt(d1, profile, mode, k);
        SyncedAt(d2, profile, mode, k);
        SettleOneKey(Get(profile, k), Get(d.files, k), Get(d.manifest.value.entries, k));
      }
      SameLookups(d2.files, d1.files);
      SameDirs(d3, d2);
      if forall k :: !Restored(d, profile, k) {
        SameDirs(d2, d1);
      }
    }
  }

  /** What a run starts from at one key: a reset starts from nothing. */
  ghost function StartFile(d: Dir, mode: Mode, k: Path): Option<Content> {
    if Resets(d, mode) then None else Get(d.files, k)
  }

  ghost function StartMark(d: Dir, mode: Mode, k: Path): Option<Mark> {
    if Resets(d, mode) then None else Get(d.manifest.value.entries, k)
  }

  /** One key in a run with I/O errors. */
  lemma FaultySyncedAt(d: Dir, profile: map<Path, Content>, mode: Mode, faults: Faults, k: Path)
    ensures var f, m, d' := StartFile(d, mode, k), StartMark(d, mode, k), Synced(d, profile, mode, faults);
            var v := Decide(Get(profile, k), f, m);
            && Get(d'.files, k) == (if k !in faults.failed || k in faults.written then v.file else f)
            && !Resets(d', mode) && d'.manifest.value.mode == Some(mode)
            && Get(d'.manifest.value.entries, k) == if k in faults.failed then m else v.mark
  {
  }

  /** One key whose file, or file and entry, may have missed a pass: a clean pass catches up with the file, a second
      one with the entry. */
  lemma HealOneKey(p: Option<Content>, d: Option<Content>, m: Option<Mark>, fileDone: bool, markDone: bool)
    requires markDone ==> fileDone
    ensures var once := Decide(p, d, m);
            var healed := Decide(p, if fileDone then once.file else d, if markDone then once.mark else m);
            var twice, settled := Decide(p, once.file, once.mark), Decide(p, healed.file, healed.mark);
            healed.file == once.file && settled.file == twice.file && settled.mark == twice.mark
  {
  }

  /** I/O errors heal: after a run with errors, the next clean run brings the files to where a clean run would have
      brought them in the first place, and a second one the manifest too. */
  lemma {:induction false} ErrorsHeal(d: Dir, profile: map<Path, Content>, mode: Mode, faults: Faults)
    ensures var once := Synced(d, profile, mode, NO_FAULTS);
            var healed := Synced(Synced(d, profile, mode, faults), profile, mode, NO_FAULTS);
            && healed.files == once.files
            && Synced(healed, profile, mode, NO_FAULTS) == Synced(once, profile, mode, NO_FAULTS)
  {
    hide Decide, Synced;
    var faulty := Synced(d, profile, mode, faults);
    var once, healed := Synced(d, profile, mode, NO_FAULTS), Synced(faulty, profile, mode, NO_FAULTS);
    var twice, settled := Synced(once, profile, mode, NO_FAULTS), Synced(healed, profile, mode, NO_FAULTS);
    forall k
      ensures Get(healed.files, k) == Get(once.files, k) && Get(settled.files, k) == Get(twice.files, k)
      ensures once.manifest.Some? && twice.manifest.Some? && settled.manifest.Some?
              && twice.manifest.value.mode == settled.manifest.value.mode
              && Get(settled.manifest.value.entries, k) == Get(twice.manifest.value.entries, k)
    {
      OneKeyHeals(d, profile, mode, faults, k);
    }
    SameLookups(healed.files, once.files);
    FaultySyncedAt(once, profile, mode, NO_FAULTS, Path(""));
    FaultySyncedAt(healed, profile, mode, NO_FAULTS, Path(""));
    SameDirs(settled, twice);
  }

  lemma {:induction false} OneKeyHeals(d: Dir, profile: map<Path, Content>, mode: Mode, faults: Faults, k: Path)
    ensures var once := Synced(d, profile, mode, NO_FAULTS);
            var healed := Synced(Synced(d, profile, mode, faults), profile, mode, NO_FAULTS);
            var twice, settled := Synced(once, profile, mode, NO_FAULTS), Synced(healed, profile, mode, NO_FAULTS);
            && Get(healed.files, k) == Get(once.files, k) && Get(settled.files, k) == Get(twice.files, k)
            && once.manifest.Some? && twice.manifest.Some? && settled.manifest.Some?
            && twice.manifest.value.mode == settled.manifest.value.mode
            && Get(settled.manifest.value.entries, k) == Get(twice.manifest.value.entries, k)
  {
    hide Synced, Decide;
    var faulty := Synced(d, profile, mode, faults);
    var once, healed := Synced(d, profile, mode, NO_FAULTS), Synced(faulty, profile, mode, NO_FAULTS);
    FaultySyncedAt(d, profile, mode, faults, k);
    FaultySyncedAt(d, profile, mode, NO_FAULTS, k);
    FaultySyncedAt(faulty, profile, mode, NO_FAULTS, k);
    FaultySyncedAt(once, profile, mode, NO_FAULTS, k);
    FaultySyncedAt(healed, profile, mode, NO_FAULTS, k);
    HealOneKey(Get(profile, k), StartFile(d, mode, k), StartMark(d, mode, k),
               k !in faults.failed || k in faults.written, k !in faults.failed);
  }

  // ---------- runs ----------

  datatype Step =
    | Edit(path: Path, content: Option<Content>)
    | Run(mode: Mode, profile: map<Path, Content>, faults: Faults)
    | Crash(mode: Mode, profile: map<Path, Content>, kept: set<Path>, touched: set<Path>)

  ghost function Next(d: Dir, s: Step): Dir {
    match s
    case Edit(path, content) => d.(files := Put(d.files, path, content))
    case Run(mode, profile, faults) => Synced(d, profile, mode, faults)
    case Crash(mode, profile, kept, touched) => Interrupted(d, profile, mode, kept, touched)
  }

  ghost function After(d: Dir, steps: seq<Step>): Dir {
    if |steps| == 0 then d else Next(After(d, steps[..|steps| - 1]), steps[|steps| - 1])
  }

  /** Every run asks for the mode the directory is in, so none of them resets it. The profile may change freely. */
  ghost predicate StaysInMode(d: Dir, steps: seq<Step>, mode: Mode) {
    && !Resets(d, mode)
    && forall i :: 0 <= i < |steps| && !steps[i].Edit? ==> steps[i].mode == mode
  }

  /** The versions the profile has shipped for each path, `shipped` being those from before. */
  ghost function Shipped(shipped: iset<(Path, Content)>, steps: seq<Step>): iset<(Path, Content)> {
    iset x | x in shipped || exists i :: 0 <= i < |steps| && Ships(steps[i], x)
  }

  ghost predicate Ships(s: Step, x: (Path, Content)) {
    !s.Edit? && Get(s.profile, x.0) == Some(x.1)
  }

  /** Every active entry records a version the profile has shipped. */
  ghost predicate Recorded(d: Dir, shipped: iset<(Path, Content)>) {
    d.manifest.Some? &&
    forall k :: k in d.manifest.value.entries && d.manifest.value.entries[k].Active? ==>
      (k, d.manifest.value.entries[k].hash) in shipped
  }

  /** What one step in the directory's mode does to one key. */
  lemma {:induction false} OneStep(d: Dir, s: Step, mode: Mode, k: Path)
    requires !Resets(d, mode) && (!s.Edit? ==> s.mode == mode)
    ensures var d' := Next(d, s);
            var m := Get(d.manifest.value.entries, k);
            && !Resets(d', mode)
            && (s.Edit? && s.path == k ==> Get(d'.manifest.value.entries, k) == m)
            && (!(s.Edit? && s.path == k) ==>
                  var f, f', m' := Get(d.files, k), Get(d'.files, k), Get(d'.manifest.value.entries, k);
                  && (f.Some? && f' != f ==> m == Some(Active(f.value)))
                  && (m'.Some? && m'.value.Active? ==> m' == m || Ships(s, (k, m'.value.hash)))
                  && (m.Some? && f.None? ==>
                        && f'.None? && (m' == m || m' == Some(Tombstone))
                        && (Reaches(s, k) ==> m' == Some(Tombstone))))
  {
    hide Decide, Synced, FilesAfter, EntriesAfter;
    match s
    case Edit(path, content) =>
    case Run(mode', profile, faults) =>
      FaultySyncedAt(d, profile, mode, faults, k);
      OnlyRecordedVersionsChange(Get(profile, k), Get(d.files, k), Get(d.manifest.value.entries, k));
    case Crash(mode', profile, kept, touched) =>
      OnlyRecordedVersionsChange(Get(profile, k), Get(d.files, k), Get(d.manifest.value.entries, k));
  }

  lemma {:induction false} StepKeepsRecorded(d: Dir, s: Step, mode: Mode, shipped: iset<(Path, Content)>,
                                             more: iset<(Path, Content)>)
    requires !Resets(d, mode) && (!s.Edit? ==> s.mode == mode)
    requires Recorded(d, shipped) && shipped <= more && forall x :: Ships(s, x) ==> x in more
    ensures Recorded(Next(d, s), more) && !Resets(Next(d, s), mode)
  {
    hide Next;
    var d' := Next(d, s);
    assert !Resets(d', mode) by { OneStep(d, s, mode, Path("")); }
    forall k | k in d'.manifest.value.entries && d'.manifest.value.entries[k].Active?
      ensures (k, d'.manifest.value.entries[k].hash) in more
    {
      OneStep(d, s, mode, k);
      var m, m' := Get(d.manifest.value.entries, k), Get(d'.manifest.value.entries, k);
      assert m' == m || Ships(s, (k, m'.value.hash));
    }
  }

  lemma {:induction false} RunKeepsRecorded(d: Dir, steps: seq<Step>, mode: Mode, shipped: iset<(Path, Content)>)
    requires StaysInMode(d, steps, mode) && Recorded(d, shipped)
    ensures Recorded(After(d, steps), Shipped(shipped, steps)) && !Resets(After(d, steps), mode)
  {
    if |steps| == 0 {
      assert shipped <= Shipped(shipped, steps);
    } else {
      var front, last := steps[..|steps| - 1], steps[|steps| - 1];
      RunKeepsRecorded(d, front, mode, shipped);
      forall x | x in Shipped(shipped, front) || Ships(last, x) ensures x in Shipped(shipped, steps) {
        if x in Shipped(shipped, front) && x !in shipped {
          var i :| 0 <= i < |front| && Ships(front[i], x);
          assert Ships(steps[i], x);
        }
      }
      StepKeepsRecorded(After(d, front), last, mode, Shipped(shipped, front), Shipped(shipped, steps));
    }
  }

  /** User work is safe over whole runs. After any sequence of user edits, profile changes, runs with I/O errors and
      interrupted runs, the next run replaces or removes a file only if its content is a version the profile has
      shipped for that path before. */
  lemma {:induction false} UserWorkIsSafe(d: Dir, steps: seq<Step>, next: Step, mode: Mode,
                                          shipped: iset<(Path, Content)>, k: Path)
    requires StaysInMode(d, steps + [next], mode) && Recorded(d, shipped) && !next.Edit?
    ensures var was, now := After(d, steps), Next(After(d, steps), next);
            k in was.files && Get(now.files, k) != Some(was.files[k]) ==> (k, was.files[k]) in Shipped(shipped, steps)
  {
    assert StaysInMode(d, steps, mode) by {
      assert forall i :: 0 <= i < |steps| ==> (steps + [next])[i] == steps[i];
    }
    assert next.mode == mode by {
      assert (steps + [next])[|steps|] == next;
    }
    RunKeepsRecorded(d, steps, mode, shipped);
    OneStep(After(d, steps), next, mode, k);
  }

  /** So a file whose content the profile never ships stays as it is until the user touches it again. */
  lemma {:induction false} UserEditSurvives(d: Dir, steps: seq<Step>, mode: Mode, shipped: iset<(Path, Content)>,
                                            k: Path, c: Content)
    requires StaysInMode(d, steps, mode) && Recorded(d, shipped)
    requires Get(d.files, k) == Some(c) && (k, c) !in Shipped(shipped, steps)
    requires forall i :: 0 <= i < |steps| && steps[i].Edit? ==> steps[i].path != k
    ensures Get(After(d, steps).files, k) == Some(c)
  {
    if |steps| > 0 {
      var front, last := steps[..|steps| - 1], steps[|steps| - 1];
      assert steps == front + [last];
      assert (k, c) !in Shipped(shipped, front) by {
        assert forall i :: 0 <= i < |front| ==> front[i] == steps[i];
      }
      UserEditSurvives(d, front, mode, shipped, k, c);
      if !last.Edit? {
        UserWorkIsSafe(d, front, last, mode, shipped, k);
      }
    }
  }

  /** No resurrection: a built-in file the user has deleted stays away through every later sequence of runs, with
      errors or interrupted, whatever the profile adds, upgrades or removes, until the user recreates it; and from the
      first run that reaches it without an error the deletion is on record. */
  lemma {:induction false} NoResurrection(d: Dir, steps: seq<Step>, mode: Mode, k: Path)
    requires StaysInMode(d, steps, mode)
    requires k in d.manifest.value.entries && k !in d.files
    requires forall i :: 0 <= i < |steps| && steps[i].Edit? ==> steps[i].path != k
    ensures var d' := After(d, steps);
            && !Resets(d', mode) && k !in d'.files && k in d'.manifest.value.entries
            && (d.manifest.value.entries[k].Tombstone? || (exists i :: 0 <= i < |steps| && Reaches(steps[i], k)) ==>
                  d'.manifest.value.entries[k].Tombstone?)
  {
    if |steps| > 0 {
      var front, last := steps[..|steps| - 1], steps[|steps| - 1];
      NoResurrection(d, front, mode, k);
      OneStep(After(d, front), last, mode, k);
      if i :| 0 <= i < |steps| && Reaches(steps[i], k) {
        assert i < |front| ==> Reaches(front[i], k);
      }
    }
  }

  ghost predicate Reaches(s: Step, k: Path) {
    s.Run? && k !in s.faults.failed
  }
}
