/** Commits that stop half way (lib/episode_planner.py, `_reconcile_derived_files`): the derived files are written and
    cleared one by one, the ledger is saved last. */
module CommitCrashes {
  import opened Options
  import opened SortedSets
  import opened EpisodeLedger
  import opened BackfillLaws
  import opened BackfillSees
  import opened Planner
  import opened CommitLaws

  /** Where a commit stops: after some writes, perhaps in the middle of the next one, or after all writes with some of
      the residue and perhaps the remainder file gone. */
  datatype Crash = Writing(written: nat, torn: Option<string>) | Clearing(gone: set<int>, noRemaining: bool)

  predicate CrashOf(c: Crash, writes: seq<(int, string)>) {
    c.Writing? ==> c.written <= |writes| && (c.torn.Some? ==> c.written < |writes|)
  }

  function AfterCrash(s: Store, writes: seq<(int, string)>, keep: set<int>, c: Crash): Store
    requires CrashOf(c, writes)
  {
    match c
    case Writing(k, torn) =>
      var files := ApplyWrites(s.files, writes[..k]);
      s.(files := if torn.Some? then files[writes[k].0 := torn.value] else files)
    case Clearing(gone, noRemaining) =>
      var files := ApplyWrites(s.files, writes);
      Store(s.project, map n | n in files && !(n in gone && n !in keep && n >= 0) :: files[n],
            if noRemaining then None else s.remaining)
  }

  // ---------- what a crash leaves on disk ----------

  ghost predicate WrittenIn(writes: seq<(int, string)>, n: int) {
    exists i :: 0 <= i < |writes| && writes[i].0 == n
  }

  /** Every number that is written ends with its last text, every other one with what was there. */
  lemma {:induction false} WritesCover(f: map<int, string>, g: map<int, string>, writes: seq<(int, string)>, n: int)
    requires WrittenIn(writes, n) || Lookup(f, n) == Lookup(g, n)
    ensures Lookup(ApplyWrites(f, writes), n) == Lookup(ApplyWrites(g, writes), n)
    decreases |writes|
  {
    if |writes| > 0 {
      var f', g' := f[writes[0].0 := writes[0].1], g[writes[0].0 := writes[0].1];
      if writes[0].0 != n && WrittenIn(writes, n) {
        var i :| 0 <= i < |writes| && writes[i].0 == n;
        assert writes[1..][i - 1].0 == n;
      }
      WritesCover(f', g', writes[1..], n);
    }
  }

  lemma {:induction false} UnwrittenStays(f: map<int, string>, writes: seq<(int, string)>, n: int)
    requires !WrittenIn(writes, n)
    ensures Lookup(ApplyWrites(f, writes), n) == Lookup(f, n)
    decreases |writes|
  {
    if |writes| > 0 {
      assert writes[0].0 != n;
      forall i | 0 <= i < |writes[1..]| ensures writes[1..][i].0 != n {
        assert writes[1..][i] == writes[i + 1];
      }
      UnwrittenStays(f[writes[0].0 := writes[0].1], writes[1..], n);
    }
  }

  /** A crash only touches files that the commit writes or that it would remove. */
  lemma CrashTouches(s: Store, writes: seq<(int, string)>, keep: set<int>, c: Crash, n: int)
    requires CrashOf(c, writes) && !WrittenIn(writes, n)
    ensures var f := AfterCrash(s, writes, keep, c).files;
            Lookup(f, n) == Lookup(s.files, n) || (Lookup(f, n).None? && n !in keep && n >= 0)
  {
    hide ApplyWrites;
    match c
    case Writing(k, torn) =>
      forall i | 0 <= i < k ensures writes[..k][i].0 != n {
        assert writes[..k][i] == writes[i];
      }
      UnwrittenStays(s.files, writes[..k], n);
      assert torn.Some? ==> writes[k].0 != n;
    case Clearing(_, _) =>
      UnwrittenStays(s.files, writes, n);
  }

  /** Running the reconciliation again finishes the job, wherever it stopped. */
  lemma ReconcilingAgain(s: Store, writes: seq<(int, string)>, keep: set<int>, c: Crash)
    requires CrashOf(c, writes)
    ensures WithoutResidue(ApplyWrites(AfterCrash(s, writes, keep, c).files, writes), keep)
            == WithoutResidue(ApplyWrites(s.files, writes), keep)
  {
    hide ApplyWrites, AfterCrash, WrittenIn;
    var f := AfterCrash(s, writes, keep, c).files;
    var once, again := ApplyWrites(s.files, writes), ApplyWrites(f, writes);
    forall n | n in keep || n < 0 ensures Lookup(again, n) == Lookup(once, n) {
      if !WrittenIn(writes, n) {
        CrashTouches(s, writes, keep, c, n);
      }
      WritesCover(f, s.files, writes, n);
    }
    SameKept(again, once, keep);
  }

  lemma SameKept(f: map<int, string>, g: map<int, string>, keep: set<int>)
    requires forall n :: n in keep || n < 0 ==> Lookup(f, n) == Lookup(g, n)
    ensures WithoutResidue(f, keep) == WithoutResidue(g, keep)
  {
    var a, b := WithoutResidue(f, keep), WithoutResidue(g, keep);
    forall n ensures n in a <==> n in b {
      assert n in keep || n < 0 ==> Lookup(f, n) == Lookup(g, n);
    }
    forall n | n in a ensures a[n] == b[n] {
      assert Lookup(f, n) == Lookup(g, n);
    }
  }

  // ---------- what a crash leaves in place ----------

  lemma CrashKeepsLedger(s: Store, writes: seq<(int, string)>, keep: set<int>, c: Crash)
    requires CrashOf(c, writes)
    ensures var t := AfterCrash(s, writes, keep, c);
            && t.project == s.project
            && (if c.Writing? || !c.noRemaining then t.remaining == s.remaining else t.remaining == None)
  {
  }

  lemma {:induction false} WritesOnlyAdd(files: map<int, string>, writes: seq<(int, string)>, n: int)
    requires n in files
    ensures n in ApplyWrites(files, writes)
    decreases |writes|
  {
    if |writes| > 0 {
      WritesOnlyAdd(files[writes[0].0 := writes[0].1], writes[1..], n);
    }
  }

  /** Files that keep a row are never removed. */
  lemma RowFilesStay(s: Store, writes: seq<(int, string)>, keep: set<int>, c: Crash, n: int)
    requires CrashOf(c, writes) && n in s.files && n in keep
    ensures n in AfterCrash(s, writes, keep, c).files
  {
    hide ApplyWrites;
    WritesOnlyAdd(s.files, writes, n);
    if c.Writing? {
      WritesOnlyAdd(s.files, writes[..c.written], n);
    }
  }

  lemma {:induction false} AscendingSize(s: set<int>)
    ensures |Ascending(s)| == |s|
    decreases |s|
  {
    if s != {} {
      var m := Least(s);
      AscendingSize(s - {m});
    }
  }

  lemma OrphanCount(eps: seq<Entry>, files: map<int, string>)
    ensures |WithOrphans(eps, files)| == |eps| + |Discovered(files) - NumsOf(eps)|
  {
    hide Sort, Ascending, Discovered, NumsOf;
    AscendingSize(Discovered(files) - NumsOf(eps));
  }

  /** A file without a row is adopted. */
  lemma ExtraFileAddsRow(env: Env, s: Store, t: Store, n: int)
    requires t.project == s.project && Discovered(s.files) <= Discovered(t.files)
    requires n in Discovered(t.files) && n !in NumsOf(Backfilled(env, s).episodes)
    ensures |Backfilled(env, t).episodes| > |Backfilled(env, s).episodes|
  {
    hide Backfill, WithOrphans, Discovered, NumsOf;
    var eps := s.project.episodes;
    BackfillIsSound(s.project, DiskOf(env, s));
    BackfillIsSound(t.project, DiskOf(env, t));
    NumbersSeen(s.project, DiskOf(env, s));
    OrphanCount(eps, s.files);
    OrphanCount(eps, t.files);
    ProperlyMore(Discovered(s.files) - NumsOf(eps), Discovered(t.files) - NumsOf(eps), n);
  }

  lemma ProperlyMore(a: set<int>, b: set<int>, n: int)
    requires a <= b && n in b && n !in a
    ensures |a| < |b|
  {
    assert b == (a + {n}) + (b - a - {n});
  }

  // ---------- running a plan commit again ----------

  /** What a plan commit writes, in order. */
  function PlanWritten(env: Env, s: Store, t: PlanTicket): seq<(int, string)>
    requires TicketShape(t)
  {
    var w := CollectWrites(env, map[t.rel := t.text], PlannedLedger(Backfilled(env, s), t).episodes);
    if w.Ok? then w.value else []
  }

  /** The store a plan commit leaves behind when it stops at `c`. */
  function PlanStopped(env: Env, s: Store, t: PlanTicket, c: Crash): Store
    requires TicketShape(t) && CrashOf(c, PlanWritten(env, s, t))
  {
    AfterCrash(s, PlanWritten(env, s, t), NumsOf(PlannedLedger(Backfilled(env, s), t).episodes), c)
  }

  lemma SameInstall(env: Env, cache: map<string, string>, s: Store, t: Store, p: Project, exhausted: bool, c: Crash)
    requires Install(env, cache, s, p, exhausted).Done?
    requires var writes := CollectWrites(env, cache, p.episodes).value;
             CrashOf(c, writes) && t == AfterCrash(s, writes, NumsOf(p.episodes), c)
    ensures Install(env, cache, t, p, exhausted) == Install(env, cache, s, p, exhausted)
  {
    hide AfterCrash, ApplyWrites, WithoutResidue, CrashOf;
    ReconcilingAgain(s, CollectWrites(env, cache, p.episodes).value, NumsOf(p.episodes), c);
  }

  lemma PlannedSize(p: Project, t: PlanTicket)
    requires TicketShape(t)
    ensures |PlannedLedger(p, t).episodes| == |p.episodes| + |t.drafts|
  {
    hide NextNum;
  }

  lemma DonePlan(env: Env, s: Store, t: PlanTicket)
    requires TicketShape(t) && CommitPlan(env, s, t).Done?
    ensures var p' := PlannedLedger(Backfilled(env, s), t);
            && CollectWrites(env, map[t.rel := t.text], p'.episodes).Ok?
            && CommitPlan(env, s, t).store.project == p'
            && CommitPlan(env, s, t) == Install(env, map[t.rel := t.text], s, p', PlanExhausts(env, t))
  {
    hide Backfill, PlannedLedger, EffectiveStart, CollectWrites, PlanExhausts;
  }

  lemma PlanKeepsNumbers(p: Project, t: PlanTicket)
    requires TicketShape(t)
    ensures NumsOf(p.episodes) <= NumsOf(PlannedLedger(p, t).episodes)
  {
    hide Arrange, NextNum;
    var all := p.episodes + PlanRows(t.drafts, t.ends, NextNum(p.episodes), t.rel, t.start, t.start);
    ArrangeKeepsRows(all);
    forall n | n in NumsOf(p.episodes) ensures n in NumsOf(Arrange(all)) {
      var e :| e in p.episodes && e.num == Some(n);
      assert e in multiset(all);
      assert e in multiset(Arrange(all));
    }
  }

  lemma StoppedPlanKeepsFiles(env: Env, s: Store, t: PlanTicket, c: Crash)
    requires TicketShape(t) && CommitPlan(env, s, t).Done? && CrashOf(c, PlanWritten(env, s, t))
    ensures Discovered(s.files) <= Discovered(PlanStopped(env, s, t, c).files)
  {
    hide Backfill, PlannedLedger, PlanWritten, AfterCrash, CommitPlan, NumsOf;
    var p := Backfilled(env, s);
    NumbersSeen(s.project, DiskOf(env, s));
    PlanKeepsNumbers(p, t);
    forall n | n in Discovered(s.files) ensures n in Discovered(PlanStopped(env, s, t, c).files) {
      assert n in s.files && n in NumsOf(PlannedLedger(p, t).episodes);
      RowFilesStay(s, PlanWritten(env, s, t), NumsOf(PlannedLedger(p, t).episodes), c, n);
    }
  }

  lemma FirstNewRow(p: Project, t: PlanTicket)
    requires TicketShape(t)
    ensures exists i :: var eps := PlannedLedger(p, t).episodes;
                        0 <= i < |eps| && Rewritten(eps[i]) && eps[i].num == Some(NextNum(p.episodes))
  {
    hide Arrange, NextNum;
    var rows := PlanRows(t.drafts, t.ends, NextNum(p.episodes), t.rel, t.start, t.start);
    ArrangeKeepsRows(p.episodes + rows);
    assert rows[0] in multiset(p.episodes + rows);
    assert rows[0] in multiset(PlannedLedger(p, t).episodes);
    var i :| 0 <= i < |PlannedLedger(p, t).episodes| && PlannedLedger(p, t).episodes[i] == rows[0];
  }

  /** After its last write a plan commit has left a file for its first new row. */
  lemma WrittenPlanHasNewFile(env: Env, s: Store, t: PlanTicket, c: Crash) returns (n: int)
    requires TicketShape(t) && CommitPlan(env, s, t).Done? && c.Clearing?
    ensures n in Discovered(PlanStopped(env, s, t, c).files) && n !in NumsOf(Backfilled(env, s).episodes)
  {
    hide Backfill, PlannedLedger, CollectWrites, ApplyWrites, CommitPlan, LastRewritten;
    DonePlan(env, s, t);
    var p := Backfilled(env, s);
    var eps := PlannedLedger(p, t).episodes;
    n := NextNum(p.episodes);
    FirstNewRow(p, t);
    LastRewrittenIsARow(eps, n);
    WritesLandOnce(env, map[t.rel := t.text], eps, s.files, n);
  }

  /** So a plan commit that stops after its last write, before the ledger is saved, is never redone as it was. */
  lemma UnsavedPlanIsNotRedone(env: Env, s: Store, t: PlanTicket, c: Crash)
    requires TicketShape(t) && CommitPlan(env, s, t).Done? && c.Clearing?
    ensures CommitPlan(env, PlanStopped(env, s, t, c), t) != CommitPlan(env, s, t)
  {
    hide Backfill, PlannedLedger, PlanWritten, AfterCrash, CommitPlan, NumsOf;
    var n := WrittenPlanHasNewFile(env, s, t, c);
    MoreRowsMoreLedger(env, s, t, c, n);
  }

  lemma MoreRowsMoreLedger(env: Env, s: Store, t: PlanTicket, c: Crash, n: int)
    requires TicketShape(t) && CommitPlan(env, s, t).Done? && CrashOf(c, PlanWritten(env, s, t))
    requires n in Discovered(PlanStopped(env, s, t, c).files) && n !in NumsOf(Backfilled(env, s).episodes)
    ensures CommitPlan(env, PlanStopped(env, s, t, c), t) != CommitPlan(env, s, t)
  {
    hide Backfill, PlannedLedger, PlanWritten, AfterCrash, CommitPlan, NumsOf, Discovered, CrashOf;
    var stopped := PlanStopped(env, s, t, c);
    CrashKeepsLedger(s, PlanWritten(env, s, t), NumsOf(PlannedLedger(Backfilled(env, s), t).episodes), c);
    StoppedPlanKeepsFiles(env, s, t, c);
    ExtraFileAddsRow(env, s, stopped, n);
    DonePlan(env, s, t);
    PlannedSize(Backfilled(env, s), t);
    PlannedSize(Backfilled(env, stopped), t);
    if CommitPlan(env, stopped, t).Done? {
      DonePlan(env, stopped, t);
    }
  }

  lemma PlannedFirst(p: Project, t: PlanTicket, n: int)
    requires TicketShape(t) && n in NumsOf(p.episodes)
    ensures FirstOf(PlannedLedger(p, t).episodes, n) == FirstOf(p.episodes, n)
  {
    hide Arrange, NextNum;
    var rows := PlanRows(t.drafts, t.ends, NextNum(p.episodes), t.rel, t.start, t.start);
    ArrangeKeepsFirst(p.episodes + rows, n);
    FirstOfConcat(p.episodes, rows, n);
    FirstIsAMember(p.episodes, n);
  }

  /** Ledgers that a plan extends to the same one had the same first rows, as long as they had the same numbers. */
  lemma PlanTellsFirsts(p: Project, q: Project, t: PlanTicket)
    requires TicketShape(t) && PlannedLedger(p, t) == PlannedLedger(q, t)
    requires NumsOf(p.episodes) == NumsOf(q.episodes)
    ensures forall n :: FirstRange(p.episodes, n) == FirstRange(q.episodes, n)
  {
    hide PlannedLedger, NumsOf;
    forall n ensures FirstOf(p.episodes, n) == FirstOf(q.episodes, n) {
      if n in NumsOf(p.episodes) {
        PlannedFirst(p, t, n);
        PlannedFirst(q, t, n);
      } else {
        NoFirst(p.episodes, n);
        NoFirst(q.episodes, n);
      }
    }
  }

  lemma NoFirst(eps: seq<Entry>, n: int)
    requires n !in NumsOf(eps)
    ensures FirstOf(eps, n).None?
  {
    FirstIsAMember(eps, n);
  }

  lemma RerunPlanLooksSame(env: Env, s: Store, t: PlanTicket, c: Crash)
    requires DistinctDocs(env.docs) && TicketShape(t) && CommitPlan(env, s, t).Done?
    requires CrashOf(c, PlanWritten(env, s, t))
    requires CommitPlan(env, PlanStopped(env, s, t, c), t) == CommitPlan(env, s, t)
    ensures LooksSame(s.project, DiskOf(env, s), DiskOf(env, PlanStopped(env, s, t, c)))
  {
    hide Backfill, PlannedLedger, PlanWritten, AfterCrash, CommitPlan, NumsOf, Discovered, CrashOf, LooksSame,
         FirstRange;
    var stopped := PlanStopped(env, s, t, c);
    CrashKeepsLedger(s, PlanWritten(env, s, t), NumsOf(PlannedLedger(Backfilled(env, s), t).episodes), c);
    StoppedPlanKeepsFiles(env, s, t, c);
    NumbersSeen(s.project, DiskOf(env, s));
    NumbersSeen(s.project, DiskOf(env, stopped));
    forall n | n in Discovered(stopped.files) ensures n in NumsOf(Backfilled(env, s).episodes) {
      if n !in NumsOf(Backfilled(env, s).episodes) {
        MoreRowsMoreLedger(env, s, t, c, n);
      }
    }
    DonePlan(env, s, t);
    DonePlan(env, stopped, t);
    PlanTellsFirsts(Backfilled(env, stopped), Backfilled(env, s), t);
    SeenExactly(s.project, DiskOf(env, s), DiskOf(env, stopped));
  }

  lemma SameLookingPlanIsWriting(env: Env, s: Store, t: PlanTicket, c: Crash)
    requires TicketShape(t) && CommitPlan(env, s, t).Done? && CrashOf(c, PlanWritten(env, s, t))
    ensures LooksSame(s.project, DiskOf(env, s), DiskOf(env, PlanStopped(env, s, t, c))) ==> c.Writing?
  {
    hide Backfill, PlannedLedger, PlanWritten, AfterCrash, CommitPlan, NumsOf, Discovered, PendingIn;
    if c.Clearing? {
      var n := WrittenPlanHasNewFile(env, s, t, c);
      NumbersSeen(s.project, DiskOf(env, s));
      assert n in Discovered(PlanStopped(env, s, t, c).files) - NumsOf(s.project.episodes);
    }
  }

  /** A plan commit that stops half way, from any store, and is run again comes to the same end if and only if backfill
      cannot tell the files from those before: no file for a new row has been written, and the file of every row that
      backfill still had to settle holds its old text, or no source held the old one or holds the new one. Then the
      next call sees the ledger it would have seen. */
  lemma InterruptedPlanHeals(env: Env, s: Store, t: PlanTicket, c: Crash)
    requires DistinctDocs(env.docs) && TicketShape(t) && CommitPlan(env, s, t).Done?
    requires CrashOf(c, PlanWritten(env, s, t))
    ensures var stopped := PlanStopped(env, s, t, c);
            && (CommitPlan(env, stopped, t) == CommitPlan(env, s, t)
                <==> LooksSame(s.project, DiskOf(env, s), DiskOf(env, stopped)))
            && (LooksSame(s.project, DiskOf(env, s), DiskOf(env, stopped)) ==>
                  Backfilled(env, stopped) == Backfilled(env, s))
  {
    hide AfterCrash, Backfill, PlannedLedger, EffectiveStart, PlanExhausts, CollectWrites, ApplyWrites, WithoutResidue,
      NumsOf, CrashOf, LooksSame;
    var p' := PlannedLedger(Backfilled(env, s), t);
    var stopped := PlanStopped(env, s, t, c);
    CrashKeepsLedger(s, PlanWritten(env, s, t), NumsOf(p'.episodes), c);
    SameLookingPlanIsWriting(env, s, t, c);
    if LooksSame(s.project, DiskOf(env, s), DiskOf(env, stopped)) {
      SameRowsSeen(s.project, DiskOf(env, s), DiskOf(env, stopped));
      SameInstall(env, map[t.rel := t.text], s, stopped, p', PlanExhausts(env, t), c);
    }
    if CommitPlan(env, stopped, t) == CommitPlan(env, s, t) {
      RerunPlanLooksSame(env, s, t, c);
    }
  }

  // ---------- running a replan commit again ----------

  /** What a replan commit writes, in order. */
  function ReplanWritten(env: Env, s: Store, t: ReplanTicket): seq<(int, string)> {
    var w := CollectWrites(env, t.texts, NewLedger(env, s, t).episodes);
    if w.Ok? then w.value else []
  }

  function NewLedger(env: Env, s: Store, t: ReplanTicket): Project {
    ReplannedLedger(Backfilled(env, s), Affected(Backfilled(env, s).episodes, t.from), t)
  }

  /** The store a replan commit leaves behind when it stops at `c`. */
  function ReplanStopped(env: Env, s: Store, t: ReplanTicket, c: Crash): Store
    requires CrashOf(c, ReplanWritten(env, s, t))
  {
    AfterCrash(s, ReplanWritten(env, s, t), NumsOf(NewLedger(env, s, t).episodes), c)
  }

  /** Whether the planning cursor survives the loss of the remainder file: it was saved, the file is still there, or
      the cursor that backfill derives is the end of the ledger anyway. */
  ghost predicate CursorStays(env: Env, s: Store, t: Store) {
    || s.project.cursor.Some?
    || t.remaining == s.remaining
    || Backfilled(env, s).cursor == LastAnchored(Backfilled(env, s).episodes, None, None)
  }

  lemma DoneReplan(env: Env, s: Store, t: ReplanTicket)
    requires CommitReplan(env, s, t).Done?
    ensures var p := Backfilled(env, s);
            var affected := Affected(p.episodes, t.from);
            && CommitReplan(env, s, t).store.project == NewLedger(env, s, t)
            && CommitReplan(env, s, t) == Install(env, t.texts, s, NewLedger(env, s, t), false)
            && RangesOf(affected) == RangesOf(t.affected)
            && |affected| > 0 && MergeRows([], affected).Ok?
  {
    hide Backfill, ReplannedLedger, Affected, MergeRows, RangesOf, CollectWrites;
  }

  lemma {:induction false} ReplanNumbers(affected: seq<Entry>, planned: seq<PlannedEpisode>, from: int, n: int)
    requires n in NumsOf(ReplanRows(affected, planned, from))
    ensures n >= from
  {
    var rows := ReplanRows(affected, planned, from);
    if |planned| > 0 {
      var e :| e in rows && e.num == Some(n);
      if e != rows[0] {
        assert e in rows[1..] && rows[1..] == ReplanRows(affected, planned[1..], from + 1);
        ReplanNumbers(affected, planned[1..], from + 1, n);
      }
    }
  }

  lemma ReplanRowsAreLater(affected: seq<Entry>, planned: seq<PlannedEpisode>, from: int, n: int)
    requires n < from
    ensures FirstOf(ReplanRows(affected, planned, from), n).None?
  {
    hide ReplanRows;
    FirstIsAMember(ReplanRows(affected, planned, from), n);
    if n in NumsOf(ReplanRows(affected, planned, from)) {
      ReplanNumbers(affected, planned, from, n);
    }
  }

  /** A replan keeps the first rows below its number. */
  lemma KeptFirst(p: Project, t: ReplanTicket, n: int)
    requires n < t.from
    ensures FirstOf(ReplannedLedger(p, Affected(p.episodes, t.from), t).episodes, n) == FirstOf(p.episodes, n)
  {
    hide Arrange, ReplanRows, Unaffected, Affected;
    var affected := Affected(p.episodes, t.from);
    var kept, rows := Unaffected(p.episodes, NumsOf(affected)), ReplanRows(affected, t.planned, t.from);
    ArrangeKeepsFirst(kept + rows, n);
    FirstOfConcat(kept, rows, n);
    FirstOfUnaffected(p.episodes, NumsOf(affected), n);
    ReplanRowsAreLater(affected, t.planned, t.from, n);
    forall e | e in affected ensures e.num != Some(n) {
      AffectedIsTheTail(p.episodes, t.from, e);
    }
  }

  lemma {:induction false} FromNumFirst(eps: seq<Entry>, from: int, n: int)
    requires n >= from
    ensures FirstOf(FromNum(eps, from), n) == FirstOf(eps, n)
  {
    if |eps| > 0 {
      FromNumFirst(eps[1..], from, n);
      if eps[0].num.Some? && eps[0].num.value >= from {
        assert FromNum(eps, from)[1..] == FromNum(eps[1..], from);
      }
    }
  }

  lemma TailFirst(eps: seq<Entry>, from: int, n: int)
    requires n >= from
    ensures FirstOf(Affected(eps, from), n) == FirstOf(eps, n)
  {
    FromNumFirst(eps, from, n);
    SortKeepsFirst(FromNum(eps, from), n);
  }

  lemma {:induction false} RangesTellFirsts(a: seq<Entry>, b: seq<Entry>, n: int)
    requires RangesOf(a) == RangesOf(b)
    ensures FirstRange(a, n) == FirstRange(b, n)
    decreases |a|
  {
    assert |RangesOf(a)| == |RangesOf(b)|;
    if |a| > 0 {
      assert RangesOf(a)[0] == RangesOf(b)[0];
      forall i | 0 <= i < |a| - 1 ensures RangesOf(a[1..])[i] == RangesOf(b[1..])[i] {
        assert RangesOf(a)[i + 1] == RangesOf(b)[i + 1];
      }
      assert RangesOf(a[1..]) == RangesOf(b[1..]);
      RangesTellFirsts(a[1..], b[1..], n);
    }
  }

  lemma RerunReplanFirsts(env: Env, s: Store, v: Store, t: ReplanTicket, n: int)
    requires CommitReplan(env, s, t).Done? && CommitReplan(env, v, t) == CommitReplan(env, s, t)
    ensures FirstRange(Backfilled(env, v).episodes, n) == FirstRange(Backfilled(env, s).episodes, n)
  {
    hide Backfill, ReplannedLedger, Affected, CommitReplan, RangesOf;
    DoneReplan(env, s, t);
    DoneReplan(env, v, t);
    var p, q := Backfilled(env, s), Backfilled(env, v);
    if n < t.from {
      KeptFirst(p, t, n);
      KeptFirst(q, t, n);
    } else {
      TailFirst(p.episodes, t.from, n);
      TailFirst(q.episodes, t.from, n);
      RangesTellFirsts(Affected(q.episodes, t.from), Affected(p.episodes, t.from), n);
    }
  }

  // ---------- the cursor without a remainder ----------

  lemma {:induction false} WalkEndsAtLast(disk: Disk, keys: seq<int>, w: Walk)
    requires WalkOk(disk, w) && |keys| > 0 && IndexOf(w.episodes, keys[|keys| - 1]) < |w.episodes|
    ensures var w', i := VisitAll(disk, keys, w), IndexOf(w.episodes, keys[|keys| - 1]);
            w'.episodes[i].range.Some? ==>
              w'.lastEnd == Some(Cursor(w'.episodes[i].range.value.rel, w'.episodes[i].range.value.end))
    decreases |keys|
  {
    hide FindInSources, FileText;
    if |keys| > 1 {
      hide Visit, Settles;
      VisitSettlesOneRow(disk, keys[0], w);
      IndexDependsOnNums(w.episodes, Visit(disk, keys[0], w).episodes, keys[|keys| - 1]);
      WalkEndsAtLast(disk, keys[1..], Visit(disk, keys[0], w));
    } else {
      assert VisitAll(disk, keys, w) == VisitAll(disk, keys[1..], Visit(disk, keys[0], w));
    }
  }

  lemma {:induction false} LedgerEndsAtHighest(eps: seq<Entry>, best: Option<int>, last: Option<Cursor>, n: int)
    requires FirstOf(eps, n).Some? && FirstOf(eps, n).value.range.Some? && (best.Some? ==> best.value < n)
    requires forall i :: 0 <= i < |eps| && eps[i].num.Some? ==> eps[i].num.value <= n
    ensures var r := FirstOf(eps, n).value.range.value; LastAnchored(eps, best, last) == Some(Cursor(r.rel, r.end))
    decreases |eps|
  {
    var e := eps[0];
    if e.num == Some(n) {
      NothingHigher(eps[1..], n, Some(Cursor(e.range.value.rel, e.range.value.end)));
    } else if e.num.Some? && e.range.Some? && (best.None? || e.num.value > best.value) {
      LedgerEndsAtHighest(eps[1..], e.num, Some(Cursor(e.range.value.rel, e.range.value.end)), n);
    } else {
      LedgerEndsAtHighest(eps[1..], best, last, n);
    }
  }

  lemma {:induction false} NothingHigher(eps: seq<Entry>, n: int, last: Option<Cursor>)
    requires forall i :: 0 <= i < |eps| && eps[i].num.Some? ==> eps[i].num.value <= n
    ensures LastAnchored(eps, Some(n), last) == last
  {
    if |eps| > 0 {
      NothingHigher(eps[1..], n, last);
    }
  }

  lemma BackfillWalks(p: Project, disk: Disk)
    requires p.cursor.None? && disk.remaining.None?
    ensures var rows := WithOrphans(p.episodes, disk.files);
            var w := VisitAll(disk, Ascending(NumsOf(rows)), FreshWalk(disk, rows));
            FreshWalk(disk, rows).episodes == rows && Backfill(p, disk) == Project(w.episodes, w.lastEnd)
  {
    hide VisitAll, WithOrphans;
  }

  /** Without a saved cursor and a remainder, backfill puts the cursor at the end of the ledger, if the first row of the
      highest number has a range. */
  lemma CursorAtEnd(p: Project, disk: Disk, n: int)
    requires p.cursor.None? && disk.remaining.None?
    requires var r := Backfill(p, disk).episodes;
             && FirstOf(r, n).Some? && FirstOf(r, n).value.range.Some?
             && forall k :: k in NumsOf(r) ==> k <= n
    ensures Backfill(p, disk).cursor == LastAnchored(Backfill(p, disk).episodes, None, None)
  {
    hide Backfill, VisitAll, WithOrphans, LastAnchored, NumsOf, FreshWalk;
    var rows, r := WithOrphans(p.episodes, disk.files), Backfill(p, disk).episodes;
    var keys := Ascending(NumsOf(rows));
    BackfillWalks(p, disk);
    BackfillIsSound(p, disk);
    NumsDependOnNums(rows, r);
    FirstIsAtIndex(r, n);
    MemberIsIndexed(r, n);
    IndexDependsOnNums(rows, r, n);
    LastOfAscending(NumsOf(rows), n);
    WalkEndsAtLast(disk, keys, FreshWalk(disk, rows));
    NumbersAre(r);
    LedgerEndsAtHighest(r, None, None, n);
  }

  lemma LastOfAscending(s: set<int>, n: int)
    requires n in s && forall k :: k in s ==> k <= n
    ensures |Ascending(s)| > 0 && Ascending(s)[|Ascending(s)| - 1] == n
  {
    var r := Ascending(s);
    assert n in r;
    var i :| 0 <= i < |r| && r[i] == n;
    assert r[|r| - 1] in s;
  }

  lemma NumbersAre(eps: seq<Entry>)
    ensures forall i :: 0 <= i < |eps| && eps[i].num.Some? ==> eps[i].num.value in NumsOf(eps)
  {
    forall i | 0 <= i < |eps| && eps[i].num.Some? ensures eps[i].num.value in NumsOf(eps) {
      assert eps[i] in eps;
    }
  }

  /** A replan that commits has found a range in the highest-numbered row. */
  lemma HighestIsAffected(eps: seq<Entry>, from: int) returns (n: int)
    requires |Affected(eps, from)| > 0 && MergeRows([], Affected(eps, from)).Ok?
    ensures FirstOf(eps, n).Some? && FirstOf(eps, n).value.range.Some? && forall k :: k in NumsOf(eps) ==> k <= n
  {
    hide Affected, MergeRows, NumsOf;
    var tail := Affected(eps, from);
    MergedRowsHaveRanges([], tail);
    AffectedIsTheTail(eps, from, tail[0]);
    NumbersInTail(eps, tail[0]);
    n := Highest(NumsOf(eps), tail[0].num.value);
    MemberHasFirst(eps, n);
    TailFirst(eps, from, n);
    FirstIsAMember(tail, n);
    var first := FirstOf(tail, n).value;
    var i :| 0 <= i < |tail| && tail[i] == first;
  }

  lemma NumbersInTail(eps: seq<Entry>, e: Entry)
    requires e in eps && e.num.Some?
    ensures e.num.value in NumsOf(eps)
  {
  }

  lemma MemberHasFirst(eps: seq<Entry>, n: int)
    requires n in NumsOf(eps)
    ensures FirstOf(eps, n).Some?
  {
    FirstIsAMember(eps, n);
  }

  lemma Highest(s: set<int>, k: int) returns (n: int)
    requires k in s
    ensures n in s && n >= k && forall x :: x in s ==> x <= n
  {
    var r := Ascending(s);
    assert k in r;
    n := r[|r| - 1];
    forall x | x in s ensures x <= n {
      assert x in r;
    }
  }

  lemma RemainderlessCursor(env: Env, s: Store, v: Store, t: ReplanTicket)
    requires CommitReplan(env, s, t).Done? && v.project == s.project
    requires s.project.cursor.None? && v.remaining.None?
    requires Backfilled(env, v).episodes == Backfilled(env, s).episodes
    ensures Backfilled(env, v).cursor == LastAnchored(Backfilled(env, s).episodes, None, None)
  {
    hide Backfill, CommitReplan, Affected, MergeRows, LastAnchored, NumsOf;
    DoneReplan(env, s, t);
    var n := HighestIsAffected(Backfilled(env, s).episodes, t.from);
    CursorAtEnd(v.project, DiskOf(env, v), n);
  }

  lemma SameCursor(env: Env, s: Store, v: Store, t: ReplanTicket)
    requires CommitReplan(env, s, t).Done? && v.project == s.project
    requires v.remaining == s.remaining || v.remaining == None
    requires LooksSame(s.project, DiskOf(env, s), DiskOf(env, v))
    ensures Backfilled(env, v) == Backfilled(env, s) <==> CursorStays(env, s, v)
  {
    hide Backfill, CommitReplan, LastAnchored, LooksSame;
    SameRowsSeen(s.project, DiskOf(env, s), DiskOf(env, v));
    if s.project.cursor.None? && v.remaining != s.remaining {
      RemainderlessCursor(env, s, v, t);
    }
  }

  /** A replan commit that stops half way, from any store, and is run again comes to the same end if and only if
      backfill cannot tell the files from those before, and the cursor survives the loss of the remainder. Then the next
      call sees the ledger it would have seen. */
  lemma InterruptedReplanHeals(env: Env, s: Store, t: ReplanTicket, c: Crash)
    requires DistinctDocs(env.docs) && CommitReplan(env, s, t).Done?
    requires CrashOf(c, ReplanWritten(env, s, t))
    ensures var stopped := ReplanStopped(env, s, t, c);
            var same := LooksSame(s.project, DiskOf(env, s), DiskOf(env, stopped)) && CursorStays(env, s, stopped);
            && (CommitReplan(env, stopped, t) == CommitReplan(env, s, t) <==> same)
            && (same ==> Backfilled(env, stopped) == Backfilled(env, s))
  {
    hide AfterCrash, Backfill, NewLedger, CollectWrites, ApplyWrites, WithoutResidue, NumsOf, CrashOf, LooksSame,
      CursorStays, CommitReplan, FirstRange;
    var stopped := ReplanStopped(env, s, t, c);
    var a, b := DiskOf(env, s), DiskOf(env, stopped);
    CrashKeepsLedger(s, ReplanWritten(env, s, t), NumsOf(NewLedger(env, s, t).episodes), c);
    DoneReplan(env, s, t);
    if LooksSame(s.project, a, b) {
      SameCursor(env, s, stopped, t);
      if Backfilled(env, stopped) == Backfilled(env, s) {
        RerunReplan(env, s, t, c);
      }
    }
    if CommitReplan(env, stopped, t) == CommitReplan(env, s, t) {
      forall n ensures FirstRange(Backfilled(env, stopped).episodes, n) == FirstRange(Backfilled(env, s).episodes, n) {
        RerunReplanFirsts(env, s, stopped, t, n);
      }
      SeenExactly(s.project, a, b);
      SameRowsSeen(s.project, a, b);
      DoneReplan(env, stopped, t);
      ReplanKeepsCursor(env, s, t);
      ReplanKeepsCursor(env, stopped, t);
    }
  }

  lemma ReplanKeepsCursor(env: Env, s: Store, t: ReplanTicket)
    ensures NewLedger(env, s, t).cursor == Backfilled(env, s).cursor
  {
    hide Backfill;
  }

  lemma RerunReplan(env: Env, s: Store, t: ReplanTicket, c: Crash)
    requires CommitReplan(env, s, t).Done? && CrashOf(c, ReplanWritten(env, s, t))
    requires Backfilled(env, ReplanStopped(env, s, t, c)) == Backfilled(env, s)
    ensures CommitReplan(env, ReplanStopped(env, s, t, c), t) == CommitReplan(env, s, t)
  {
    hide AfterCrash, Backfill, ReplannedLedger, Affected, CollectWrites, ApplyWrites, WithoutResidue, NumsOf, CrashOf,
      MergeRows, RangesOf;
    DoneReplan(env, s, t);
    SameInstall(env, t.texts, s, ReplanStopped(env, s, t, c), NewLedger(env, s, t), false, c);
  }

  // ---------- once a commit has gone through ----------

  /** A ledger that backfill has nothing left to do for, as every commit leaves it. */
  ghost predicate Settled(env: Env, s: Store) {
    Backfilled(env, s) == s.project
  }

  lemma SettledHasRows(env: Env, s: Store)
    requires Settled(env, s)
    ensures Discovered(s.files) <= NumsOf(s.project.episodes)
    ensures NothingPending(s.project.episodes)
    ensures Arrange(s.project.episodes) == s.project.episodes
  {
    hide Backfill, WithOrphans, NothingPending;
    var disk, eps := DiskOf(env, s), s.project.episodes;
    BackfillIsSound(s.project, disk);
    WithOrphansKeepsRows(eps, s.files);
    NumsDependOnNums(WithOrphans(eps, s.files), eps);
    SettledLeavesNothingPending(s.project, disk);
    OrphansAreAdoptedOnce(s.project, disk);
    NoOrphans(eps, s.files);
  }

  lemma NoOrphans(eps: seq<Entry>, files: map<int, string>)
    requires Discovered(files) <= NumsOf(eps)
    ensures WithOrphans(eps, files) == Arrange(eps)
  {
    var none := Discovered(files) - NumsOf(eps);
    assert none == {};
    assert eps + OrphanEntries(Ascending(none)) == eps;
  }

  lemma NothingLeft(a: set<int>, b: set<int>)
    ensures a - b == {} <==> a <= b
  {
    if a - b == {} {
      forall n | n in a ensures n in b {
        assert n !in a - b;
      }
    }
  }

  /** From a settled store, as every commit leaves it, all that backfill can tell is a file for a new row. */
  lemma SettledLooksSame(env: Env, s: Store, t: Store)
    requires Settled(env, s) && t.project == s.project
    ensures LooksSame(s.project, DiskOf(env, s), DiskOf(env, t)) <==> Discovered(t.files) <= NumsOf(s.project.episodes)
  {
    hide Backfill, Arrange, NothingPending, Discovered, NumsOf, SameText, FileText;
    var eps := s.project.episodes;
    SettledHasRows(env, s);
    NoOrphans(eps, s.files);
    FirstsAndPending(eps);
    NothingLeft(Discovered(s.files), NumsOf(eps));
    NothingLeft(Discovered(t.files), NumsOf(eps));
  }

  lemma ReplanFindsCursor(env: Env, s: Store, t: ReplanTicket)
    requires CommitReplan(env, s, t).Done?
    ensures Backfilled(env, s).cursor.Some?
  {
    hide Backfill, CommitReplan, Affected, MergeRows;
    DoneReplan(env, s, t);
    var n := HighestIsAffected(Backfilled(env, s).episodes, t.from);
    if Backfilled(env, s).cursor.None? {
      NoCursorMeansNoRanges(s.project, DiskOf(env, s));
    }
  }

  /** From a settled store a half-done plan comes to the same end exactly when it had written no file for a new row. */
  lemma SettledPlanHeals(env: Env, s: Store, t: PlanTicket, c: Crash)
    requires DistinctDocs(env.docs) && Settled(env, s) && TicketShape(t) && CommitPlan(env, s, t).Done?
    requires CrashOf(c, PlanWritten(env, s, t))
    ensures CommitPlan(env, PlanStopped(env, s, t, c), t) == CommitPlan(env, s, t) <==>
              Discovered(PlanStopped(env, s, t, c).files) <= NumsOf(s.project.episodes)
  {
    hide AfterCrash, Backfill, PlannedLedger, PlanWritten, CommitPlan, CrashOf, LooksSame, NumsOf, Discovered;
    InterruptedPlanHeals(env, s, t, c);
    CrashKeepsLedger(s, PlanWritten(env, s, t), NumsOf(PlannedLedger(Backfilled(env, s), t).episodes), c);
    SettledLooksSame(env, s, PlanStopped(env, s, t, c));
  }

  /** The same for a replan. */
  lemma SettledReplanHeals(env: Env, s: Store, t: ReplanTicket, c: Crash)
    requires DistinctDocs(env.docs) && Settled(env, s) && CommitReplan(env, s, t).Done?
    requires CrashOf(c, ReplanWritten(env, s, t))
    ensures CommitReplan(env, ReplanStopped(env, s, t, c), t) == CommitReplan(env, s, t) <==>
              Discovered(ReplanStopped(env, s, t, c).files) <= NumsOf(s.project.episodes)
  {
    hide AfterCrash, Backfill, NewLedger, ReplanWritten, CommitReplan, CrashOf, LooksSame, NumsOf, Discovered;
    InterruptedReplanHeals(env, s, t, c);
    CrashKeepsLedger(s, ReplanWritten(env, s, t), NumsOf(NewLedger(env, s, t).episodes), c);
    SettledLooksSame(env, s, ReplanStopped(env, s, t, c));
    ReplanFindsCursor(env, s, t);
  }
}
