/** What the two commits put into the ledger, field by field, and when they go through. */
module CommitMeans {
  import opened Options
  import opened SourceText
  import opened EpisodeLedger
  import opened BackfillLaws
  import opened BackfillSees
  import opened BackfillMeans
  import opened Planner
  import opened CommitLaws
  import opened CommitCrashes
  import opened ReplanLaws
  import opened PlannerForm
  import opened PlannerSteps
  import opened PlannerRuns
  import opened PlannerStale

  // ---------- plan ----------

  /** Rows numbered one after the other. */
  ghost predicate Consecutive(rows: seq<Entry>, from: int) {
    forall i :: 0 <= i < |rows| ==> rows[i].num == Some(from + i)
  }

  lemma {:induction false} FirstInRun(rows: seq<Entry>, from: int, n: int)
    requires Consecutive(rows, from)
    ensures FirstOf(rows, n) == if from <= n < from + |rows| then Some(rows[n - from]) else None
    decreases |rows|
  {
    if |rows| > 0 {
      forall i | 0 <= i < |rows[1..]| ensures rows[1..][i].num == Some(from + 1 + i) {
        assert rows[1..][i] == rows[i + 1];
      }
      FirstInRun(rows[1..], from + 1, n);
    }
  }

  lemma {:induction false} PlanRowIs(drafts: seq<Draft>, ends: seq<nat>, num: int, rel: string, start: int, prev: int,
                                     i: nat)
    requires |drafts| == |ends| && i < |drafts|
    ensures PlanRows(drafts, ends, num, rel, start, prev)[i] ==
              Entry(Some(num + i), drafts[i].title, drafts[i].hook, EpisodeScript(num + i),
                    Some(SourceRange(rel, if i == 0 then prev else start + ends[i - 1], start + ends[i])),
                    Some(Planned))
  {
    if i > 0 {
      PlanRowIs(drafts[1..], ends[1..], num + 1, rel, start, start + ends[0], i - 1);
    }
  }

  /** Episode `i` of a plan, as its row. */
  function PlannedRow(t: PlanTicket, num: int, i: nat): Entry
    requires TicketShape(t) && i < |t.drafts|
  {
    Entry(Some(num + i), t.drafts[i].title, t.drafts[i].hook, EpisodeScript(num + i),
          Some(SourceRange(t.rel, if i == 0 then t.start else t.start + t.ends[i - 1], t.start + t.ends[i])),
          Some(Planned))
  }

  lemma PlanRowsAre(t: PlanTicket, m: int)
    requires TicketShape(t)
    ensures var rows := PlanRows(t.drafts, t.ends, m, t.rel, t.start, t.start);
            && |rows| == |t.drafts| && Consecutive(rows, m)
            && forall i :: 0 <= i < |rows| ==> rows[i] == PlannedRow(t, m, i)
  {
    var rows := PlanRows(t.drafts, t.ends, m, t.rel, t.start, t.start);
    hide PlanRows;
    forall i | 0 <= i < |rows| ensures rows[i] == PlannedRow(t, m, i) {
      PlanRowIs(t.drafts, t.ends, m, t.rel, t.start, t.start, i);
    }
  }

  lemma PlannedFirsts(p: Project, t: PlanTicket, n: int)
    requires TicketShape(t)
    ensures var m := NextNum(p.episodes);
            FirstOf(PlannedLedger(p, t).episodes, n) ==
              if FirstOf(p.episodes, n).Some? then FirstOf(p.episodes, n)
              else if m <= n < m + |t.drafts| then Some(PlannedRow(t, m, n - m)) else None
  {
    hide Arrange, NextNum, PlanRows, FirstOf, PlannedRow, Consecutive;
    var m := NextNum(p.episodes);
    var rows := PlanRows(t.drafts, t.ends, m, t.rel, t.start, t.start);
    PlanRowsAre(t, m);
    FirstInRun(rows, m, n);
    ArrangeKeepsFirst(p.episodes + rows, n);
    FirstOfConcat(p.episodes, rows, n);
  }

  /** A plan commit keeps every row, and adds one per draft, with the numbers behind the highest: its title and hook,
      the canonical script, its stretch of the source, planned. The cursor moves behind the last. */
  lemma PlanCommitMeans(env: Env, s: Store, t: PlanTicket, n: int)
    requires TicketShape(t) && CommitPlan(env, s, t).Done?
    ensures var p, q := Backfilled(env, s), CommitPlan(env, s, t).store.project;
            var m := NextNum(p.episodes);
            && q.cursor == Some(Cursor(t.rel, t.start + t.ends[|t.ends| - 1]))
            && (n in NumsOf(p.episodes) ==> n < m && FirstOf(q.episodes, n) == FirstOf(p.episodes, n))
            && (m <= n < m + |t.drafts| ==> FirstOf(q.episodes, n) == Some(PlannedRow(t, m, n - m)))
            && (n in NumsOf(q.episodes) <==> n in NumsOf(p.episodes) || m <= n < m + |t.drafts|)
  {
    hide Backfill, CommitPlan, NumsOf, NextNum, Arrange;
    DonePlan(env, s, t);
    var p := Backfilled(env, s);
    PlannedFirsts(p, t, n);
    FirstAndNumber(p.episodes, n);
    FirstAndNumber(PlannedLedger(p, t).episodes, n);
    NumbersBelowNext(p.episodes, n);
  }

  lemma NumbersBelowNext(eps: seq<Entry>, n: int)
    ensures n in NumsOf(eps) ==> n < NextNum(eps)
  {
    hide NextNum;
    if n in NumsOf(eps) {
      var e :| e in eps && e.num == Some(n);
      var i :| 0 <= i < |eps| && eps[i] == e;
    }
  }

  /** What a plan read carries to its commit: the start it read, and the drafts of a window that begins at the first
      text behind it. The window counts as final exactly if the text model has seen all that is left of the file. */
  lemma {:induction false} PlanReadMeans(env: Env, s: Store, size: nat, cut: Cut)
    requires StoreForm(env, s) && PlanTicketOf(AimOf(env, s), size, cut).Some?
    ensures var t := PlanTicketOf(AimOf(env, s), size, cut).value;
            && EffectiveStart(Backfilled(env, s), env.docs) == Some(t.startRef)
            && 0 <= t.start <= |t.text| && !Blank(t.text[t.start..])
            && BlankBetween(env.docs, EffPos(env.docs, Backfilled(env, s)), Pos(env.docs, t.rel, t.start))
            && t.drafts == cut.drafts && t.ends == cut.ends && t.ends[|t.ends| - 1] <= size
            && (t.windowIsFinal <==> Slice(t.text, t.start, t.start + size) == t.text[t.start..])
  {
    hide Backfilled, Blank, BlankBetween, EffectiveStart, LedgerForm, AimOf, PlanTicketOf;
    var aim := AimOf(env, s);
    TicketOfAim(aim, size, cut);
    AimFindsWindow(env, s);
    StartOfAim(env, s);
    WindowShown(aim.text, aim.start, size);
  }

  lemma TicketOfAim(aim: Aim, size: nat, cut: Cut)
    requires PlanTicketOf(aim, size, cut).Some?
    ensures aim.Window?
    ensures var t := PlanTicketOf(aim, size, cut).value;
            && t.startRef == aim.startRef && t.rel == aim.rel && t.start == aim.start && t.text == aim.text
            && t.drafts == cut.drafts && t.ends == cut.ends
            && (t.windowIsFinal <==> aim.start + size >= |aim.text|)
            && |t.ends| > 0 && t.ends[|t.ends| - 1] <= |Slice(aim.text, aim.start, aim.start + size)|
  {
    hide Slice;
  }

  lemma WindowShown(text: string, start: int, size: nat)
    requires 0 <= start <= |text|
    ensures |Slice(text, start, start + size)| <= size
    ensures start + size >= |text| <==> Slice(text, start, start + size) == text[start..]
  {
    assert start + size < |text| ==> |text[start..start + size]| == size;
  }

  /** The flag a plan commit reports: nothing but blank text is left behind its last episode in any source, the text
      model has seen the window up to the end of its file, and no file follows. */
  lemma {:induction false} ReportedExhaustionIsExact(env: Env, s: Store, t: PlanTicket)
    requires StoreForm(env, s) && PlanPrepared(env, t) && CommitPlan(env, s, t).Done?
    ensures CommitPlan(env, s, t).exhausted <==>
              && BlankBetween(env.docs, Front(env, CommitPlan(env, s, t).store), Total(env.docs))
              && t.windowIsFinal && DocIndex(env.docs, t.rel) + 1 == |env.docs|
  {
    hide Backfilled, CommitPlan, BlankBetween, Blank, Front;
    PlanCommitChecks(env, s, t);
    FrontOfPlanned(env, s, t);
    var d, end := DocIndex(env.docs, t.rel), t.start + t.ends[|t.ends| - 1];
    assert Slice(t.text, end, |t.text|) == t.text[end..];
    if PlanExhausts(env, t) {
      LastDocTailIsBlank(env, t);
    } else if !Blank(t.text[end..]) {
      TextLeftShows(env.docs, d, end, Pos(env.docs, t.rel, end));
    }
  }

  /** So after a commit that leaves nothing the next plan call says so, whatever the flag said. */
  lemma {:induction false} NextCallKnows(env: Env, s: Store, t: PlanTicket)
    requires StoreForm(env, s) && PlanPrepared(env, t) && CommitPlan(env, s, t).Done?
    ensures var s' := CommitPlan(env, s, t).store;
            AimOf(env, s').Exhausted? <==> BlankBetween(env.docs, Front(env, s'), Total(env.docs))
  {
    hide Backfilled, CommitPlan, BlankBetween, AimOf, LedgerForm, EffPos;
    FrontAfterPlan(env, s, t);
    AimFindsWindow(env, CommitPlan(env, s, t).store);
  }

  // ---------- replan ----------

  /** The last row of a number. */
  ghost predicate LastWith(rows: seq<Entry>, n: int, j: int) {
    0 <= j < |rows| && rows[j].num == Some(n) && forall k :: j < k < |rows| ==> rows[k].num != Some(n)
  }

  /** It had been produced, or had been produced for an older layout. */
  ghost predicate WasProduced(e: Entry) {
    e.status == Some(Consumed) || e.status == Some(Stale)
  }

  lemma OneMoreRow(rows: seq<Entry>, n: int, k: nat, j: int)
    requires |rows| == k + 1 && rows[k].num != Some(n) && LastWith(rows[..k], n, j)
    ensures LastWith(rows, n, j) && rows[..k][j] == rows[j]
  {
    assert forall i :: 0 <= i < k ==> rows[..k][i] == rows[i];
  }

  lemma {:induction false} OldRowIsLast(affected: seq<Entry>, n: int) returns (j: int)
    ensures var e := OldRow(affected, n);
            if e.Some? then LastWith(affected, n, j) && affected[j] == e.value
            else forall i :: 0 <= i < |affected| ==> affected[i].num != Some(n)
    decreases |affected|
  {
    j := -1;
    if |affected| > 0 {
      var k := |affected| - 1;
      if affected[k].num == Some(n) {
        j := k;
      } else {
        hide LastWith;
        j := OldRowIsLast(affected[..k], n);
        if OldRow(affected[..k], n).Some? {
          OneMoreRow(affected, n, k, j);
        } else {
          assert forall i :: 0 <= i < k ==> affected[..k][i] == affected[i];
        }
      }
    }
  }

  lemma OneLast(rows: seq<Entry>, n: int, i: int, j: int)
    requires LastWith(rows, n, i) && LastWith(rows, n, j)
    ensures i == j
  {
  }

  /** Episode `ep` of a new layout, as the row of number `n`: stale exactly if the last row of that number had been
      produced, planned otherwise; with that row's script, or the canonical one if it had none. */
  ghost predicate IsReplanned(before: seq<Entry>, ep: PlannedEpisode, n: int, e: Entry) {
    && e.num == Some(n) && e.title == ep.draft.title && e.hook == ep.draft.hook && e.range == Some(ep.range)
    && (e.status == Some(Stale) <==> exists j :: LastWith(before, n, j) && WasProduced(before[j]))
    && (e.status == Some(Stale) || e.status == Some(Planned))
    && (forall j :: LastWith(before, n, j) && before[j].script != NoScript ==> e.script == before[j].script)
    && ((forall j :: LastWith(before, n, j) ==> before[j].script == NoScript) ==> e.script == EpisodeScript(n))
  }

  lemma ReplanRowIs(before: seq<Entry>, ep: PlannedEpisode, n: int)
    ensures IsReplanned(before, ep, n, ReplanRow(before, ep, n))
  {
    var j := OldRowIsLast(before, n);
    if OldRow(before, n).Some? {
      forall k | LastWith(before, n, k) ensures k == j {
        OneLast(before, n, k, j);
      }
    }
  }

  lemma {:induction false} NewFirstRow(before: seq<Entry>, t: ReplanTicket, n: int)
    ensures var e := FirstOf(ReplanRows(before, t.planned, t.from), n);
            && (e.Some? <==> t.from <= n < t.from + |t.planned|)
            && (e.Some? ==> IsReplanned(before, t.planned[n - t.from], n, e.value))
  {
    hide ReplanRows, ReplanRow, IsReplanned;
    var rows := ReplanRows(before, t.planned, t.from);
    ReplanRowsRun(before, t.planned, t.from);
    FirstInRun(rows, t.from, n);
    if t.from <= n < t.from + |t.planned| {
      ReplanRowAt(before, t.planned, t.from, n - t.from);
      ReplanRowIs(before, t.planned[n - t.from], n);
    }
  }

  /** A replan commit keeps every row below its number and the cursor. From its number on there is one row per episode
      of the new layout and nothing else, each as `IsReplanned` says. */
  lemma {:induction false} ReplanCommitMeans(env: Env, s: Store, t: ReplanTicket, n: int)
    requires CommitReplan(env, s, t).Done?
    ensures var p, q := Backfilled(env, s), CommitReplan(env, s, t).store.project;
            var before, e := Affected(p.episodes, t.from), FirstOf(q.episodes, n);
            && q.cursor == p.cursor
            && (n < t.from ==> e == FirstOf(p.episodes, n))
            && (n >= t.from ==> (e.Some? <==> n < t.from + |t.planned|))
            && (n >= t.from && e.Some? ==> IsReplanned(before, t.planned[n - t.from], n, e.value))
  {
    hide Backfill, CommitReplan, Affected, ReplanRows, IsReplanned, FirstOf;
    DoneReplan(env, s, t);
    ReplanKeepsCursor(env, s, t);
    var p := Backfilled(env, s);
    LayoutReplacesRows(p, t);
    if n < t.from {
      KeptFirst(p, t, n);
    } else {
      TailFirst(NewLedger(env, s, t).episodes, t.from, n);
      NewFirstRow(Affected(p.episodes, t.from), t, n);
    }
  }

  /** In a healthy ledger: from the replan's number on, a row is stale afterwards exactly if the one of that number had
      been produced. */
  lemma {:induction false} ReplanMarksStale(env: Env, s: Store, t: ReplanTicket, n: int)
    requires StoreForm(env, s) && CommitReplan(env, s, t).Done? && n >= t.from
    requires FirstOf(CommitReplan(env, s, t).store.project.episodes, n).Some?
    ensures var was := FirstOf(Backfilled(env, s).episodes, n);
            FirstOf(CommitReplan(env, s, t).store.project.episodes, n).value.status
              == Some(if was.Some? && WasProduced(was.value) then Stale else Planned)
  {
    hide Backfill, CommitReplan, Affected, FirstOf, WasProduced, Anchored, RangesInOrder;
    ReplanCommitMeans(env, s, t, n);
    var p := Backfilled(env, s);
    var before := Affected(p.episodes, t.from);
    FromNumIsNumbered(p.episodes, t.from);
    TailFirst(p.episodes, t.from, n);
    UniqueLast(before, n);
  }

  lemma UniqueLast(rows: seq<Entry>, n: int)
    requires Numbered(rows)
    ensures FirstOf(rows, n).Some? ==> exists j :: LastWith(rows, n, j) && rows[j] == FirstOf(rows, n).value
    ensures forall j :: LastWith(rows, n, j) ==> FirstOf(rows, n) == Some(rows[j])
  {
    FirstIsAMember(rows, n);
    if FirstOf(rows, n).Some? {
      var j :| 0 <= j < |rows| && rows[j] == FirstOf(rows, n).value;
      assert LastWith(rows, n, j);
    }
    forall j | LastWith(rows, n, j) ensures FirstOf(rows, n) == Some(rows[j]) {
      assert rows[j] in rows;
      var k :| 0 <= k < |rows| && rows[k] == FirstOf(rows, n).value;
    }
  }

  // ---------- stale episodes over runs ----------

  /** The first row of number `n`, as every call sees it. */
  ghost function RowOf(env: Env, w: World, n: int): Option<Entry> {
    FirstOf(Backfilled(env, w.store).episodes, n)
  }

  lemma RowAfterCommit(env: Env, s: Store, s': Store, n: int)
    requires Backfilled(env, s') == s'.project
    ensures FirstOf(Backfilled(env, s').episodes, n) == FirstOf(s'.project.episodes, n)
  {
  }

  /** At whatever point of whatever run a replan commits: an episode of its tail that was consumed is stale afterwards,
      if its number is still used. */
  lemma {:induction false} ConsumedBecomesStale(env: Env, w: World, steps: seq<Step>, id: nat, n: int)
    requires Inv(env, w)
    requires var v := Run(env, w, steps);
             && CommitsReplan(env, v, id) && n >= v.replans[id].0.from
             && RowOf(env, v, n).Some? && RowOf(env, v, n).value.status == Some(Consumed)
    ensures var r := RowOf(env, Next(env, Run(env, w, steps), WriteReplan(id)), n);
            r.Some? ==> r.value.status == Some(Stale)
  {
    hide Backfilled, CommitReplan, FirstOf, LedgerForm, Run;
    LedgerStaysHealthy(env, w, steps);
    var v := Run(env, w, steps);
    var t := v.replans[id].0;
    ReplanCommitIsFixed(env, v.store, t);
    if FirstOf(CommitReplan(env, v.store, t).store.project.episodes, n).Some? {
      ReplanMarksStale(env, v.store, t, n);
    }
  }

  /** A stretch of a run in which number `n` is always used and its episode is not produced again. */
  ghost predicate NotProduced(env: Env, w: World, steps: seq<Step>, n: int)
    requires DistinctDocs(env.docs)
    decreases |steps|
  {
    && RowOf(env, w, n).Some?
    && (|steps| > 0 ==> steps[0] != MarkConsumed(n) && NotProduced(env, Next(env, w, steps[0]), steps[1..], n))
  }

  lemma {:induction false} ConsumeOther(eps: seq<Entry>, k: int, n: int)
    requires k != n
    ensures FirstOf(Consume(eps, k), n) == FirstOf(eps, n)
    decreases |eps|
  {
    if |eps| > 0 {
      ConsumeOther(eps[1..], k, n);
      assert Consume(eps, k)[1..] == Consume(eps[1..], k);
    }
  }

  /** A stale row is one of the saved ledger: backfill never makes one. */
  lemma StaleIsSaved(env: Env, s: Store, n: int)
    requires FirstOf(Backfilled(env, s).episodes, n).Some?
    requires FirstOf(Backfilled(env, s).episodes, n).value.status == Some(Stale)
    ensures FirstOf(s.project.episodes, n) == FirstOf(Backfilled(env, s).episodes, n)
  {
    hide Backfill, WithOrphans, InSources;
    var p, disk := s.project, DiskOf(env, s);
    RowsBefore(p.episodes, s.files, n);
    FirstAndNumber(WithOrphans(p.episodes, s.files), n);
    FirstAndNumber(Backfill(p, disk).episodes, n);
    SameNumbersSeen(p, disk);
    if PendingIn(WithOrphans(p.episodes, disk.files), n) {
      PendingRowMeans(p, disk, n);
    }
    if FirstOf(p.episodes, n).Some? && FirstOf(p.episodes, n).value.status.Some? {
      SettledRowMeans(p, disk, n);
    }
  }

  lemma SameNumbersSeen(p: Project, disk: Disk)
    ensures NumsOf(Backfill(p, disk).episodes) == NumsOf(WithOrphans(p.episodes, disk.files))
  {
    hide Backfill, WithOrphans, NumsOf;
    BackfillIsSound(p, disk);
    NumsDependOnNums(WithOrphans(p.episodes, disk.files), Backfill(p, disk).episodes);
  }

  lemma {:induction false} StaleStep(env: Env, w: World, step: Step, n: int)
    requires Inv(env, w) && RowOf(env, w, n).Some? && RowOf(env, w, n).value.status == Some(Stale)
    requires step != MarkConsumed(n) && RowOf(env, Next(env, w, step), n).Some?
    ensures RowOf(env, Next(env, w, step), n).value.status == Some(Stale)
  {
    hide Backfilled, CommitPlan, CommitReplan, FirstOf, LedgerForm, NumsOf, AimOf, PlanTicketOf, ReplanTicketOf,
         ReplanPrepared, PlanPrepared, EffectiveStart;
    match step
    case WritePlan(id) =>
      if CommitsPlan(env, w, step) {
        FirstAndNumber(Backfilled(env, w.store).episodes, n);
        PlanCommitMeans(env, w.store, w.plans[id], n);
        PlanCommitIsFixed(env, w.store, w.plans[id]);
      }
    case WriteReplan(id) =>
      if CommitsReplan(env, w, id) {
        var t := w.replans[id].0;
        ReplanCommitIsFixed(env, w.store, t);
        if n >= t.from {
          ReplanMarksStale(env, w.store, t, n);
        } else {
          ReplanCommitMeans(env, w.store, t, n);
        }
      }
    case MarkConsumed(k) =>
      StaleIsSaved(env, w.store, n);
      ConsumeOther(w.store.project.episodes, k, n);
      SettledRowMeans(WithConsumed(w.store, k).project, DiskOf(env, WithConsumed(w.store, k)), n);
      SeenThroughBackfill(env, WithConsumed(w.store, k));
    case _ =>
  }

  lemma SeenThroughBackfill(env: Env, s: Store)
    ensures Backfilled(env, s) == Backfill(s.project, DiskOf(env, s))
  {
  }

  /** And it stays so, over every run, until it is produced again or its number is given up. */
  lemma {:induction false} StaleUntilProduced(env: Env, w: World, steps: seq<Step>, n: int)
    requires Inv(env, w) && NotProduced(env, w, steps, n) && RowOf(env, w, n).value.status == Some(Stale)
    ensures RowOf(env, Run(env, w, steps), n).Some? && RowOf(env, Run(env, w, steps), n).value.status == Some(Stale)
    decreases |steps|
  {
    hide Next, RowOf;
    if |steps| > 0 {
      StepKeepsInv(env, w, steps[0]);
      StaleStep(env, w, steps[0], n);
      StaleUntilProduced(env, Next(env, w, steps[0]), steps[1..], n);
    }
  }

  // ---------- derived files ----------

  /** The derived file of a row is the stretch of the source its range names. */
  ghost predicate IsSlice(env: Env, files: map<int, string>, e: Entry) {
    e.num.Some? && e.num.value in files && e.range.Some? &&
    var r := e.range.value;
    var d := DocIndex(env.docs, r.rel);
    d < |env.docs| && 0 <= r.start < r.end <= |env.docs[d].text|
        && files[e.num.value] == env.docs[d].text[r.start..r.end]
  }

  lemma SliceOnDisk(env: Env, eps: seq<Entry>, files: map<int, string>, i: nat)
    requires RowsForm(env.docs, eps) && FilesMatch(env, map[], eps, files) && i < |eps| && eps[i].range.Some?
    ensures IsSlice(env, files, eps[i])
  {
    assert Rewritten(eps[i]);
    assert RangeInDocs(env.docs, eps[i].range.value);
  }

  /** After every commit of every run, the derived file of every row with a range is that stretch of its source. */
  lemma {:induction false} FilesAreSlices(env: Env, w: World, steps: seq<Step>, step: Step, i: nat)
    requires Inv(env, w) && Commits(env, Run(env, w, steps), step)
    requires var eps := Next(env, Run(env, w, steps), step).store.project.episodes; i < |eps| && eps[i].range.Some?
    ensures var s := Next(env, Run(env, w, steps), step).store; IsSlice(env, s.files, s.project.episodes[i])
  {
    hide CommitPlan, CommitReplan, AimOf, PlanTicketOf, ReplanTicketOf, ReplanPrepared, Backfilled, FilesMatch, Run,
         RowsForm;
    LedgerStaysHealthy(env, w, steps);
    var v := Run(env, w, steps);
    StepKeepsInv(env, v, step);
    FilesFollowLedger(env, w, steps, step);
    if step.WritePlan? {
      PlanCommitIsFixed(env, v.store, v.plans[step.id]);
    } else {
      ReplanCommitIsFixed(env, v.store, v.replans[step.id].0);
    }
    var s := Next(env, v, step).store;
    SliceOnDisk(env, s.project.episodes, s.files, i);
  }

  // ---------- when a commit goes through ----------

  lemma WritableRow(env: Env, cache: map<string, string>, e: Entry)
    requires forall rel :: rel in cache ==> Load(env, rel) == Some(cache[rel])
    requires e.range.Some? && RangeInDocs(env.docs, e.range.value)
    ensures EntryText(env, cache, e).Some?
  {
  }

  /** The rows of a healthy ledger can all be written. */
  lemma HealthyIsWritable(env: Env, cache: map<string, string>, eps: seq<Entry>)
    requires RowsForm(env.docs, eps) && forall rel :: rel in cache ==> Load(env, rel) == Some(cache[rel])
    ensures CollectWrites(env, cache, eps).Ok?
  {
    hide EntryText, CollectWrites, RangeInDocs;
    RefusedCommitNamesARow(env, cache, eps);
    forall i | 0 <= i < |eps| && Planner.Rewritten(eps[i]) ensures EntryText(env, cache, eps[i]).Some? {
      WritableRow(env, cache, eps[i]);
    }
  }

  lemma {:induction false} CurrentTicketCommits(env: Env, s: Store, t: PlanTicket)
    requires StoreForm(env, s) && PlanPrepared(env, t)
    requires EffectiveStart(Backfilled(env, s), env.docs) == Some(t.startRef)
    ensures CommitPlan(env, s, t).Done?
  {
    hide Backfilled, EffectiveStart, PlannedLedger, CollectWrites, RowsForm, PlanExhausts;
    PlannedLedgerForm(env, Backfilled(env, s), t);
    HealthyIsWritable(env, map[t.rel := t.text], PlannedLedger(Backfilled(env, s), t).episodes);
  }

  /** A pending plan commits exactly when the start it has read still is the next start. */
  lemma {:induction false} PlanCommitsExactly(env: Env, w: World, id: nat)
    requires Inv(env, w)
    ensures CommitsPlan(env, w, WritePlan(id)) <==> CurrentPlan(env, w, id)
  {
    hide Backfilled, EffectiveStart, CommitPlan, LedgerForm;
    CommittingPlanIsCurrent(env, w, id);
    if CurrentPlan(env, w, id) {
      CurrentTicketCommits(env, w.store, w.plans[id]);
    }
  }

  /** A replan ticket as a read leaves it: its rows begin with the requested number. */
  ghost predicate BeginsAt(t: ReplanTicket) {
    |t.affected| > 0 && t.affected[0].num == Some(t.from)
  }

  lemma {:induction false} ReadReplanBegins(env: Env, w: World, id: nat, from: int, confirmed: bool, cuts: seq<Cut>)
    requires DistinctDocs(env.docs) && ReplanTicketOf(env, Backfilled(env, w.store), from, confirmed, cuts).Some?
    ensures BeginsAt(Next(env, w, ReadReplan(id, from, confirmed, cuts)).replans[id].0)
  {
    hide Backfilled, Affected, MergeRows, PiecesReadable, AllClosed, LayOutAll, TextsOf;
  }

  lemma {:induction false} CurrentReplanTicketCommits(env: Env, s: Store, t: ReplanTicket, pieces: seq<Piece>,
                                                      cuts: seq<Cut>)
    requires StoreForm(env, s) && ReplanPrepared(env, t, pieces, cuts) && BeginsAt(t)
    requires RangesOf(Affected(Backfilled(env, s).episodes, t.from)) == RangesOf(t.affected)
    requires forall n :: n in ConsumedNums(Affected(Backfilled(env, s).episodes, t.from)) ==> n in t.consumed
    ensures CommitReplan(env, s, t).Done?
  {
    hide Backfilled, Affected, ReplannedLedger, CollectWrites, RowsForm, LayOutAll, MergeRows, RangesOf;
    var p := Backfilled(env, s);
    var before := Affected(p.episodes, t.from);
    MergeDependsOnRanges([], before, t.affected);
    ScopeIsOk(env, p, t);
    ReplannedLedgerForm(env, p, t, pieces, cuts);
    HealthyIsWritable(env, t.texts, ReplannedLedger(p, before, t).episodes);
  }

  lemma ScopeIsOk(env: Env, p: Project, t: ReplanTicket)
    requires LedgerForm(env.docs, p) && BeginsAt(t)
    requires var before := Affected(p.episodes, t.from);
             RangesOf(before) == RangesOf(t.affected) && MergeRows([], before).Ok?
    ensures var before := Affected(p.episodes, t.from);
            && |before| > 0 && before[0].num == Some(t.from)
            && ReplanScope(p, t.from).Ok? && ReplanScope(p, t.from).value.affected == before
  {
    hide Affected, MergeRows;
    var before := Affected(p.episodes, t.from);
    assert |RangesOf(before)| == |RangesOf(t.affected)|;
    assert RangesOf(before)[0] == RangesOf(t.affected)[0];
    MergedRowsHaveRanges([], before);
    forall i | 0 <= i < |before| ensures before[i].status != Some(Unanchored) {
      AffectedIsTheTail(p.episodes, t.from, before[i]);
      var k :| 0 <= k < |p.episodes| && p.episodes[k] == before[i];
    }
  }

  /** A pending replan commits exactly when the rows from its number on have the numbers and ranges it has read, and no
      more of them are consumed than it has listed. */
  lemma {:induction false} ReplanCommitsExactly(env: Env, w: World, id: nat)
    requires Inv(env, w) && id in w.replans && BeginsAt(w.replans[id].0)
    ensures var t := w.replans[id].0;
            CommitsReplan(env, w, id) <==>
              && CurrentReplan(env, w, id)
              && forall n :: n in ConsumedNums(Affected(Backfilled(env, w.store).episodes, t.from)) ==> n in t.consumed
  {
    hide Backfilled, CommitReplan, LedgerForm, ReplanPrepared, Affected, RangesOf, ConsumedNums;
    var t := w.replans[id].0;
    CommittingReplanIsCurrent(env, w, id);
    if CommitsReplan(env, w, id) {
      ReplanCommitChecks(env, w.store, t);
    } else if CurrentReplan(env, w, id) {
      var pieces, cuts :| ReplanPrepared(env, t, pieces, cuts);
      if forall n :: n in ConsumedNums(Affected(Backfilled(env, w.store).episodes, t.from)) ==> n in t.consumed {
        CurrentReplanTicketCommits(env, w.store, t, pieces, cuts);
      }
    }
  }

  /** A healthy store refuses a prepared plan for one reason only: the start has moved. */
  lemma {:induction false} RefusedPlanMeans(env: Env, s: Store, t: PlanTicket)
    requires StoreForm(env, s) && PlanPrepared(env, t) && CommitPlan(env, s, t).Refused?
    ensures CommitPlan(env, s, t).why == Conflict
    ensures EffectiveStart(Backfilled(env, s), env.docs) != Some(t.startRef)
  {
    hide Backfilled, EffectiveStart, PlannedLedger, Install, PlanExhausts;
    EffectiveStartIsLast(env.docs, Backfilled(env, s));
    if EffectiveStart(Backfilled(env, s), env.docs) == Some(t.startRef) {
      CurrentTicketCommits(env, s, t);
    }
  }

  /** And a replan for one of two: its rows or their ranges have changed, or else more of them have been consumed. */
  lemma {:induction false} RefusedReplanMeans(env: Env, s: Store, t: ReplanTicket, pieces: seq<Piece>, cuts: seq<Cut>)
    requires StoreForm(env, s) && ReplanPrepared(env, t, pieces, cuts) && BeginsAt(t)
             && CommitReplan(env, s, t).Refused?
    ensures var before := Affected(Backfilled(env, s).episodes, t.from);
            CommitReplan(env, s, t).why == if RangesOf(before) != RangesOf(t.affected) then Conflict else NewlyConsumed
  {
    hide Backfilled, Affected, ReplannedLedger, MergeRows, RangesOf, Install, LedgerForm;
    var before := Affected(Backfilled(env, s).episodes, t.from);
    if RangesOf(before) == RangesOf(t.affected) {
      MergeDependsOnRanges([], before, t.affected);
      ScopeIsOk(env, Backfilled(env, s), t);
      if forall n :: n in ConsumedNums(before) ==> n in t.consumed {
        CurrentReplanTicketCommits(env, s, t, pieces, cuts);
      }
    }
  }

  // ---------- what can be replanned ----------

  /** Some row lies in this file. */
  ghost predicate InFile(rows: seq<Entry>, rel: string) {
    exists j :: 0 <= j < |rows| && rows[j].range.Some? && rows[j].range.value.rel == rel
  }

  /** Row `i` goes on where the row before it ends, or opens a file that no row before it is in. */
  ghost predicate Fits(rows: seq<Entry>, i: int)
    requires 0 <= i < |rows|
  {
    rows[i].range.Some? &&
    var r := rows[i].range.value;
    && r.start < r.end
    && if i > 0 && rows[i - 1].range.Some? && rows[i - 1].range.value.rel == r.rel
       then r.start == rows[i - 1].range.value.end
       else !InFile(rows[..i], r.rel)
  }

  /** What is wrong with a row that does not fit. */
  ghost predicate Obstacle(rows: seq<Entry>, i: int, e: ScopeError)
    requires 0 <= i < |rows| && rows[i].num.Some?
  {
    var n := rows[i].num.value;
    if rows[i].range.None? then e == NoRange(n)
    else if rows[i].range.value.start >= rows[i].range.value.end then e == EmptyRange(n)
    else if i > 0 && rows[i - 1].range.Some? && rows[i - 1].range.value.rel == rows[i].range.value.rel then e == Gap(n)
    else e == Interleaved(n)
  }

  /** The first row that does not fit, and what is wrong with it. */
  ghost predicate FirstObstacle(rows: seq<Entry>, i: int, e: ScopeError)
    requires AllNumbered(rows)
  {
    && 0 <= i < |rows| && !Fits(rows, i) && Obstacle(rows, i, e)
    && forall j :: 0 <= j < i ==> Fits(rows, j)
  }

  /** Some piece lies in this file. */
  ghost predicate AnyPiece(pieces: seq<Piece>, rel: string) {
    exists i :: 0 <= i < |pieces| && pieces[i].rel == rel
  }

  /** The pieces so far: they end where the last row ends, and lie in the files of the rows. */
  ghost predicate PiecesOf(pieces: seq<Piece>, rows: seq<Entry>) {
    && (|pieces| == 0 <==> |rows| == 0)
    && (|rows| > 0 ==>
          && rows[|rows| - 1].range.Some?
          && pieces[|pieces| - 1].rel == rows[|rows| - 1].range.value.rel
          && pieces[|pieces| - 1].end == rows[|rows| - 1].range.value.end)
    && (forall rel :: AnyPiece(pieces, rel) <==> InFile(rows, rel))
  }

  lemma InFileSnoc(rows: seq<Entry>, e: Entry, rel: string)
    requires e.range.Some?
    ensures InFile(rows + [e], rel) <==> InFile(rows, rel) || e.range.value.rel == rel
  {
    var all := rows + [e];
    assert all[|rows|] == e;
    if InFile(rows, rel) {
      var j :| 0 <= j < |rows| && rows[j].range.Some? && rows[j].range.value.rel == rel;
      assert all[j] == rows[j];
    }
  }

  lemma AnyPieceSnoc(pieces: seq<Piece>, r: Piece, rel: string)
    ensures AnyPiece(pieces + [r], rel) <==> AnyPiece(pieces, rel) || r.rel == rel
  {
    var all := pieces + [r];
    assert all[|pieces|] == r;
    if AnyPiece(pieces, rel) {
      var j :| 0 <= j < |pieces| && pieces[j].rel == rel;
      assert all[j] == pieces[j];
    }
  }

  lemma AnyPieceExtended(pieces: seq<Piece>, end: int, rel: string)
    requires |pieces| > 0
    ensures var k := |pieces| - 1;
            AnyPiece(pieces[k := pieces[k].(end := end)], rel) <==> AnyPiece(pieces, rel)
  {
    var k := |pieces| - 1;
    var all := pieces[k := pieces[k].(end := end)];
    assert forall i :: 0 <= i < |pieces| ==> all[i].rel == pieces[i].rel;
  }

  lemma AddRowFits(pieces: seq<Piece>, rows: seq<Entry>, e: Entry)
    requires PiecesOf(pieces, rows) && e.num.Some?
    ensures var all, r := rows + [e], AddRow(pieces, e);
            && (r.Ok? <==> Fits(all, |rows|))
            && (r.Err? ==> Obstacle(all, |rows|, r.error))
  {
    hide InFile;
    var all := rows + [e];
    assert all[..|rows|] == rows && all[|rows|] == e;
    if |rows| > 0 {
      assert all[|rows| - 1] == rows[|rows| - 1];
    }
    if e.range.Some? {
      assert AnyPiece(pieces, e.range.value.rel) <==> InFile(rows, e.range.value.rel);
    }
  }

  lemma AddRowKeepsPieces(pieces: seq<Piece>, rows: seq<Entry>, e: Entry)
    requires PiecesOf(pieces, rows) && e.num.Some? && AddRow(pieces, e).Ok?
    ensures PiecesOf(AddRow(pieces, e).value, rows + [e])
  {
    hide InFile, AnyPiece;
    var r, all := e.range.value, rows + [e];
    forall rel
      ensures AnyPiece(AddRow(pieces, e).value, rel) <==> InFile(all, rel)
    {
      InFileSnoc(rows, e, rel);
      AnyPieceSnoc(pieces, r, rel);
      if |pieces| > 0 && pieces[|pieces| - 1].rel == r.rel {
        AnyPieceExtended(pieces, r.end, rel);
        LastPieceCounts(pieces);
      }
    }
  }

  lemma LastPieceCounts(pieces: seq<Piece>)
    requires |pieces| > 0
    ensures AnyPiece(pieces, pieces[|pieces| - 1].rel)
  {
  }

  lemma {:induction false} MergeSnoc(pieces: seq<Piece>, rows: seq<Entry>, e: Entry)
    requires AllNumbered(rows) && e.num.Some?
    ensures AllNumbered(rows + [e])
    ensures var r := MergeRows(pieces, rows);
            MergeRows(pieces, rows + [e]) == if r.Err? then r else AddRow(r.value, e)
    decreases |rows|
  {
    if |rows| == 0 {
      assert rows + [e] == [e] && [e][1..] == [];
    } else {
      assert (rows + [e])[1..] == rows[1..] + [e];
      var r := AddRow(pieces, rows[0]);
      MergeSnoc(if r.Ok? then r.value else pieces, rows[1..], e);
    }
  }

  lemma FitsBefore(rows: seq<Entry>, k: nat, i: nat)
    requires i < k <= |rows|
    ensures Fits(rows[..k], i) <==> Fits(rows, i)
  {
    assert rows[..k][..i] == rows[..i];
  }

  lemma ObstacleBefore(rows: seq<Entry>, k: nat, i: int, e: ScopeError)
    requires AllNumbered(rows) && k <= |rows| && AllNumbered(rows[..k]) && FirstObstacle(rows[..k], i, e)
    ensures FirstObstacle(rows, i, e)
  {
    hide Fits;
    FitsBefore(rows, k, i);
    forall j | 0 <= j < i ensures Fits(rows, j) {
      FitsBefore(rows, k, j);
    }
  }

  /** Merging is exact. If every row goes on where the one before ends or opens a new file, it succeeds; otherwise it
      names the first row that does not, and why. */
  lemma {:induction false} MergeMeans(rows: seq<Entry>) returns (i: int)
    requires AllNumbered(rows)
    ensures var r := MergeRows([], rows);
            && (r.Ok? ==> PiecesOf(r.value, rows) && forall j :: 0 <= j < |rows| ==> Fits(rows, j))
            && (r.Err? ==> FirstObstacle(rows, i, r.error))
    decreases |rows|
  {
    i := -1;
    if |rows| > 0 {
      hide Fits, Obstacle, FirstObstacle, AddRow, PiecesOf, MergeRows;
      var k := |rows| - 1;
      var front := rows[..k];
      assert rows == front + [rows[k]];
      i := MergeMeans(front);
      MergeSnoc([], front, rows[k]);
      var r := MergeRows([], front);
      if r.Ok? {
        MergeLast(r.value, front, rows[k]);
        i := k;
      } else {
        ObstacleBefore(rows, k, i, r.error);
      }
    }
  }

  lemma MergeLast(pieces: seq<Piece>, front: seq<Entry>, e: Entry)
    requires AllNumbered(front) && e.num.Some? && AllNumbered(front + [e])
    requires PiecesOf(pieces, front) && forall j :: 0 <= j < |front| ==> Fits(front, j)
    ensures var all, r := front + [e], AddRow(pieces, e);
            && (r.Ok? ==> PiecesOf(r.value, all) && forall j :: 0 <= j < |all| ==> Fits(all, j))
            && (r.Err? ==> FirstObstacle(all, |front|, r.error))
  {
    hide Fits, Obstacle, AddRow, PiecesOf;
    var all := front + [e];
    AddRowFits(pieces, front, e);
    if AddRow(pieces, e).Ok? {
      AddRowKeepsPieces(pieces, front, e);
    }
    forall j | 0 <= j < |front| ensures Fits(all, j) {
      assert all[..|front|] == front;
      FitsBefore(all, |front|, j);
    }
  }

  /** Some episode has no place in the sources. */
  ghost predicate AnyUnanchored(rows: seq<Entry>) {
    exists i :: 0 <= i < |rows| && rows[i].status == Some(Unanchored)
  }

  /** What a replan from a number needs: an episode of that number, and from it on no unanchored one and only rows that
      fit. Otherwise it is refused, for the first of these that fails. */
  lemma ScopeMeans(p: Project, from: int)
    ensures var tail, scope := Affected(p.episodes, from), ReplanScope(p, from);
            if from !in NumsOf(p.episodes) then scope == Err(NotInLedger)
            else if AnyUnanchored(tail) then scope == Err(HitsUnanchored)
            else if scope.Ok? then scope.value.affected == tail && forall i :: 0 <= i < |tail| ==> Fits(tail, i)
            else exists i :: FirstObstacle(tail, i, scope.error)
  {
    hide Affected, NumsOf, MergeRows, Fits, Obstacle, PiecesOf;
    var tail := Affected(p.episodes, from);
    var i := MergeMeans(tail);
    TailBegins(p.episodes, from);
  }

  lemma TailBegins(eps: seq<Entry>, from: int)
    ensures from in NumsOf(eps) <==> |Affected(eps, from)| > 0 && Affected(eps, from)[0].num == Some(from)
  {
    hide Affected, FromNum;
    var tail := Affected(eps, from);
    SortSorts(FromNum(eps, from));
    if from in NumsOf(eps) {
      var e :| e in eps && e.num == Some(from);
      AffectedIsTheTail(eps, from, e);
      var k :| 0 <= k < |tail| && tail[k] == e;
      AffectedIsTheTail(eps, from, tail[0]);
      TailInOrder(eps, from, k);
    }
    if |tail| > 0 {
      AffectedIsTheTail(eps, from, tail[0]);
    }
  }

  lemma TailInOrder(eps: seq<Entry>, from: int, k: nat)
    requires k < |Affected(eps, from)|
    ensures Affected(eps, from)[0].num.value <= Affected(eps, from)[k].num.value
  {
    SortSorts(FromNum(eps, from));
  }

  // ---------- drafts ----------

  /** The drafts of the cuts, one cut after the other. */
  ghost function DraftsOf(cuts: seq<Cut>): seq<Draft> {
    if |cuts| == 0 then [] else cuts[0].drafts + DraftsOf(cuts[1..])
  }

  lemma {:induction false} LayOutKeepsDrafts(c: Cut, rel: string, start: int, prev: int, i: nat)
    requires |c.drafts| == |c.ends| && i < |c.drafts|
    ensures LayOut(c, rel, start, prev)[i].draft == c.drafts[i]
    decreases |c.drafts|
  {
    if i > 0 {
      LayOutKeepsDrafts(Cut(c.drafts[1..], c.ends[1..]), rel, start, start + c.ends[0], i - 1);
    }
  }

  /** A new layout has the drafts of the answers, in their order. */
  lemma {:induction false} LayOutAllKeepsDrafts(pieces: seq<Piece>, cuts: seq<Cut>)
    requires |pieces| == |cuts| && forall i :: 0 <= i < |cuts| ==> |cuts[i].drafts| == |cuts[i].ends|
    ensures |LayOutAll(pieces, cuts)| == |DraftsOf(cuts)|
    ensures forall i :: 0 <= i < |DraftsOf(cuts)| ==> LayOutAll(pieces, cuts)[i].draft == DraftsOf(cuts)[i]
  {
    if |pieces| > 0 {
      hide LayOut;
      LayOutAllKeepsDrafts(pieces[1..], cuts[1..]);
      var first := LayOut(cuts[0], pieces[0].rel, pieces[0].start, pieces[0].start);
      forall i | 0 <= i < |first| ensures first[i].draft == cuts[0].drafts[i] {
        LayOutKeepsDrafts(cuts[0], pieces[0].rel, pieces[0].start, pieces[0].start, i);
      }
    }
  }
}
