/** Where healthy ledgers come from: new projects, ledgers in any row order, and legacy projects at their first call. */
module PlannerHealth {
  import opened Options
  import opened SourceText
  import opened SortedSets
  import opened EpisodeLedger
  import opened BackfillLaws
  import opened Planner
  import opened PlannerForm
  import opened PlannerRuns
  import G = BackfillGreedy

  /** A project nobody is working on. */
  function Idle(s: Store): World {
    World(s, map[], map[])
  }

  lemma HealthyIdleWorld(env: Env, s: Store)
    requires StoreForm(env, s)
    ensures Inv(env, Idle(s))
  {
    hide StoreForm;
  }

  ghost predicate CursorInside(env: Env, p: Project) {
    p.cursor.Some? ==> InDocs(env.docs, p.cursor.value.rel, p.cursor.value.offset)
  }

  /** A new project, without rows and derived files, is healthy. */
  lemma NewProjectIsHealthy(env: Env, s: Store)
    requires DistinctDocs(env.docs) && |s.project.episodes| == 0 && Discovered(s.files) == {}
             && CursorInside(env, s.project)
    ensures Inv(env, Idle(s))
  {
    SettledIsHealthy(env, s);
    HealthyIdleWorld(env, s);
  }

  // ---------- rows in another order ----------

  lemma WithoutOrphans(eps: seq<Entry>, files: map<int, string>)
    requires Discovered(files) <= NumsOf(eps)
    ensures WithOrphans(eps, files) == Arrange(eps)
  {
    var none := Discovered(files) - NumsOf(eps);
    assert none == {};
    assert eps + OrphanEntries(Ascending(none)) == eps;
  }

  lemma SortKeepsNumbers(eps: seq<Entry>)
    requires AllNumbered(eps)
    ensures NumsOf(Sort(eps)) == NumsOf(eps)
  {
    SortSorts(eps);
    forall e ensures e in Sort(eps) <==> e in eps {
      assert e in Sort(eps) <==> e in multiset(Sort(eps));
      assert e in eps <==> e in multiset(eps);
    }
  }

  /** A ledger that would be healthy in number order is healthy in any order. */
  lemma ReorderedIsHealthy(env: Env, s: Store)
    requires AllNumbered(s.project.episodes)
    requires SettledForm(env, s.(project := s.project.(episodes := Sort(s.project.episodes))))
    ensures Inv(env, Idle(s))
  {
    var eps, disk := s.project.episodes, DiskOf(env, s);
    var s' := s.(project := s.project.(episodes := Sort(eps)));
    SortKeepsNumbers(eps);
    SettledIsHealthy(env, s');
    WithoutOrphans(eps, s.files);
    WithoutOrphans(Sort(eps), s.files);
    NumberedIsInOrder(Sort(eps));
    assert Backfilled(env, s) == Backfilled(env, s');
    HealthyIdleWorld(env, s);
  }

  // ---------- legacy projects ----------

  /** No number stands in two rows. */
  ghost predicate DistinctNums(eps: seq<Entry>) {
    AllNumbered(eps) && forall i, j :: 0 <= i < j < |eps| ==> eps[i].num != eps[j].num
  }

  ghost predicate StrictlyOrdered(eps: seq<Entry>) {
    AllNumbered(eps) && forall i, j :: 0 <= i < j < |eps| ==> eps[i].num.value < eps[j].num.value
  }

  lemma {:induction false} SortIsStrict(eps: seq<Entry>)
    requires DistinctNums(eps)
    ensures StrictlyOrdered(Sort(eps))
  {
    SortSorts(eps);
    SortKeepsDistinct(eps);
    var r := Sort(eps);
    forall i, j | 0 <= i < j < |r| ensures r[i].num.value < r[j].num.value {
      assert r[i].num != r[j].num;
    }
  }

  lemma {:induction false} SortKeepsDistinct(eps: seq<Entry>)
    requires DistinctNums(eps)
    ensures DistinctNums(Sort(eps)) && NumsOf(Sort(eps)) == NumsOf(eps)
  {
    SortKeepsNumbers(eps);
    if |eps| > 0 {
      SortKeepsDistinct(eps[1..]);
      assert eps[0].num.value !in NumsOf(eps[1..]);
      InsertKeepsDistinct(eps[0], Sort(eps[1..]));
    }
  }

  lemma {:induction false} InsertKeepsDistinct(e: Entry, eps: seq<Entry>)
    requires e.num.Some? && DistinctNums(eps) && e.num.value !in NumsOf(eps)
    ensures DistinctNums(Insert(e, eps))
  {
    forall i | 0 <= i < |eps| ensures eps[i].num != e.num {
      assert eps[i] in eps;
    }
    if |eps| > 0 && e.num.value > eps[0].num.value {
      InsertKeepsDistinct(e, eps[1..]);
      InsertKeepsRows(e, eps[1..]);
      var r := Insert(e, eps[1..]);
      forall k | 0 <= k < |r| ensures r[k].num != eps[0].num {
        assert r[k] in multiset(r);
        assert r[k] == e || r[k] in eps[1..];
      }
    }
  }

  /** A project from before the ledger: distinct positive numbers, and nothing settled yet. */
  ghost predicate Legacy(s: Store) {
    && DistinctNums(s.project.episodes)
    && (forall i :: 0 <= i < |s.project.episodes| ==>
          s.project.episodes[i].num.value > 0 && s.project.episodes[i].status.None?)
    && (forall n :: n in Discovered(s.files) ==> n > 0)
  }

  /** Rows before anchoring: pending, with strictly increasing positive numbers. */
  ghost predicate PendingRows(rows: seq<Entry>) {
    && StrictlyOrdered(rows)
    && forall i :: 0 <= i < |rows| ==> rows[i].num.value > 0 && rows[i].status.None?
  }

  lemma AllRowsOf(s: Store) returns (all: seq<Entry>)
    requires Legacy(s)
    ensures DistinctNums(all) && WithOrphans(s.project.episodes, s.files) == Sort(all)
    ensures forall e :: e in all ==> e.num.value > 0 && e.status.None?
  {
    var eps, missing := s.project.episodes, Discovered(s.files) - NumsOf(s.project.episodes);
    var nums := Ascending(missing);
    var orphans := OrphanEntries(nums);
    all := eps + orphans;
    forall j | 0 <= j < |orphans|
      ensures orphans[j].num == Some(nums[j]) && nums[j] in missing && orphans[j].status.None?
    {
    }
    forall i, j | 0 <= i < |eps| && 0 <= j < |orphans| ensures eps[i].num != orphans[j].num {
      assert eps[i] in eps;
    }
    forall i, j | 0 <= i < j < |all| ensures all[i].num != all[j].num {
    }
  }

  lemma LegacyRows(s: Store)
    requires Legacy(s)
    ensures PendingRows(WithOrphans(s.project.episodes, s.files))
  {
    var all := AllRowsOf(s);
    var rows := WithOrphans(s.project.episodes, s.files);
    SortIsStrict(all);
    SortSorts(all);
    forall i | 0 <= i < |rows| ensures rows[i] in all {
      assert rows[i] in multiset(rows);
    }
  }

  lemma {:induction false} FirstOfStrict(eps: seq<Entry>, i: nat)
    requires StrictlyOrdered(eps) && i < |eps|
    ensures IndexOf(eps, eps[i].num.value) == i && eps[i].num.value in NumsOf(eps)
  {
    assert eps[i] in eps;
  }

  /** Every row backfill returns, settled from the pending row in its place. */
  lemma LegacySettles(env: Env, s: Store, i: nat)
    requires Legacy(s) && i < |Backfilled(env, s).episodes|
    ensures var rows, r := WithOrphans(s.project.episodes, s.files), Backfilled(env, s).episodes;
            && |rows| == |r| && r[i].num == rows[i].num && rows[i].num.Some?
            && IndexOf(r, r[i].num.value) == i
            && Settles(DiskOf(env, s), rows[i].num.value, rows[i], r[i])
  {
    var rows, r, disk := WithOrphans(s.project.episodes, s.files), Backfilled(env, s).episodes, DiskOf(env, s);
    BackfillIsSound(s.project, disk);
    LegacyRows(s);
    FirstOfStrict(rows, i);
    IndexDependsOnNums(rows, r, rows[i].num.value);
  }

  /** A settled row is anchored inside its source to the text of its file, or unanchored without a range. */
  lemma SettledRowIsAnchored(env: Env, s: Store, n: int, before: Entry, after: Entry)
    requires DistinctDocs(env.docs) && before.status.None? && Settles(DiskOf(env, s), n, before, after)
    ensures after.status.Some? && (after.range.None? <==> after.status == Some(Unanchored))
    ensures after.range.Some? ==> RangeInDocs(env.docs, after.range.value) && G.HasText(DiskOf(env, s), n)
  {
    if after != Lost(before) {
      var d, start :| Placed(DiskOf(env, s), n, before, after, d, start);
      DocIndexOfDoc(env.docs, d);
    }
  }

  lemma LegacyRow(env: Env, s: Store, i: nat)
    requires DistinctDocs(env.docs) && Legacy(s) && i < |Backfilled(env, s).episodes|
    ensures var r := Backfilled(env, s).episodes;
            && r[i].num.Some? && r[i].num.value > 0 && r[i].status.Some? && IndexOf(r, r[i].num.value) == i
            && (r[i].range.None? <==> r[i].status == Some(Unanchored))
            && (r[i].range.Some? ==>
                  RangeInDocs(env.docs, r[i].range.value) && G.HasText(DiskOf(env, s), r[i].num.value))
  {
    hide Settles, RangeInDocs, Backfill, Arrange, G.HasText;
    var rows, r := WithOrphans(s.project.episodes, s.files), Backfilled(env, s).episodes;
    LegacyRows(s);
    LegacySettles(env, s, i);
    SettledRowIsAnchored(env, s, rows[i].num.value, rows[i], r[i]);
  }

  lemma LegacyNumbered(env: Env, s: Store)
    requires DistinctDocs(env.docs) && Legacy(s)
    ensures Numbered(Backfilled(env, s).episodes) && Anchored(env.docs, Backfilled(env, s).episodes)
  {
    hide RangeInDocs, Backfill, Arrange, G.HasText, Settles;
    var rows, r := WithOrphans(s.project.episodes, s.files), Backfilled(env, s).episodes;
    LegacyRows(s);
    BackfillIsSound(s.project, DiskOf(env, s));
    forall i | 0 <= i < |r|
      ensures r[i].num == rows[i].num && r[i].num.Some? && r[i].num.value > 0 && r[i].status.Some?
      ensures r[i].range.None? <==> r[i].status == Some(Unanchored)
      ensures r[i].range.Some? ==> RangeInDocs(env.docs, r[i].range.value)
    {
      LegacyRow(env, s, i);
    }
    forall i, j | 0 <= i < j < |r| ensures r[i].num.value < r[j].num.value {
      assert rows[i].num.value < rows[j].num.value;
    }
  }

  lemma LegacyRowsForm(env: Env, s: Store)
    requires |env.docs| == 1 && Legacy(s) && exists place :: G.Layout(DiskOf(env, s), place)
    ensures RowsForm(env.docs, Backfilled(env, s).episodes)
  {
    hide RangeInDocs, G.AnchoredToFile, G.Layout, G.HasText, G.NeedsSecondPass, Backfill, Anchored;
    var r, disk := Backfilled(env, s).episodes, DiskOf(env, s);
    LegacyNumbered(env, s);
    G.GreedyBackfillIsComplete(s.project, disk);
    forall i, j | 0 <= i < j < |r| && r[i].range.Some? && r[j].range.Some?
      ensures EndPos(env.docs, r[i].range.value) <= StartPos(env.docs, r[j].range.value)
    {
      LegacyRow(env, s, i);
      LegacyRow(env, s, j);
      assert r[i].num.value < r[j].num.value;
      assert G.RangeOf(r, r[i].num.value) == r[i].range.value && G.RangeOf(r, r[j].num.value) == r[j].range.value;
      SameSource(env.docs, r[i].range.value, r[j].range.value);
    }
  }

  lemma SameSource(docs: seq<Doc>, a: SourceRange, b: SourceRange)
    requires |docs| == 1 && RangeInDocs(docs, a) && RangeInDocs(docs, b) && a.end <= b.start
    ensures EndPos(docs, a) <= StartPos(docs, b)
  {
  }

  /** Rows with a status end inside the sources. */
  ghost predicate EndsInside(docs: seq<Doc>, eps: seq<Entry>) {
    forall i :: 0 <= i < |eps| && eps[i].status.Some? && eps[i].range.Some? ==>
      InDocs(docs, eps[i].range.value.rel, eps[i].range.value.end)
  }

  lemma VisitEndsInside(disk: Disk, n: int, w: Walk)
    requires WalkOk(disk, w) && DistinctDocs(disk.docs) && EndsInside(disk.docs, w.episodes)
             && EndInDocs(disk.docs, w.lastEnd)
    ensures var v := Visit(disk, n, w); EndsInside(disk.docs, v.episodes) && EndInDocs(disk.docs, v.lastEnd)
  {
    hide FindInSources, FileText, SourceText.OccursAt;
    var i, text := IndexOf(w.episodes, n), FileText(disk, n);
    if i < |w.episodes| && w.episodes[i].status.None? && text != "" {
      var hit := FindInSources(disk.docs, w.cursors, text, w.lastDoc);
      if hit.Some? {
        HitEndsInside(disk.docs, hit.value.doc, text, hit.value.start);
      }
    }
  }

  lemma HitEndsInside(docs: seq<Doc>, d: nat, needle: string, start: nat)
    requires DistinctDocs(docs) && d < |docs| && OccursAt(docs[d].text, needle, start)
    ensures InDocs(docs, docs[d].rel, start) && InDocs(docs, docs[d].rel, start + |needle|)
  {
    DocIndexOfDoc(docs, d);
  }

  lemma {:induction false} WalkEndsInside(disk: Disk, keys: seq<int>, w: Walk)
    requires WalkOk(disk, w) && DistinctDocs(disk.docs) && EndsInside(disk.docs, w.episodes)
             && EndInDocs(disk.docs, w.lastEnd)
    ensures EndInDocs(disk.docs, VisitAll(disk, keys, w).lastEnd)
    decreases |keys|
  {
    hide Visit, EndsInside, EndInDocs;
    if |keys| > 0 {
      VisitEndsInside(disk, keys[0], w);
      WalkEndsInside(disk, keys[1..], Visit(disk, keys[0], w));
    }
  }

  lemma DerivedCursorInside(disk: Disk, w: Walk)
    requires WalkOk(disk, w) && DistinctDocs(disk.docs) && EndInDocs(disk.docs, w.lastEnd)
    ensures EndInDocs(disk.docs, DeriveCursor(disk, w))
  {
    hide SourceText.OccursAt;
    var rem := disk.remaining.GetOr("");
    var hit := if rem == "" then None else FindInSources(disk.docs, w.cursors, rem, w.lastDoc);
    if hit.Some? {
      HitEndsInside(disk.docs, hit.value.doc, rem, hit.value.start);
    }
  }

  lemma LegacyCursor(env: Env, s: Store)
    requires DistinctDocs(env.docs) && Legacy(s) && CursorInside(env, s.project)
    ensures CursorInside(env, Backfilled(env, s))
  {
    hide VisitAll, DeriveCursor, InDocs, WithOrphans, NothingPending;
    var disk, rows := DiskOf(env, s), WithOrphans(s.project.episodes, s.files);
    LegacyRows(s);
    var keys := Ascending(NumsOf(rows));
    WalkEndsInside(disk, keys, FreshWalk(disk, rows));
    DerivedCursorInside(disk, VisitAll(disk, keys, FreshWalk(disk, rows)));
  }

  /** A legacy project with one source is healthy at its first call whenever its non-empty derived files have a
      layout in the source: in number order, without overlap. */
  lemma LegacyProjectIsHealthy(env: Env, s: Store)
    requires |env.docs| == 1 && Legacy(s) && CursorInside(env, s.project)
    requires exists place :: G.Layout(DiskOf(env, s), place)
    ensures Inv(env, Idle(s))
  {
    hide RowsForm, Backfilled, G.Layout;
    LegacyRowsForm(env, s);
    LegacyCursor(env, s);
  }
}
