/** The first commit of a project whose rows backfill still has to settle can be lost by stopping half way, although no
    file for a new row was written: the files themselves still are the record. */
module CrashExamples {
  import opened Options
  import opened SourceText
  import opened SortedSets
  import opened EpisodeLedger
  import G = BackfillGreedy
  import opened Planner
  import opened CommitCrashes
  import opened PlannerSteps

  const TEXT := "abcdef"

  function Source(): Env {
    Env([Doc("a", TEXT)], map[], {}, {})
  }

  function Waiting(n: int): Entry {
    Entry(Some(n), "", "", NoScript, None, None)
  }

  function Anchored(n: int, start: int, end: int): Entry {
    Entry(Some(n), "", "", NoScript, Some(SourceRange("a", start, end)), Some(Planned))
  }

  /** Two rows without a status, each with its derived file. */
  function Legacy(first: string, second: string): Store {
    Store(Project([Waiting(1), Waiting(2)], None), map[1 := first, 2 := second], None)
  }

  lemma OneHit(docs: seq<Doc>, cursor: nat, preferred: Option<nat>, needle: string)
    requires |docs| == 1 && (preferred.Some? ==> preferred.value == 0)
    requires Find(docs[0].text, needle, cursor) >= 0
    ensures FindInSources(docs, [cursor], needle, preferred) == Some(Hit(0, Find(docs[0].text, needle, cursor)))
  {
    G.OneSourceOrder(preferred);
    var order, froms := SearchOrder(|docs|, preferred), [cursor];
    assert order[0] == 0 && froms[order[0]] == cursor;
    assert FirstHit(docs, froms, order, needle) == Some(Hit(0, Find(docs[0].text, needle, cursor)));
  }

  lemma TwoNumbers(s: set<int>)
    requires s == {1, 2}
    ensures Ascending(s) == [1, 2]
  {
    var r := Ascending(s);
    AscendingSize(s);
    assert |r| == 2 && r[0] in r && r[1] in r;
  }

  lemma LegacyNumbers(a: Entry, b: Entry)
    requires a.num == Some(1) && b.num == Some(2)
    ensures NumsOf([a, b]) == {1, 2} && IndexOf([a, b], 1) == 0 && IndexOf([a, b], 2) == 1
  {
    var eps := [a, b];
    assert eps[0] in eps && eps[1] in eps;
    forall n | n in NumsOf(eps) ensures n == 1 || n == 2 {
      var e :| e in eps && e.num == Some(n);
      assert e == a || e == b;
    }
    assert eps[1..] == [b];
  }

  lemma LegacyRows(first: string, second: string)
    ensures WithOrphans(Legacy(first, second).project.episodes, Legacy(first, second).files) == [Waiting(1), Waiting(2)]
  {
    var eps := [Waiting(1), Waiting(2)];
    LegacyNumbers(Waiting(1), Waiting(2));
    NoOrphans(eps, Legacy(first, second).files);
    SortFixesSorted(eps);
  }

  function FirstWalk(first: string, i: nat): Walk {
    Walk([Anchored(1, i, i + |first|), Waiting(2)], [i + |first|], Some(0), Some(Cursor("a", i + |first|)))
  }

  lemma FirstVisit(first: string, second: string, i: nat)
    requires first != "" && Find(TEXT, first, 0) == i
    ensures var disk := DiskOf(Source(), Legacy(first, second));
            Visit(disk, 1, FreshWalk(disk, [Waiting(1), Waiting(2)])) == FirstWalk(first, i)
  {
    hide Find, FindInSources;
    var disk := DiskOf(Source(), Legacy(first, second));
    LegacyNumbers(Waiting(1), Waiting(2));
    assert Zeros(1) == [0];
    OneHit(disk.docs, 0, None, first);
    assert FileText(disk, 1) == first;
    assert [0][0 := i + |first|] == [i + |first|];
    assert [Waiting(1), Waiting(2)][0 := Anchored(1, i, i + |first|)] == [Anchored(1, i, i + |first|), Waiting(2)];
  }

  lemma SecondRow(eps: seq<Entry>, e: Entry)
    requires |eps| == 2
    ensures eps[1 := e] == [eps[0], e]
  {
  }

  lemma VisitAnchors(disk: Disk, n: int, w: Walk, h: Hit)
    requires WalkOk(disk, w) && IndexOf(w.episodes, n) < |w.episodes| && w.episodes[IndexOf(w.episodes, n)].status.None?
    requires FileText(disk, n) != "" && FindInSources(disk.docs, w.cursors, FileText(disk, n), w.lastDoc) == Some(h)
    ensures var i, rel, end := IndexOf(w.episodes, n), disk.docs[h.doc].rel, h.start + |FileText(disk, n)|;
            var v := Visit(disk, n, w);
            && v.episodes == w.episodes[i := AnchoredAt(disk, n, w.episodes[i], rel, h.start, end)]
            && v.lastEnd == Some(Cursor(rel, end))
  {
    hide FindInSources, FileText;
  }

  lemma SecondVisit(disk: Disk, first: string, i: nat, j: nat)
    requires disk.docs == Source().docs && disk.scripts == {} && disk.drafted == {}
    requires FileText(disk, 2) != "" && Find(TEXT, FileText(disk, 2), i + |first|) == j
    ensures var w, end := Visit(disk, 2, FirstWalk(first, i)), j + |FileText(disk, 2)|;
            w.episodes == [Anchored(1, i, i + |first|), Anchored(2, j, end)] && w.lastEnd == Some(Cursor("a", end))
  {
    hide Find, FindInSources, Visit, FileText;
    var w, end := FirstWalk(first, i), j + |FileText(disk, 2)|;
    LegacyNumbers(Anchored(1, i, i + |first|), Waiting(2));
    OneHit(disk.docs, i + |first|, Some(0), FileText(disk, 2));
    VisitAnchors(disk, 2, w, Hit(0, j));
    SecondRow(w.episodes, Anchored(2, j, end));
  }

  /** Backfill anchors each file where its text comes first after the row before. */
  lemma LegacyBackfill(first: string, second: string, i: nat, j: nat)
    requires first != "" && Find(TEXT, first, 0) == i
    requires second != "" && Find(TEXT, second, i + |first|) == j
    ensures Backfilled(Source(), Legacy(first, second))
            == Project([Anchored(1, i, i + |first|), Anchored(2, j, j + |second|)], Some(Cursor("a", j + |second|)))
  {
    hide Find, FindInSources, WithOrphans, Visit;
    var s := Legacy(first, second);
    var disk, rows := DiskOf(Source(), s), [Waiting(1), Waiting(2)];
    LegacyRows(first, second);
    LegacyNumbers(Waiting(1), Waiting(2));
    TwoNumbers(NumsOf(rows));
    FirstVisit(first, second, i);
    assert FileText(disk, 2) == second;
    SecondVisit(disk, first, i, j);
    BackfillWalks(s.project, disk);
    TwoVisits(disk, FreshWalk(disk, rows));
  }

  lemma TwoVisits(disk: Disk, w: Walk)
    requires WalkOk(disk, w)
    ensures VisitAll(disk, [1, 2], w) == Visit(disk, 2, Visit(disk, 1, w))
  {
    hide Visit;
    var v := Visit(disk, 1, w);
    assert [1, 2][1..] == [2] && [2][1..] == [];
    assert VisitAll(disk, [2], v) == VisitAll(disk, [], Visit(disk, 2, v));
  }

  // ---------- a replan ----------

  function NoDraft(): Draft {
    Draft("", "", "")
  }

  /** Moves the only inner cut from 3 to 2. */
  function MovedCut(): ReplanTicket {
    ReplanTicket(1, [Anchored(1, 0, 3), Anchored(2, 3, 6)], [],
                 [PlannedEpisode(NoDraft(), SourceRange("a", 0, 2)), PlannedEpisode(NoDraft(), SourceRange("a", 2, 6))],
                 map["a" := TEXT])
  }

  function Recut(n: int, start: int, end: int): Entry {
    Entry(Some(n), "", "", EpisodeScript(n), Some(SourceRange("a", start, end)), Some(Planned))
  }

  lemma WholeTail(a: Entry, b: Entry)
    requires a.num == Some(1) && b.num == Some(2)
    ensures Affected([a, b], 1) == [a, b] && Unaffected([a, b], {1, 2}) == []
  {
    assert [a, b][1..] == [b] && [b][1..] == [];
    assert FromNum([b], 1) == [b];
    assert FromNum([a, b], 1) == [a, b];
    SortFixesSorted([a, b]);
    assert Unaffected([b], {1, 2}) == [];
  }

  lemma OneMerge(x: int, y: int, z: int)
    requires 0 < x && y < z
    ensures MergeRows([], [Anchored(1, 0, x), Anchored(2, y, z)])
            == if x == y then Ok([SourceRange("a", 0, z)]) else Err(Gap(2))
  {
    var a, b := Anchored(1, 0, x), Anchored(2, y, z);
    assert [a, b][1..] == [b] && [b][1..] == [];
    var one := [SourceRange("a", 0, x)];
    assert AddRow([], a) == Ok(one) by { assert [] + one == one; }
    assert MergeRows([], [a, b]) == MergeRows(one, [b]);
    assert one[0 := one[0].(end := z)] == [SourceRange("a", 0, z)];
    assert MergeRows(one, [b]) == if AddRow(one, b).Err? then AddRow(one, b) else MergeRows(AddRow(one, b).value, []);
    assert AddRow(one, b) == if x == y then Ok([SourceRange("a", 0, z)]) else Err(Gap(2));
  }

  lemma MovedRows()
    ensures ReplanRows([Anchored(1, 0, 3), Anchored(2, 3, 6)], MovedCut().planned, 1)
            == [Recut(1, 0, 2), Recut(2, 2, 6)]
  {
    var rows, planned := [Anchored(1, 0, 3), Anchored(2, 3, 6)], MovedCut().planned;
    assert rows[..1] == [rows[0]];
    assert OldRow(rows, 2) == Some(rows[1]) && OldRow(rows, 1) == Some(rows[0]);
    assert planned[1..] == [planned[1]] && planned[1..][1..] == [];
    assert ReplanRows(rows, planned[1..], 2) == [ReplanRow(rows, planned[1], 2)] + ReplanRows(rows, [], 3);
    assert ReplanRow(rows, planned[0], 1) == Recut(1, 0, 2);
    assert ReplanRow(rows, planned[1], 2) == Recut(2, 2, 6);
  }

  lemma MovedWrites()
    ensures CollectWrites(Source(), map["a" := TEXT], [Recut(1, 0, 2), Recut(2, 2, 6)]) == Ok([(1, "ab"), (2, "cdef")])
  {
    var a, b := Recut(1, 0, 2), Recut(2, 2, 6);
    assert [a, b][1..] == [b] && [b][1..] == [];
    assert TEXT[0..2] == "ab";
    assert TEXT[2..6] == "cdef";
    assert EntryText(Source(), map["a" := TEXT], a) == Some("ab");
    assert EntryText(Source(), map["a" := TEXT], b) == Some("cdef");
    assert [(2, "cdef")] + [] == [(2, "cdef")] && [(1, "ab")] + [(2, "cdef")] == [(1, "ab"), (2, "cdef")];
    assert CollectWrites(Source(), map["a" := TEXT], [b]) == Ok([(2, "cdef")]);
  }

  lemma LegacyLedger()
    ensures Backfilled(Source(), Legacy("abc", "def"))
            == Project([Anchored(1, 0, 3), Anchored(2, 3, 6)], Some(Cursor("a", 6)))
    ensures Backfilled(Source(), Legacy("ab", "def"))
            == Project([Anchored(1, 0, 2), Anchored(2, 3, 6)], Some(Cursor("a", 6)))
  {
    hide Backfill;
    assert TEXT[0..3] == "abc" && TEXT[3..6] == "def" && TEXT[0..2] == "ab";
    assert TEXT[2..5] == "cde";
    assert Find(TEXT, "abc", 0) == 0 && Find(TEXT, "def", 3) == 3 && Find(TEXT, "ab", 0) == 0;
    assert Find(TEXT, "def", 2) == Find(TEXT, "def", 3);
    LegacyBackfill("abc", "def", 0, 3);
    LegacyBackfill("ab", "def", 0, 3);
  }

  lemma WholeReplan(p: Project, t: ReplanTicket, rows: seq<Entry>)
    requires Affected(p.episodes, t.from) == p.episodes && Unaffected(p.episodes, NumsOf(p.episodes)) == []
    requires ReplanRows(p.episodes, t.planned, t.from) == rows && Arrange(rows) == rows
    ensures ReplannedLedger(p, Affected(p.episodes, t.from), t) == Project(rows, p.cursor)
  {
    hide ReplanRows, Affected, Unaffected, NumsOf, Arrange;
    assert [] + rows == rows;
  }

  lemma MovedLedger()
    ensures NewLedger(Source(), Legacy("abc", "def"), MovedCut())
            == Project([Recut(1, 0, 2), Recut(2, 2, 6)], Some(Cursor("a", 6)))
  {
    hide Backfill, ReplanRows, ReplannedLedger, Affected, Unaffected, NumsOf, Sort;
    LegacyLedger();
    var a, b := Anchored(1, 0, 3), Anchored(2, 3, 6);
    WholeTail(a, b);
    LegacyNumbers(a, b);
    MovedRows();
    SortFixesSorted([Recut(1, 0, 2), Recut(2, 2, 6)]);
    WholeReplan(Project([a, b], Some(Cursor("a", 6))), MovedCut(), [Recut(1, 0, 2), Recut(2, 2, 6)]);
  }

  lemma MovedCutCommits()
    ensures CommitReplan(Source(), Legacy("abc", "def"), MovedCut()).Done?
  {
    hide Backfill, ReplannedLedger, Affected, MergeRows, CollectWrites;
    LegacyLedger();
    MovedLedger();
    MovedWrites();
    WholeTail(Anchored(1, 0, 3), Anchored(2, 3, 6));
    OneMerge(3, 3, 6);
  }

  lemma MovedCutStops()
    ensures ReplanWritten(Source(), Legacy("abc", "def"), MovedCut()) == [(1, "ab"), (2, "cdef")]
    ensures ReplanStopped(Source(), Legacy("abc", "def"), MovedCut(), Writing(1, None)) == Legacy("ab", "def")
  {
    hide Backfill, NewLedger, CollectWrites;
    MovedLedger();
    MovedWrites();
    var files := map[1 := "abc", 2 := "def"];
    var one := [(1, "ab"), (2, "cdef")][..1];
    assert one == [(1, "ab")] && one[1..] == [];
    assert ApplyWrites(files, one) == ApplyWrites(files[1 := "ab"], []);
    assert files[1 := "ab"] == map[1 := "ab", 2 := "def"];
  }

  /** The first replan of such a project stops after one complete write. No file lies beyond the old rows, yet run again
      it is refused; and the next backfill reads the files as two episodes with a character between them that belongs to
      neither, while planning goes on behind both. */
  lemma StoppedReplanLosesText()
    ensures var s, t := Legacy("abc", "def"), MovedCut();
            && CommitReplan(Source(), s, t).Done?
            && CrashOf(Writing(1, None), ReplanWritten(Source(), s, t))
            && var stopped := ReplanStopped(Source(), s, t, Writing(1, None));
               && Discovered(stopped.files) <= NumsOf(s.project.episodes)
               && CommitReplan(Source(), stopped, t) == Refused(Conflict)
               && Covered(Backfilled(Source(), s).episodes, "a", 2)
               && !Covered(Backfilled(Source(), stopped).episodes, "a", 2)
               && EffectiveStart(Backfilled(Source(), stopped), Source().docs) == Some(Cursor("a", 6))
  {
    hide Backfill, ReplannedLedger, Affected, MergeRows, CollectWrites, ReplanWritten, ReplanStopped, NumsOf;
    LegacyLedger();
    MovedCutCommits();
    MovedCutStops();
    LegacyNumbers(Waiting(1), Waiting(2));
    WholeTail(Anchored(1, 0, 2), Anchored(2, 3, 6));
    OneMerge(2, 3, 6);
    var p := [Anchored(1, 0, 3), Anchored(2, 3, 6)];
    assert p[0].range.Some? && p[0].range.value.start <= 2 < p[0].range.value.end;
    TwoRowStart(2, 6);
  }

  lemma TwoRowStart(x: int, y: nat)
    ensures EffectiveStart(Project([Anchored(1, 0, x), Anchored(2, 3, y)], Some(Cursor("a", y))), Source().docs)
            == Some(Cursor("a", y))
  {
    var a, b := Anchored(1, 0, x), Anchored(2, 3, y);
    assert [a, b][1..] == [b] && [b][1..] == [];
    assert LastAnchored([a, b], None, None) == LastAnchored([b], Some(1), Some(Cursor("a", x)));
    assert LastAnchored([b], Some(1), Some(Cursor("a", x))) == LastAnchored([], Some(2), Some(Cursor("a", y)));
  }

  // ---------- a plan ----------

  /** Plans the last character. */
  function LastCharacter(): PlanTicket {
    PlanTicket(Cursor("a", 5), "a", 5, TEXT, [NoDraft()], [1], true)
  }

  function ThirdRow(): Entry {
    Recut(3, 5, 6)
  }

  lemma ThreeRows(x: int)
    ensures PlannedLedger(Project([Anchored(1, 0, x), Anchored(2, 3, 5)], Some(Cursor("a", 5))), LastCharacter())
            == Project([Anchored(1, 0, x), Anchored(2, 3, 5), ThirdRow()], Some(Cursor("a", 6)))
  {
    var a, b := Anchored(1, 0, x), Anchored(2, 3, 5);
    assert [a, b][1..] == [b] && [b][1..] == [];
    assert NextNum([b]) == 3 && NextNum([a, b]) == 3;
    var t := LastCharacter();
    assert t.drafts[1..] == [] && t.ends[1..] == [];
    assert PlanRows(t.drafts, t.ends, 3, "a", 5, 5) == [ThirdRow()] + PlanRows([], [], 4, "a", 5, 6);
    assert [ThirdRow()] + [] == [ThirdRow()] && [a, b] + [ThirdRow()] == [a, b, ThirdRow()];
    SortFixesSorted([a, b, ThirdRow()]);
  }

  lemma ThreeWrites(x: nat)
    requires x <= 6
    ensures CollectWrites(Source(), map["a" := TEXT], [Anchored(1, 0, x), Anchored(2, 3, 5), ThirdRow()])
            == Ok([(1, TEXT[0..x]), (2, TEXT[3..5]), (3, TEXT[5..6])])
  {
    var a, b, c := Anchored(1, 0, x), Anchored(2, 3, 5), ThirdRow();
    var cache := map["a" := TEXT];
    assert [a, b, c][1..] == [b, c] && [b, c][1..] == [c] && [c][1..] == [];
    assert CollectWrites(Source(), cache, [c]) == Ok([(3, TEXT[5..6])]) by {
      assert [(3, TEXT[5..6])] + [] == [(3, TEXT[5..6])];
    }
    assert CollectWrites(Source(), cache, [b, c]) == Ok([(2, TEXT[3..5])] + [(3, TEXT[5..6])]);
    assert [(1, TEXT[0..x])] + ([(2, TEXT[3..5])] + [(3, TEXT[5..6])])
           == [(1, TEXT[0..x]), (2, TEXT[3..5]), (3, TEXT[5..6])];
  }

  lemma TornLedger()
    ensures Backfilled(Source(), Legacy("abc", "de"))
            == Project([Anchored(1, 0, 3), Anchored(2, 3, 5)], Some(Cursor("a", 5)))
    ensures Backfilled(Source(), Legacy("ab", "de"))
            == Project([Anchored(1, 0, 2), Anchored(2, 3, 5)], Some(Cursor("a", 5)))
  {
    hide Backfill;
    assert TEXT[0..3] == "abc" && TEXT[3..5] == "de" && TEXT[0..2] == "ab";
    assert TEXT[2..4] == "cd";
    assert Find(TEXT, "abc", 0) == 0 && Find(TEXT, "de", 3) == 3 && Find(TEXT, "ab", 0) == 0;
    assert Find(TEXT, "de", 2) == Find(TEXT, "de", 3);
    LegacyBackfill("abc", "de", 0, 3);
    LegacyBackfill("ab", "de", 0, 3);
  }

  lemma PlanCommits(x: nat, first: string)
    requires x <= 6
    requires Backfilled(Source(), Legacy(first, "de"))
             == Project([Anchored(1, 0, x), Anchored(2, 3, 5)], Some(Cursor("a", 5)))
    ensures var c := CommitPlan(Source(), Legacy(first, "de"), LastCharacter());
            c.Done? && c.store.project.episodes == [Anchored(1, 0, x), Anchored(2, 3, 5), ThirdRow()]
    ensures PlanWritten(Source(), Legacy(first, "de"), LastCharacter())
            == [(1, TEXT[0..x]), (2, TEXT[3..5]), (3, TEXT[5..6])]
  {
    hide Backfill, PlannedLedger, CollectWrites, EffectiveStart, PlanExhausts;
    TwoRowStart(x, 5);
    ThreeRows(x);
    ThreeWrites(x);
  }

  /** The first plan of such a project stops in the middle of rewriting the first file. Run again it goes through, and
      commits a ledger in which a character that belonged to the first episode belongs to none. */
  lemma TornPlanLosesText()
    ensures var s, t := Legacy("abc", "de"), LastCharacter();
            && CommitPlan(Source(), s, t).Done? && Covered(CommitPlan(Source(), s, t).store.project.episodes, "a", 2)
            && CrashOf(Writing(0, Some("ab")), PlanWritten(Source(), s, t))
            && var stopped := PlanStopped(Source(), s, t, Writing(0, Some("ab")));
               && Discovered(stopped.files) <= NumsOf(s.project.episodes)
               && CommitPlan(Source(), stopped, t).Done?
               && !Covered(CommitPlan(Source(), stopped, t).store.project.episodes, "a", 2)
  {
    hide Backfill, CommitPlan, PlanWritten, NumsOf;
    TornLedger();
    PlanCommits(3, "abc");
    PlanCommits(2, "ab");
    LegacyNumbers(Waiting(1), Waiting(2));
    var s, t := Legacy("abc", "de"), LastCharacter();
    assert map[1 := "abc", 2 := "de"][1 := "ab"] == map[1 := "ab", 2 := "de"];
    assert PlanWritten(Source(), s, t)[..0] == [];
    assert PlanStopped(Source(), s, t, Writing(0, Some("ab"))) == Legacy("ab", "de");
    var p := [Anchored(1, 0, 3), Anchored(2, 3, 5), ThirdRow()];
    assert p[0].range.Some? && p[0].range.value.start <= 2 < p[0].range.value.end;
  }
}
