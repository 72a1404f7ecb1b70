/** A commit keeps ledger and derived files in step: the files are a function of the ledger, and the
    committed ledger is a fixed point of backfill. */
module CommitLaws {
  import opened Options
  import opened SortedSets
  import opened EpisodeLedger
  import opened BackfillLaws
  import opened Planner

  // ---------- files follow the ledger ----------

  /** The last row numbered `n` whose file a commit rewrites. */
  ghost function LastRewritten(eps: seq<Entry>, n: int): Option<Entry> {
    if |eps| == 0 then None
    else
      var later := LastRewritten(eps[1..], n);
      if later.Some? then later
      else if Rewritten(eps[0]) && eps[0].num == Some(n) then Some(eps[0]) else None
  }

  ghost function Lookup<V>(m: map<int, V>, n: int): Option<V> {
    if n in m then Some(m[n]) else None
  }

  lemma {:induction false} WritesLandOnce(env: Env, cache: map<string, string>, eps: seq<Entry>,
                                          files: map<int, string>, n: int)
    requires CollectWrites(env, cache, eps).Ok?
    ensures var e := LastRewritten(eps, n);
            Lookup(ApplyWrites(files, CollectWrites(env, cache, eps).value), n) ==
              if e.Some? then EntryText(env, cache, e.value) else Lookup(files, n)
    ensures LastRewritten(eps, n).Some? ==> EntryText(env, cache, LastRewritten(eps, n).value).Some?
  {
    if |eps| > 0 {
      var rest := CollectWrites(env, cache, eps[1..]);
      if Rewritten(eps[0]) {
        var w := (eps[0].num.value, EntryText(env, cache, eps[0]).value);
        assert CollectWrites(env, cache, eps).value == [w] + rest.value;
        assert ([w] + rest.value)[1..] == rest.value;
        WritesLandOnce(env, cache, eps[1..], files[w.0 := w.1], n);
      } else {
        WritesLandOnce(env, cache, eps[1..], files, n);
      }
    }
  }

  lemma {:induction false} LastRewrittenIsARow(eps: seq<Entry>, n: int)
    ensures var e := LastRewritten(eps, n);
            if e.Some? then e.value in eps && Rewritten(e.value) && e.value.num == Some(n)
            else forall i :: 0 <= i < |eps| ==> !(Rewritten(eps[i]) && eps[i].num == Some(n))
  {
    if |eps| > 0 {
      LastRewrittenIsARow(eps[1..], n);
    }
  }

  /** Every rewritten row finds its own text in its derived file. */
  ghost predicate FilesMatch(env: Env, cache: map<string, string>, eps: seq<Entry>, files: map<int, string>) {
    forall i :: 0 <= i < |eps| && Rewritten(eps[i]) ==>
      Lookup(files, eps[i].num.value) == EntryText(env, cache, eps[i])
  }

  /** Rewritten rows that share a number share their text. */
  ghost predicate TwinsAgree(env: Env, cache: map<string, string>, eps: seq<Entry>) {
    forall i, j ::
      0 <= i < |eps| && 0 <= j < |eps| && Rewritten(eps[i]) && Rewritten(eps[j]) && eps[i].num == eps[j].num ==>
      EntryText(env, cache, eps[i]) == EntryText(env, cache, eps[j])
  }

  /** What a successful commit leaves on disk. No discovered file is without a row; a file no row rewrites is
      kept byte for byte if it has a row, else removed; and every rewritten row's file equals its source slice
      exactly when no two rewritten rows fight over one file. */
  lemma CommitRefinesLedger(env: Env, cache: map<string, string>, s: Store, p: Project, exhausted: bool)
    requires Install(env, cache, s, p, exhausted).Done?
    ensures var s' := Install(env, cache, s, p, exhausted).store;
            && Discovered(s'.files) <= NumsOf(p.episodes)
            && (forall n :: LastRewritten(p.episodes, n).None? ==>
                  Lookup(s'.files, n) == if n in NumsOf(p.episodes) || n < 0 then Lookup(s.files, n) else None)
            && (FilesMatch(env, cache, p.episodes, s'.files) <==> TwinsAgree(env, cache, p.episodes))
  {
    var eps := p.episodes;
    var s' := Install(env, cache, s, p, exhausted).store;
    var writes := CollectWrites(env, cache, eps).value;
    forall n ensures var e := LastRewritten(eps, n);
                     Lookup(s'.files, n) ==
                       if e.Some? then EntryText(env, cache, e.value)
                       else if n in NumsOf(eps) || n < 0 then Lookup(s.files, n) else None
    {
      WritesLandOnce(env, cache, eps, s.files, n);
      LastRewrittenIsARow(eps, n);
    }
    forall i | 0 <= i < |eps| && Rewritten(eps[i])
      ensures exists j :: 0 <= j < |eps| && Rewritten(eps[j]) && eps[j].num == eps[i].num
                && Lookup(s'.files, eps[i].num.value) == EntryText(env, cache, eps[j])
    {
      var n := eps[i].num.value;
      LastRewrittenIsARow(eps, n);
      var e := LastRewritten(eps, n).value;
      var j :| 0 <= j < |eps| && eps[j] == e;
    }
  }

  /** A commit that fails validation names a row it could not write, and refusing has no store to install. */
  lemma {:induction false} RefusedCommitNamesARow(env: Env, cache: map<string, string>, eps: seq<Entry>)
    ensures CollectWrites(env, cache, eps).Err? <==>
              exists i :: 0 <= i < |eps| && Rewritten(eps[i]) && EntryText(env, cache, eps[i]).None?
    ensures CollectWrites(env, cache, eps).Err? ==>
              exists i :: 0 <= i < |eps| && Rewritten(eps[i]) && EntryText(env, cache, eps[i]).None?
                && eps[i].num == Some(CollectWrites(env, cache, eps).error)
  {
    if |eps| > 0 {
      RefusedCommitNamesARow(env, cache, eps[1..]);
      if Rewritten(eps[0]) && EntryText(env, cache, eps[0]).None? {
      } else {
        if exists i :: 0 <= i < |eps| && Rewritten(eps[i]) && EntryText(env, cache, eps[i]).None? {
          var i :| 0 <= i < |eps| && Rewritten(eps[i]) && EntryText(env, cache, eps[i]).None?;
          assert eps[1..][i - 1] == eps[i];
        }
      }
    }
  }

  // ---------- the committed ledger is a fixed point of backfill ----------

  /** Every first row of a number has a status. */
  ghost predicate FirstsHaveStatus(eps: seq<Entry>) {
    forall n :: FirstOf(eps, n).Some? ==> FirstOf(eps, n).value.status.Some?
  }

  lemma FirstsAndPending(eps: seq<Entry>)
    ensures FirstsHaveStatus(eps) <==> NothingPending(eps)
  {
    forall n ensures FirstOf(eps, n).Some? <==> n in NumsOf(eps) {
      FirstIsAtIndex(eps, n);
      MemberIsIndexed(eps, n);
    }
    forall n ensures FirstOf(eps, n).Some? ==> FirstOf(eps, n).value == eps[IndexOf(eps, n)] {
      FirstIsAtIndex(eps, n);
    }
  }

  lemma {:induction false} FirstOfConcat(a: seq<Entry>, b: seq<Entry>, n: int)
    ensures FirstOf(a + b, n) == if FirstOf(a, n).Some? then FirstOf(a, n) else FirstOf(b, n)
  {
    if |a| == 0 {
      assert a + b == b;
    } else {
      assert (a + b)[1..] == a[1..] + b;
      FirstOfConcat(a[1..], b, n);
    }
  }

  lemma ArrangeKeepsFirst(eps: seq<Entry>, n: int)
    ensures FirstOf(Arrange(eps), n) == FirstOf(eps, n)
  {
    if AllNumbered(eps) {
      SortKeepsFirst(eps, n);
    }
  }

  lemma ArrangeTwice(eps: seq<Entry>)
    ensures Arrange(Arrange(eps)) == Arrange(eps)
  {
    if AllNumbered(eps) {
      SortSorts(eps);
      SortFixesSorted(Sort(eps));
    }
  }

  lemma {:induction false} FirstOfUnaffected(eps: seq<Entry>, nums: set<int>, n: int)
    ensures FirstOf(Unaffected(eps, nums), n) == if n in nums then None else FirstOf(eps, n)
  {
    if |eps| > 0 {
      FirstOfUnaffected(eps[1..], nums, n);
      if !(eps[0].num.Some? && eps[0].num.value in nums) {
        assert Unaffected(eps, nums)[1..] == Unaffected(eps[1..], nums);
      }
    }
  }

  lemma {:induction false} NewRowsHaveStatus(rows: seq<Entry>, n: int)
    requires forall i :: 0 <= i < |rows| ==> rows[i].status.Some?
    ensures FirstOf(rows, n).Some? ==> FirstOf(rows, n).value.status.Some?
  {
    if |rows| > 0 {
      NewRowsHaveStatus(rows[1..], n);
    }
  }

  lemma {:induction false} PlanRowsHaveStatus(drafts: seq<Draft>, ends: seq<nat>, num: int, rel: string, start: int,
                                              prev: int)
    requires |drafts| == |ends|
    ensures forall i :: 0 <= i < |drafts| ==> PlanRows(drafts, ends, num, rel, start, prev)[i].status == Some(Planned)
  {
    if |drafts| > 0 {
      PlanRowsHaveStatus(drafts[1..], ends[1..], num + 1, rel, start, start + ends[0]);
    }
  }

  lemma {:induction false} ReplanRowsHaveStatus(affected: seq<Entry>, planned: seq<PlannedEpisode>, n: int)
    ensures forall i :: 0 <= i < |planned| ==> ReplanRows(affected, planned, n)[i].status.Some?
  {
    if |planned| > 0 {
      ReplanRowsHaveStatus(affected, planned[1..], n + 1);
    }
  }

  /** A settled ledger whose files all have rows is left alone by backfill once it has a cursor. */
  lemma InstalledIsFixed(env: Env, cache: map<string, string>, s: Store, p: Project, exhausted: bool)
    requires Install(env, cache, s, p, exhausted).Done?
    requires p.cursor.Some? && Arrange(p.episodes) == p.episodes && FirstsHaveStatus(p.episodes)
    ensures Backfilled(env, Install(env, cache, s, p, exhausted).store) == p
  {
    CommitRefinesLedger(env, cache, s, p, exhausted);
    var s' := Install(env, cache, s, p, exhausted).store;
    FirstsAndPending(p.episodes);
    var none := Discovered(s'.files) - NumsOf(p.episodes);
    assert none == {};
    assert p.episodes + OrphanEntries(Ascending(none)) == p.episodes;
  }

  lemma BackfilledFirstsHaveStatus(env: Env, s: Store)
    ensures FirstsHaveStatus(Backfilled(env, s).episodes)
  {
    SettledLeavesNothingPending(s.project, DiskOf(env, s));
    FirstsAndPending(Backfilled(env, s).episodes);
  }

  /** After a plan commit, backfill finds nothing to do. */
  lemma PlanCommitIsFixed(env: Env, s: Store, t: PlanTicket)
    requires TicketShape(t) && CommitPlan(env, s, t).Done?
    ensures Backfilled(env, CommitPlan(env, s, t).store) == CommitPlan(env, s, t).store.project
  {
    var p := Backfilled(env, s);
    var rows := PlanRows(t.drafts, t.ends, NextNum(p.episodes), t.rel, t.start, t.start);
    var p' := PlannedLedger(p, t);
    BackfilledFirstsHaveStatus(env, s);
    PlanRowsHaveStatus(t.drafts, t.ends, NextNum(p.episodes), t.rel, t.start, t.start);
    forall n | FirstOf(p'.episodes, n).Some? ensures FirstOf(p'.episodes, n).value.status.Some? {
      ArrangeKeepsFirst(p.episodes + rows, n);
      FirstOfConcat(p.episodes, rows, n);
      NewRowsHaveStatus(rows, n);
    }
    ArrangeTwice(p.episodes + rows);
    InstalledIsFixed(env, map[t.rel := t.text], s, p', PlanExhausts(env, t));
  }

  /** Backfill that ends without a cursor has met no range. */
  lemma NoCursorMeansNoRanges(p: Project, disk: Disk)
    requires Backfill(p, disk).cursor.None?
    ensures forall n :: FirstOf(Backfill(p, disk).episodes, n).Some? ==>
              FirstOf(Backfill(p, disk).episodes, n).value.range.None?
  {
    var rows, r := WithOrphans(p.episodes, disk.files), Backfill(p, disk);
    var keys := Ascending(NumsOf(rows));
    BackfillIsSound(p, disk);
    NoEndMeansNoRange(disk, keys, FreshWalk(disk, rows));
    forall n | FirstOf(r.episodes, n).Some? ensures FirstOf(r.episodes, n).value.range.None? {
      FirstIsAtIndex(r.episodes, n);
      MemberIsIndexed(r.episodes, n);
      NumsDependOnNums(rows, r.episodes);
      IndexDependsOnNums(rows, r.episodes, n);
    }
  }

  lemma {:induction false} FirstIsAMember(eps: seq<Entry>, n: int)
    ensures FirstOf(eps, n).Some? ==> FirstOf(eps, n).value in eps && FirstOf(eps, n).value.num == Some(n)
    ensures (exists e :: e in eps && e.num == Some(n)) ==> FirstOf(eps, n).Some?
  {
    if |eps| > 0 {
      FirstIsAMember(eps[1..], n);
    }
  }

  lemma {:induction false} FromNumIsTheTail(eps: seq<Entry>, from: int, e: Entry)
    ensures e in FromNum(eps, from) <==> e in eps && e.num.Some? && e.num.value >= from
  {
    if |eps| > 0 {
      FromNumIsTheTail(eps[1..], from, e);
    }
  }

  lemma AffectedIsTheTail(eps: seq<Entry>, from: int, e: Entry)
    ensures e in Affected(eps, from) <==> e in eps && e.num.Some? && e.num.value >= from
  {
    SortSorts(FromNum(eps, from));
    assert e in multiset(Affected(eps, from)) <==> e in multiset(FromNum(eps, from));
    FromNumIsTheTail(eps, from, e);
  }

  /** A replan scope only holds rows with ranges. */
  lemma {:induction false} MergedRowsHaveRanges(pieces: seq<Piece>, rows: seq<Entry>)
    requires AllNumbered(rows) && MergeRows(pieces, rows).Ok?
    ensures forall i :: 0 <= i < |rows| ==> rows[i].range.Some? && rows[i].range.value.start < rows[i].range.value.end
    decreases |rows|
  {
    if |rows| > 0 {
      MergedRowsHaveRanges(AddRow(pieces, rows[0]).value, rows[1..]);
    }
  }

  /** After a replan commit, backfill finds nothing to do. */
  lemma ReplanCommitIsFixed(env: Env, s: Store, t: ReplanTicket)
    requires CommitReplan(env, s, t).Done?
    ensures Backfilled(env, CommitReplan(env, s, t).store) == CommitReplan(env, s, t).store.project
  {
    var p := Backfilled(env, s);
    var affected := ReplanScope(p, t.from).value.affected;
    var rows := ReplanRows(affected, t.planned, t.from);
    var kept := Unaffected(p.episodes, NumsOf(affected));
    var p' := ReplannedLedger(p, affected, t);
    BackfilledFirstsHaveStatus(env, s);
    ReplanRowsHaveStatus(affected, t.planned, t.from);
    forall n | FirstOf(p'.episodes, n).Some? ensures FirstOf(p'.episodes, n).value.status.Some? {
      ArrangeKeepsFirst(kept + rows, n);
      FirstOfConcat(kept, rows, n);
      FirstOfUnaffected(p.episodes, NumsOf(affected), n);
      NewRowsHaveStatus(rows, n);
    }
    ArrangeTwice(kept + rows);
    if p.cursor.None? {
      NoCursorMeansNoRanges(s.project, DiskOf(env, s));
      MergedRowsHaveRanges([], affected);
      FirstIsAMember(p.episodes, t.from);
      AffectedIsTheTail(p.episodes, t.from, affected[0]);
      var first := FirstOf(p.episodes, t.from).value;
      AffectedIsTheTail(p.episodes, t.from, first);
      assert false;
    }
    InstalledIsFixed(env, t.texts, s, p', false);
  }
}
