/** What backfill can tell of the derived files: two disks give the same rows exactly when the same files lack a row,
    and the files of the rows still to settle hold the same text, as far as it stands in a source. */
module BackfillSees {
  import opened Options
  import opened SourceText
  import opened SortedSets
  import opened EpisodeLedger
  import opened BackfillLaws
  import opened Planner
  import opened CommitLaws

  /** Some source holds the text. */
  ghost predicate InSources(docs: seq<Doc>, text: string) {
    text != "" && exists d, i :: 0 <= d < |docs| && OccursAt(docs[d].text, text, i)
  }

  ghost predicate SameText(docs: seq<Doc>, a: string, b: string) {
    a == b || (!InSources(docs, a) && !InSources(docs, b))
  }

  /** The first row of a number waits for backfill. */
  ghost predicate PendingIn(rows: seq<Entry>, n: int) {
    FirstOf(rows, n).Some? && FirstOf(rows, n).value.status.None?
  }

  /** The disks differ at most in derived files and remainder. */
  ghost predicate SameProject(a: Disk, b: Disk) {
    b == a.(files := b.files, remaining := b.remaining)
  }

  ghost predicate LooksSame(p: Project, a: Disk, b: Disk) {
    && Discovered(b.files) - NumsOf(p.episodes) == Discovered(a.files) - NumsOf(p.episodes)
    && forall n :: PendingIn(WithOrphans(p.episodes, a.files), n) ==>
         SameText(a.docs, FileText(a, n), FileText(b, n))
  }

  /** The range of the first row of a number, if there is such a row. */
  ghost function FirstRange(eps: seq<Entry>, n: int): Option<Option<SourceRange>> {
    var e := FirstOf(eps, n);
    if e.Some? then Some(e.value.range) else None
  }

  // ---------- the search misses nothing ----------

  lemma {:induction false} OthersHasAll(n: nat, except: nat, d: nat)
    requires d < n && d != except
    ensures d in Others(n, except)
  {
    if d < n - 1 {
      OthersHasAll(n - 1, except, d);
    }
  }

  lemma {:induction false} FirstHitMisses(docs: seq<Doc>, froms: seq<nat>, order: seq<nat>, needle: string, d: nat,
                                          i: int)
    requires |froms| == |docs| && forall k :: 0 <= k < |order| ==> order[k] < |docs|
    requires FirstHit(docs, froms, order, needle).None? && d in order && froms[d] <= i
    ensures !OccursAt(docs[d].text, needle, i)
  {
    if order[0] == d {
      FindIsFirst(docs[d].text, needle, froms[d]);
    } else {
      FirstHitMisses(docs, froms, order[1..], needle, d, i);
    }
  }

  lemma SearchFinds(docs: seq<Doc>, cursors: seq<nat>, needle: string, preferred: Option<nat>)
    requires |cursors| == |docs| && (preferred.Some? ==> preferred.value < |docs|)
    ensures FindInSources(docs, cursors, needle, preferred).Some? <==>
              exists d, i :: 0 <= d < |docs| && OccursAt(docs[d].text, needle, i)
  {
    hide OccursAt, FirstHit;
    var order := SearchOrder(|docs|, preferred);
    if FindInSources(docs, cursors, needle, preferred).None? {
      forall d, i | 0 <= d < |docs| ensures !OccursAt(docs[d].text, needle, i) {
        if preferred.Some? && preferred.value != d {
          OthersHasAll(|docs|, preferred.value, d);
        }
        assert d in order by {
          if preferred.None? { assert order[d] == d; }
        }
        if i >= 0 {
          FirstHitMisses(docs, Zeros(|docs|), order, needle, d, i);
        } else {
          NegativeNever(docs[d].text, needle, i);
        }
      }
    }
  }

  lemma NegativeNever(hay: string, needle: string, i: int)
    requires i < 0
    ensures !OccursAt(hay, needle, i)
  {
  }

  // ---------- the same walk ----------

  lemma SameVisit(a: Disk, b: Disk, n: int, w: Walk)
    requires SameProject(a, b) && WalkOk(a, w)
    requires PendingIn(w.episodes, n) ==> SameText(a.docs, FileText(a, n), FileText(b, n))
    ensures Visit(b, n, w) == Visit(a, n, w)
  {
    hide FindInSources, FileText;
    FirstIsAtIndex(w.episodes, n);
    var s, t := FileText(a, n), FileText(b, n);
    SearchFinds(a.docs, w.cursors, s, w.lastDoc);
    SearchFinds(a.docs, w.cursors, t, w.lastDoc);
  }

  /** A visit leaves no row pending that was not. */
  lemma VisitSettlesMore(disk: Disk, n: int, w: Walk, k: int)
    requires WalkOk(disk, w) && PendingIn(Visit(disk, n, w).episodes, k)
    ensures PendingIn(w.episodes, k)
  {
    hide Visit, Settles;
    var v := Visit(disk, n, w);
    VisitSettlesOneRow(disk, n, w);
    FirstIsAtIndex(w.episodes, k);
    FirstIsAtIndex(v.episodes, k);
    IndexDependsOnNums(w.episodes, v.episodes, k);
    var i := IndexOf(w.episodes, k);
    if i == IndexOf(w.episodes, n) {
      SettledRowHasStatus(disk, n, w.episodes[i], v.episodes[i]);
    }
  }

  lemma {:induction false} SameWalk(a: Disk, b: Disk, keys: seq<int>, w: Walk)
    requires SameProject(a, b) && WalkOk(a, w)
    requires forall n :: PendingIn(w.episodes, n) ==> SameText(a.docs, FileText(a, n), FileText(b, n))
    ensures VisitAll(b, keys, w) == VisitAll(a, keys, w)
    decreases |keys|
  {
    hide Visit, PendingIn, SameText, FileText;
    if |keys| > 0 {
      SameVisit(a, b, keys[0], w);
      var v := Visit(a, keys[0], w);
      forall n | PendingIn(v.episodes, n) ensures SameText(a.docs, FileText(a, n), FileText(b, n)) {
        VisitSettlesMore(a, keys[0], w, n);
      }
      SameWalk(a, b, keys[1..], v);
    }
  }

  /** Disks that look the same give the same rows, and the same cursor unless it comes from a remainder that differs. */
  lemma SameRowsSeen(p: Project, a: Disk, b: Disk)
    requires SameProject(a, b) && LooksSame(p, a, b)
    ensures Backfill(p, b).episodes == Backfill(p, a).episodes
    ensures p.cursor.Some? || b.remaining == a.remaining ==> Backfill(p, b) == Backfill(p, a)
  {
    hide NothingPending, Arrange, PendingIn, SameText, FindInSources, FileText;
    var rows := WithOrphans(p.episodes, a.files);
    assert WithOrphans(p.episodes, b.files) == rows;
    SameWalk(a, b, Ascending(NumsOf(rows)), FreshWalk(a, rows));
  }

  // ---------- different texts show ----------

  /** A pending row is anchored exactly when some source holds its file's text. */
  lemma {:induction false} PendingRowIsAnchored(disk: Disk, keys: seq<int>, w: Walk, n: int)
    requires WalkOk(disk, w) && n in keys && PendingIn(w.episodes, n)
    ensures IndexOf(w.episodes, n) < |w.episodes|
    ensures VisitAll(disk, keys, w).episodes[IndexOf(w.episodes, n)].range.Some? <==>
              InSources(disk.docs, FileText(disk, n))
    decreases |keys|
  {
    hide InSources, FileText, Settles, FirstAmong;
    FirstIsAtIndex(w.episodes, n);
    var v, i := Visit(disk, keys[0], w), IndexOf(w.episodes, n);
    VisitSettlesOneRow(disk, keys[0], w);
    IndexDependsOnNums(w.episodes, v.episodes, n);
    if keys[0] == n {
      VisitedRow(disk, n, w);
      SettledStays(disk, keys[1..], v, n);
    } else {
      FirstIsAtIndex(v.episodes, n);
      OtherIndex(w.episodes, keys[0], n);
      PendingRowIsAnchored(disk, keys[1..], v, n);
    }
  }

  lemma OtherIndex(eps: seq<Entry>, k: int, n: int)
    requires k != n && IndexOf(eps, n) < |eps|
    ensures IndexOf(eps, k) != IndexOf(eps, n)
  {
    assert eps[IndexOf(eps, n)].num == Some(n);
  }

  lemma VisitedRow(disk: Disk, n: int, w: Walk)
    requires WalkOk(disk, w) && PendingIn(w.episodes, n)
    ensures var i, v := IndexOf(w.episodes, n), Visit(disk, n, w);
            && i < |w.episodes| && v.episodes[i].status.Some?
            && (v.episodes[i].range.Some? <==> InSources(disk.docs, FileText(disk, n)))
  {
    hide FindInSources, FileText;
    FirstIsAtIndex(w.episodes, n);
    SearchFinds(disk.docs, w.cursors, FileText(disk, n), w.lastDoc);
  }

  lemma SettledStays(disk: Disk, keys: seq<int>, w: Walk, n: int)
    requires WalkOk(disk, w)
    requires IndexOf(w.episodes, n) < |w.episodes| && w.episodes[IndexOf(w.episodes, n)].status.Some?
    ensures VisitAll(disk, keys, w).episodes[IndexOf(w.episodes, n)] == w.episodes[IndexOf(w.episodes, n)]
  {
    hide VisitAll;
    var i := IndexOf(w.episodes, n);
    VisitAllSettlesFirstRows(disk, keys, w);
    if FirstAmong(w.episodes, keys, i) {
      var k :| k in keys && IndexOf(w.episodes, k) == i;
      assert w.episodes[i].num == Some(k);
    }
  }

  /** What backfill makes of a pending row. */
  lemma PendingRowAfter(p: Project, disk: Disk, n: int)
    requires PendingIn(WithOrphans(p.episodes, disk.files), n)
    ensures FirstOf(Backfill(p, disk).episodes, n).Some?
    ensures var r := FirstOf(Backfill(p, disk).episodes, n).value.range;
            && (r.Some? <==> InSources(disk.docs, FileText(disk, n)))
            && (r.Some? ==> exists d, start :: RangeOfText(disk, n, r.value, d, start))
  {
    hide Backfill, InSources, FileText, WithOrphans, VisitAll;
    var rows, r := WithOrphans(p.episodes, disk.files), Backfill(p, disk).episodes;
    BackfillIsSound(p, disk);
    FirstIsAtIndex(rows, n);
    FirstIsAtIndex(r, n);
    MemberIsIndexed(rows, n);
    IndexDependsOnNums(rows, r, n);
    PendingIsWalked(p, disk, n);
    PendingRowIsAnchored(disk, Ascending(NumsOf(rows)), FreshWalk(disk, rows), n);
    var i := IndexOf(rows, n);
    if r[i].range.Some? {
      assert r[i] != EpisodeLedger.Lost(rows[i]);
      var d, start :| Placed(disk, n, rows[i], r[i], d, start);
      assert RangeOfText(disk, n, r[i].range.value, d, start);
    }
  }

  lemma PendingIsWalked(p: Project, disk: Disk, n: int)
    requires PendingIn(WithOrphans(p.episodes, disk.files), n)
    ensures var rows := WithOrphans(p.episodes, disk.files);
            Backfill(p, disk).episodes == VisitAll(disk, Ascending(NumsOf(rows)), FreshWalk(disk, rows)).episodes
  {
    hide WithOrphans, VisitAll, DeriveCursor;
    var rows := WithOrphans(p.episodes, disk.files);
    FirstIsAtIndex(rows, n);
    MemberIsIndexed(rows, n);
  }

  ghost predicate RangeOfText(disk: Disk, n: int, r: SourceRange, d: nat, start: nat) {
    && d < |disk.docs| && OccursAt(disk.docs[d].text, FileText(disk, n), start)
    && r == SourceRange(disk.docs[d].rel, start, start + |FileText(disk, n)|)
  }

  lemma RangeTellsText(a: Disk, b: Disk, n: int, r: SourceRange, d: nat, start: nat, d': nat, start': nat)
    requires DistinctDocs(a.docs) && a.docs == b.docs
    requires RangeOfText(a, n, r, d, start) && RangeOfText(b, n, r, d', start')
    ensures FileText(a, n) == FileText(b, n)
  {
    hide FileText;
    DocIndexOfDoc(a.docs, d);
    DocIndexOfDoc(a.docs, d');
  }

  lemma PendingTextShows(p: Project, a: Disk, b: Disk, n: int)
    requires SameProject(a, b) && DistinctDocs(a.docs)
    requires WithOrphans(p.episodes, b.files) == WithOrphans(p.episodes, a.files)
    requires PendingIn(WithOrphans(p.episodes, a.files), n)
    requires FirstRange(Backfill(p, b).episodes, n) == FirstRange(Backfill(p, a).episodes, n)
    ensures SameText(a.docs, FileText(a, n), FileText(b, n))
  {
    hide Backfill, WithOrphans, InSources, FileText, RangeOfText, PendingIn;
    PendingRowAfter(p, a, n);
    PendingRowAfter(p, b, n);
    var r := FirstOf(Backfill(p, a).episodes, n).value.range;
    if r.Some? {
      var d, start :| RangeOfText(a, n, r.value, d, start);
      var d', start' :| RangeOfText(b, n, r.value, d', start');
      RangeTellsText(a, b, n, r.value, d, start, d', start');
    }
  }

  /** The numbers of the rows backfill returns. */
  lemma NumbersSeen(p: Project, disk: Disk)
    ensures NumsOf(Backfill(p, disk).episodes) == NumsOf(p.episodes) + Discovered(disk.files)
  {
    hide Backfill, NumsOf, Discovered, WithOrphans;
    var rows := WithOrphans(p.episodes, disk.files);
    BackfillIsSound(p, disk);
    NumsDependOnNums(rows, Backfill(p, disk).episodes);
    OrphanNumbers(p.episodes, disk.files);
  }

  lemma OrphanNumbers(eps: seq<Entry>, files: map<int, string>)
    ensures NumsOf(WithOrphans(eps, files)) == NumsOf(eps) + Discovered(files)
  {
    hide Arrange, Ascending;
    WithOrphansKeepsRows(eps, files);
    var orphans := OrphanEntries(Ascending(Discovered(files) - NumsOf(eps)));
    var rows := WithOrphans(eps, files);
    forall n | n in NumsOf(rows) ensures n in NumsOf(eps) || n in Discovered(files) {
      var e :| e in rows && e.num == Some(n);
      assert e in multiset(rows);
      assert e in eps || e in orphans;
      if e in orphans {
        var i :| 0 <= i < |orphans| && orphans[i] == e;
        assert n in Ascending(Discovered(files) - NumsOf(eps));
      } else {
        assert e in eps;
      }
    }
    forall n | n in NumsOf(eps) ensures n in NumsOf(rows) {
      var e :| e in eps && e.num == Some(n);
      assert e in multiset(rows);
      assert e in rows;
    }
  }

  lemma FirstsTellNumbers(x: seq<Entry>, y: seq<Entry>)
    requires forall n :: FirstRange(x, n) == FirstRange(y, n)
    ensures NumsOf(x) == NumsOf(y)
  {
    hide FirstOf;
    forall n ensures n in NumsOf(x) <==> n in NumsOf(y) {
      assert FirstRange(x, n) == FirstRange(y, n);
      FirstIsAMember(x, n);
      FirstIsAMember(y, n);
    }
  }

  /** Exactly: backfill anchors the first rows of all numbers alike if and only if the disks look the same. */
  lemma SeenExactly(p: Project, a: Disk, b: Disk)
    requires SameProject(a, b) && DistinctDocs(a.docs)
    ensures LooksSame(p, a, b) <==>
              forall n :: FirstRange(Backfill(p, b).episodes, n) == FirstRange(Backfill(p, a).episodes, n)
  {
    hide Backfill, NumsOf, Discovered, Arrange, PendingIn, SameText, FileText, FirstRange;
    if LooksSame(p, a, b) {
      SameRowsSeen(p, a, b);
    }
    if forall n :: FirstRange(Backfill(p, b).episodes, n) == FirstRange(Backfill(p, a).episodes, n) {
      FirstsTellNumbers(Backfill(p, b).episodes, Backfill(p, a).episodes);
      NumbersSeen(p, a);
      NumbersSeen(p, b);
      assert Discovered(b.files) - NumsOf(p.episodes) == Discovered(a.files) - NumsOf(p.episodes);
      forall n | PendingIn(WithOrphans(p.episodes, a.files), n)
        ensures SameText(a.docs, FileText(a, n), FileText(b, n))
      {
        PendingTextShows(p, a, b, n);
      }
    }
  }
}
