/** What backfill promises: it only fills in pending rows, truthfully; running it again changes
    nothing; and with one source its greedy search finds a layout whenever there is one. */
module BackfillLaws {
  import opened Options
  import opened SourceText
  import opened SortedSets
  import opened EpisodeLedger

  ghost predicate SameNums(a: seq<Entry>, b: seq<Entry>) {
    |a| == |b| && forall i :: 0 <= i < |a| ==> a[i].num == b[i].num
  }

  lemma IndexDependsOnNums(a: seq<Entry>, b: seq<Entry>, n: int)
    requires SameNums(a, b)
    ensures IndexOf(a, n) == IndexOf(b, n)
  {
  }

  lemma NumsDependOnNums(a: seq<Entry>, b: seq<Entry>)
    requires SameNums(a, b)
    ensures NumsOf(a) == NumsOf(b)
  {
    forall n ensures n in NumsOf(a) <==> n in NumsOf(b) {
      MemberIsIndexed(a, n);
      MemberIsIndexed(b, n);
      IndexDependsOnNums(a, b, n);
    }
  }

  lemma MemberIsIndexed(eps: seq<Entry>, n: int)
    ensures n in NumsOf(eps) <==> IndexOf(eps, n) < |eps|
  {
    if n in NumsOf(eps) {
      var e :| e in eps && e.num == Some(n);
      var i :| 0 <= i < |eps| && eps[i] == e;
    }
  }

  // ---------- soundness ----------

  /** `after` is `before` anchored where its file's text really stands in source file `d`. */
  ghost predicate Placed(disk: Disk, n: int, before: Entry, after: Entry, d: nat, start: nat) {
    && d < |disk.docs|
    && FileText(disk, n) != ""
    && OccursAt(disk.docs[d].text, FileText(disk, n), start)
    && after == AnchoredAt(disk, n, before, disk.docs[d].rel, start, start + |FileText(disk, n)|)
  }

  /** What backfill may do to the row of number `n` that is first with its number. */
  ghost predicate Settles(disk: Disk, n: int, before: Entry, after: Entry) {
    if before.status.Some? then after == before
    else after == Lost(before) || exists d, start :: Placed(disk, n, before, after, d, start)
  }

  lemma VisitSettlesOneRow(disk: Disk, n: int, w: Walk)
    requires WalkOk(disk, w)
    ensures var w', i := Visit(disk, n, w), IndexOf(w.episodes, n);
            && SameNums(w.episodes, w'.episodes)
            && (i < |w.episodes| ==> Settles(disk, n, w.episodes[i], w'.episodes[i]))
            && forall j :: 0 <= j < |w.episodes| && j != i ==> w'.episodes[j] == w.episodes[j]
  {
    var i := IndexOf(w.episodes, n);
    if i < |w.episodes| && w.episodes[i].status.None? {
      var text := FileText(disk, n);
      if text != "" {
        var hit := FindInSources(disk.docs, w.cursors, text, w.lastDoc);
        if hit.Some? {
          assert Placed(disk, n, w.episodes[i], Visit(disk, n, w).episodes[i], hit.value.doc, hit.value.start);
        }
      }
    }
  }

  /** Row `i` is the first row of one of the numbers in `keys`. */
  ghost predicate FirstAmong(eps: seq<Entry>, keys: seq<int>, i: nat) {
    exists k :: k in keys && IndexOf(eps, k) == i
  }

  lemma {:induction false} VisitAllSettlesFirstRows(disk: Disk, keys: seq<int>, w: Walk)
    requires WalkOk(disk, w)
    ensures var w' := VisitAll(disk, keys, w);
            && SameNums(w.episodes, w'.episodes)
            && (forall i :: 0 <= i < |w.episodes| && !FirstAmong(w.episodes, keys, i) ==>
                w'.episodes[i] == w.episodes[i])
            && (forall k :: k in keys && IndexOf(w.episodes, k) < |w.episodes| ==>
                  Settles(disk, k, w.episodes[IndexOf(w.episodes, k)], w'.episodes[IndexOf(w.episodes, k)]))
  {
    if |keys| > 0 {
      var v := Visit(disk, keys[0], w);
      var w' := VisitAll(disk, keys, w);
      VisitSettlesOneRow(disk, keys[0], w);
      VisitAllSettlesFirstRows(disk, keys[1..], v);
      forall k ensures IndexOf(v.episodes, k) == IndexOf(w.episodes, k) {
        IndexDependsOnNums(w.episodes, v.episodes, k);
      }
      forall i | 0 <= i < |w.episodes| && !FirstAmong(w.episodes, keys, i)
        ensures w'.episodes[i] == w.episodes[i]
      {
        assert keys[0] in keys;
        assert forall k :: k in keys[1..] ==> k in keys;
      }
      forall k | k in keys && IndexOf(w.episodes, k) < |w.episodes|
        ensures Settles(disk, k, w.episodes[IndexOf(w.episodes, k)], w'.episodes[IndexOf(w.episodes, k)])
      {
        var i := IndexOf(w.episodes, k);
        if k in keys[1..] {
          if k == keys[0] && w.episodes[i].status.None? {
            assert w'.episodes[i] == v.episodes[i];
          } else if k != keys[0] {
            assert w.episodes[i].num == Some(k) && i != IndexOf(w.episodes, keys[0]);
          }
        } else {
          assert k == keys[0];
          forall m | m in keys[1..] ensures IndexOf(v.episodes, m) != i {
            assert m != k && v.episodes[i].num == Some(k);
          }
        }
      }
    }
  }

  lemma ArrangeKeepsRows(all: seq<Entry>)
    ensures multiset(Arrange(all)) == multiset(all)
    ensures AllNumbered(Arrange(all)) ==> InOrder(Arrange(all))
  {
    if AllNumbered(all) {
      SortSorts(all);
    }
  }

  lemma EveryFileHasARow(eps: seq<Entry>, files: map<int, string>, n: int)
    requires n in Discovered(files)
    ensures n in NumsOf(WithOrphans(eps, files))
  {
    var missing := Ascending(Discovered(files) - NumsOf(eps));
    var orphans := OrphanEntries(missing);
    ArrangeKeepsRows(eps + orphans);
    var e: Entry;
    if n in NumsOf(eps) {
      e :| e in eps && e.num == Some(n);
    } else {
      assert n in missing;
      var k :| 0 <= k < |missing| && missing[k] == n;
      e := orphans[k];
    }
    assert e in multiset(eps + orphans);
    assert e in WithOrphans(eps, files);
  }

  /** The rows to anchor: the given ones, one more per derived file without a row, sorted when they can be. */
  lemma WithOrphansKeepsRows(eps: seq<Entry>, files: map<int, string>)
    ensures multiset(WithOrphans(eps, files)) ==
              multiset(eps) + multiset(OrphanEntries(Ascending(Discovered(files) - NumsOf(eps))))
    ensures Discovered(files) <= NumsOf(WithOrphans(eps, files))
    ensures AllNumbered(WithOrphans(eps, files)) ==> InOrder(WithOrphans(eps, files))
  {
    ArrangeKeepsRows(eps + OrphanEntries(Ascending(Discovered(files) - NumsOf(eps))));
    forall n | n in Discovered(files) ensures n in NumsOf(WithOrphans(eps, files)) {
      EveryFileHasARow(eps, files, n);
    }
  }

  /** Backfill is truthful. Every row it was given is still there, plus one row per derived file that had
      none. A row with a status is never touched. A pending row that is first with its number ends up either
      anchored to text that equals its derived file, consumed exactly when downstream products exist, or
      unanchored without a range. Other rows, and a cursor that was set, stay as they are. */
  lemma BackfillIsSound(p: Project, disk: Disk)
    ensures var rows, r := WithOrphans(p.episodes, disk.files), Backfill(p, disk);
            && SameNums(rows, r.episodes)
            && (forall i :: 0 <= i < |rows| && !FirstAmong(rows, Ascending(NumsOf(rows)), i) ==>
                  r.episodes[i] == rows[i])
            && (forall n :: n in NumsOf(rows) ==>
                  && IndexOf(rows, n) < |rows|
                  && Settles(disk, n, rows[IndexOf(rows, n)], r.episodes[IndexOf(rows, n)]))
            && (p.cursor.Some? ==> r.cursor == p.cursor)
  {
    var rows := WithOrphans(p.episodes, disk.files);
    forall n | n in NumsOf(rows) ensures IndexOf(rows, n) < |rows| {
      MemberIsIndexed(rows, n);
    }
    VisitAllSettlesFirstRows(disk, Ascending(NumsOf(rows)), FreshWalk(disk, rows));
  }

  // ---------- running it again ----------

  lemma SettledRowHasStatus(disk: Disk, n: int, before: Entry, after: Entry)
    requires Settles(disk, n, before, after)
    ensures after.status.Some?
  {
  }

  lemma SettledLeavesNothingPending(p: Project, disk: Disk)
    ensures NothingPending(Backfill(p, disk).episodes)
  {
    BackfillIsSound(p, disk);
    var rows, r := WithOrphans(p.episodes, disk.files), Backfill(p, disk).episodes;
    NumsDependOnNums(rows, r);
    forall n | n in NumsOf(r) ensures IndexOf(r, n) < |r| && r[IndexOf(r, n)].status.Some? {
      IndexDependsOnNums(rows, r, n);
      SettledRowHasStatus(disk, n, rows[IndexOf(rows, n)], r[IndexOf(rows, n)]);
    }
  }

  /** The rows the walk sees a second time are the rows it left. */
  lemma OrphansAreAdoptedOnce(p: Project, disk: Disk)
    ensures var r := Backfill(p, disk); WithOrphans(r.episodes, disk.files) == r.episodes
  {
    BackfillIsSound(p, disk);
    WithOrphansKeepsRows(p.episodes, disk.files);
    var rows, r := WithOrphans(p.episodes, disk.files), Backfill(p, disk).episodes;
    NumsDependOnNums(rows, r);
    var none := Discovered(disk.files) - NumsOf(r);
    assert none == {};
    assert r + OrphanEntries(Ascending(none)) == r;
    if AllNumbered(r) {
      assert AllNumbered(rows) by {
        forall i | 0 <= i < |rows| ensures rows[i].num.Some? { assert r[i].num.Some?; }
      }
      assert InOrder(r);
      SortFixesSorted(r);
    }
  }

  /** Once the walk has recorded an end it keeps one; while it has none it has seen no range. */
  lemma {:induction false} NoEndMeansNoRange(disk: Disk, keys: seq<int>, w: Walk)
    requires WalkOk(disk, w) && w.lastEnd.None? && w.lastDoc.None?
    requires VisitAll(disk, keys, w).lastEnd.None?
    ensures VisitAll(disk, keys, w).cursors == w.cursors && VisitAll(disk, keys, w).lastDoc.None?
    ensures forall k :: k in keys && IndexOf(w.episodes, k) < |w.episodes| ==>
              VisitAll(disk, keys, w).episodes[IndexOf(w.episodes, k)].range.None?
  {
    if |keys| > 0 {
      var v, w' := Visit(disk, keys[0], w), VisitAll(disk, keys, w);
      if v.lastEnd.Some? {
        EndIsKept(disk, keys[1..], v);
      } else {
        NoEndMeansNoRange(disk, keys[1..], v);
        VisitSettlesOneRow(disk, keys[0], w);
        VisitAllSettlesFirstRows(disk, keys[1..], v);
        forall k | k in keys && IndexOf(w.episodes, k) < |w.episodes|
          ensures w'.episodes[IndexOf(w.episodes, k)].range.None?
        {
          IndexDependsOnNums(w.episodes, v.episodes, k);
          var i := IndexOf(w.episodes, k);
          if k !in keys[1..] {
            assert k == keys[0] && v.episodes[i].range.None?;
            forall m | m in keys[1..] ensures IndexOf(v.episodes, m) != i {
              assert m != k && v.episodes[i].num == Some(k);
            }
          }
        }
      }
    }
  }

  lemma {:induction false} EndIsKept(disk: Disk, keys: seq<int>, w: Walk)
    requires WalkOk(disk, w) && w.lastEnd.Some?
    ensures VisitAll(disk, keys, w).lastEnd.Some?
  {
    if |keys| > 0 {
      EndIsKept(disk, keys[1..], Visit(disk, keys[0], w));
    }
  }

  /** A walk over rows that all have a status and no range changes nothing. */
  lemma {:induction false} RangelessWalkIsIdle(disk: Disk, keys: seq<int>, w: Walk)
    requires WalkOk(disk, w)
    requires forall k :: k in keys && IndexOf(w.episodes, k) < |w.episodes| ==>
               var e := w.episodes[IndexOf(w.episodes, k)]; e.status.Some? && e.range.None?
    ensures VisitAll(disk, keys, w) == w
  {
    if |keys| > 0 {
      assert keys[0] in keys;
      RangelessWalkIsIdle(disk, keys[1..], w);
    }
  }

  /** Backfill is idempotent on every ledger, also when it could derive no cursor the first time. */
  lemma BackfillIsIdempotent(p: Project, disk: Disk)
    ensures Backfill(Backfill(p, disk), disk) == Backfill(p, disk)
  {
    var r := Backfill(p, disk);
    OrphansAreAdoptedOnce(p, disk);
    SettledLeavesNothingPending(p, disk);
    if r.cursor.None? {
      var rows := WithOrphans(p.episodes, disk.files);
      var keys := Ascending(NumsOf(rows));
      var w0 := FreshWalk(disk, rows);
      var w := VisitAll(disk, keys, w0);
      assert DeriveCursor(disk, w).None?;
      NoEndMeansNoRange(disk, keys, w0);
      BackfillIsSound(p, disk);
      NumsDependOnNums(rows, r.episodes);
      forall k ensures IndexOf(rows, k) == IndexOf(r.episodes, k) {
        IndexDependsOnNums(rows, r.episodes, k);
      }
      var again := FreshWalk(disk, r.episodes);
      forall k | k in keys && IndexOf(r.episodes, k) < |r.episodes|
        ensures var e := r.episodes[IndexOf(r.episodes, k)]; e.status.Some? && e.range.None?
      {
        assert k in NumsOf(r.episodes);
      }
      RangelessWalkIsIdle(disk, keys, again);
      assert again == w;
    }
  }
}
