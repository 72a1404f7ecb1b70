/** With one source file the greedy search of backfill is complete: it needs its second, full-text pass
    exactly when the derived files have no layout in order without overlap. */
module BackfillGreedy {
  import opened Options
  import opened SourceText
  import opened SortedSets
  import opened EpisodeLedger
  import opened BackfillLaws

  /** Numbers whose derived file carries text. */
  ghost predicate HasText(disk: Disk, n: int) {
    FileText(disk, n) != ""
  }

  /** Places for the non-empty files in the one source: true occurrences, in number order, not overlapping. */
  ghost predicate Layout(disk: Disk, place: map<int, nat>)
    requires |disk.docs| == 1
  {
    && (forall n :: HasText(disk, n) ==> n in place && OccursAt(disk.docs[0].text, FileText(disk, n), place[n]))
    && (forall m, n :: m < n && HasText(disk, m) && HasText(disk, n) ==>
          place[m] + |FileText(disk, m)| <= place[n])
  }

  /** The forward search from the cursors fails for row `n`. */
  ghost predicate ForwardFails(disk: Disk, n: int, w: Walk)
    requires WalkOk(disk, w)
  {
    var i := IndexOf(w.episodes, n);
    && i < |w.episodes| && w.episodes[i].status.None? && HasText(disk, n)
    && FirstHit(disk.docs, w.cursors, SearchOrder(|disk.docs|, w.lastDoc), FileText(disk, n)).None?
  }

  /** Somewhere in the walk the forward search fails and the full-text pass is tried. */
  ghost predicate NeedsSecondPass(disk: Disk, keys: seq<int>, w: Walk)
    requires WalkOk(disk, w)
  {
    |keys| > 0 && (ForwardFails(disk, keys[0], w) || NeedsSecondPass(disk, keys[1..], Visit(disk, keys[0], w)))
  }

  ghost predicate Pending(keys: seq<int>, eps: seq<Entry>) {
    forall k :: k in keys ==> IndexOf(eps, k) < |eps| && eps[IndexOf(eps, k)].status.None?
  }

  ghost predicate Increasing(keys: seq<int>) {
    forall i, j :: 0 <= i < j < |keys| ==> keys[i] < keys[j]
  }

  /** The non-empty files of `keys`, each anchored at its first occurrence at or after the end of the one before. */
  ghost predicate Chained(disk: Disk, keys: seq<int>, from: nat, eps: seq<Entry>)
    requires |disk.docs| == 1
  {
    |keys| == 0 ||
    (if !HasText(disk, keys[0]) then Chained(disk, keys[1..], from, eps) else
     var f := FileText(disk, keys[0]);
     var s := Find(disk.docs[0].text, f, from);
     && s >= 0
     && IndexOf(eps, keys[0]) < |eps|
     && eps[IndexOf(eps, keys[0])].range == Some(SourceRange(disk.docs[0].rel, s, s + |f|))
     && Chained(disk, keys[1..], s + |f|, eps))
  }

  lemma OneSourceOrder(preferred: Option<nat>)
    requires preferred.None? || preferred == Some(0)
    ensures SearchOrder(1, preferred) == [0]
  {
    assert Others(1, 0) == Others(0, 0) == [];
  }

  /** With one source the forward search is a plain find from the cursor. */
  lemma ForwardIsFind(disk: Disk, w: Walk, needle: string)
    requires WalkOk(disk, w) && |disk.docs| == 1
    ensures var s := Find(disk.docs[0].text, needle, w.cursors[0]);
            FirstHit(disk.docs, w.cursors, SearchOrder(|disk.docs|, w.lastDoc), needle) ==
              if s >= 0 then Some(Hit(0, s)) else None
  {
    OneSourceOrder(w.lastDoc);
    assert [0][1..] == [];
  }

  /** One visit of a pending row when the forward search does not fail. */
  lemma ForwardVisit(disk: Disk, n: int, w: Walk)
    requires WalkOk(disk, w) && |disk.docs| == 1
    requires Pending([n], w.episodes) && !ForwardFails(disk, n, w)
    ensures var v, i := Visit(disk, n, w), IndexOf(w.episodes, n);
            if HasText(disk, n)
            then var f := FileText(disk, n);
                 var s := Find(disk.docs[0].text, f, w.cursors[0]);
                 && s >= 0
                 && v.episodes[i].range == Some(SourceRange(disk.docs[0].rel, s, s + |f|))
                 && v.cursors[0] == s + |f|
            else v.cursors == w.cursors
  {
    assert n in [n];
    ForwardIsFind(disk, w, FileText(disk, n));
  }

  lemma PendingAfterVisit(disk: Disk, keys: seq<int>, w: Walk)
    requires WalkOk(disk, w) && |keys| > 0 && Increasing(keys) && Pending(keys, w.episodes)
    ensures Pending(keys[1..], Visit(disk, keys[0], w).episodes)
  {
    var v := Visit(disk, keys[0], w);
    VisitSettlesOneRow(disk, keys[0], w);
    forall k | k in keys[1..]
      ensures IndexOf(v.episodes, k) < |v.episodes| && v.episodes[IndexOf(v.episodes, k)].status.None?
    {
      assert k in keys && k != keys[0];
      IndexDependsOnNums(w.episodes, v.episodes, k);
      assert w.episodes[IndexOf(w.episodes, k)].num == Some(k);
    }
  }

  /** Later visits leave the first visited row alone. */
  lemma FirstVisitStands(disk: Disk, keys: seq<int>, w: Walk)
    requires WalkOk(disk, w) && |keys| > 0 && Increasing(keys) && Pending(keys, w.episodes)
    ensures var v, w', i := Visit(disk, keys[0], w), VisitAll(disk, keys, w), IndexOf(w.episodes, keys[0]);
            && i < |w.episodes| && IndexOf(w'.episodes, keys[0]) == i && w'.episodes[i] == v.episodes[i]
  {
    var v, w', i := Visit(disk, keys[0], w), VisitAll(disk, keys, w), IndexOf(w.episodes, keys[0]);
    assert keys[0] in keys;
    VisitSettlesOneRow(disk, keys[0], w);
    VisitAllSettlesFirstRows(disk, keys[1..], v);
    VisitAllSettlesFirstRows(disk, keys, w);
    IndexDependsOnNums(w.episodes, w'.episodes, keys[0]);
    forall m | m in keys[1..] ensures IndexOf(v.episodes, m) != i {
      assert v.episodes[i].num == Some(keys[0]);
    }
  }

  /** A walk that never needs the second pass chains the files. */
  lemma {:induction false} ForwardWalkChains(disk: Disk, keys: seq<int>, w: Walk)
    requires WalkOk(disk, w) && |disk.docs| == 1 && Increasing(keys) && Pending(keys, w.episodes)
    requires !NeedsSecondPass(disk, keys, w)
    ensures Chained(disk, keys, w.cursors[0], VisitAll(disk, keys, w).episodes)
  {
    if |keys| > 0 {
      assert keys[0] in keys;
      ForwardVisit(disk, keys[0], w);
      PendingAfterVisit(disk, keys, w);
      ForwardWalkChains(disk, keys[1..], Visit(disk, keys[0], w));
      FirstVisitStands(disk, keys, w);
    }
  }

  /** A layout keeps the greedy cursor at or before every file still to come, so the forward search finds it. */
  lemma {:induction false} LayoutAvoidsSecondPass(disk: Disk, place: map<int, nat>, keys: seq<int>, w: Walk)
    requires WalkOk(disk, w) && |disk.docs| == 1 && Increasing(keys) && Pending(keys, w.episodes)
    requires Layout(disk, place)
    requires forall n :: n in keys && HasText(disk, n) ==> w.cursors[0] <= place[n]
    ensures !NeedsSecondPass(disk, keys, w)
    ensures forall n :: n in keys && HasText(disk, n) ==>
              var e := VisitAll(disk, keys, w).episodes; var i := IndexOf(e, n);
              i < |e| && e[i].range.Some? && e[i].range.value.start <= place[n]
  {
    if |keys| > 0 {
      assert keys[0] in keys;
      var v := Visit(disk, keys[0], w);
      ForwardIsFind(disk, w, FileText(disk, keys[0]));
      FindIsFirst(disk.docs[0].text, FileText(disk, keys[0]), w.cursors[0]);
      ForwardVisit(disk, keys[0], w);
      PendingAfterVisit(disk, keys, w);
      forall n | n in keys[1..] && HasText(disk, n) ensures v.cursors[0] <= place[n] {
        assert n in keys && keys[0] < n;
      }
      LayoutAvoidsSecondPass(disk, place, keys[1..], v);
      FirstVisitStands(disk, keys, w);
    }
  }

  /** Row of number `n` is anchored to text equal to its derived file. */
  ghost predicate AnchoredToFile(disk: Disk, eps: seq<Entry>, n: int)
    requires |disk.docs| == 1
  {
    var i := IndexOf(eps, n);
    && i < |eps| && eps[i].range.Some?
    && (var r := eps[i].range.value;
        && r.rel == disk.docs[0].rel
        && 0 <= r.start < r.end <= |disk.docs[0].text|
        && disk.docs[0].text[r.start..r.end] == FileText(disk, n))
  }

  /** The range of row `n`; an empty one when it has none. */
  ghost function RangeOf(eps: seq<Entry>, n: int): SourceRange {
    var i := IndexOf(eps, n);
    if i < |eps| then eps[i].range.GetOr(SourceRange("", 0, 0)) else SourceRange("", 0, 0)
  }

  lemma {:induction false} ChainIsInOrder(disk: Disk, keys: seq<int>, from: nat, eps: seq<Entry>)
    requires |disk.docs| == 1 && Increasing(keys) && Chained(disk, keys, from, eps)
    ensures forall n :: n in keys && HasText(disk, n) ==>
              AnchoredToFile(disk, eps, n) && from <= RangeOf(eps, n).start
    ensures forall m, n :: m in keys && n in keys && m < n && HasText(disk, m) && HasText(disk, n) ==>
              RangeOf(eps, m).end <= RangeOf(eps, n).start
  {
    if |keys| > 0 {
      var k, rest := keys[0], keys[1..];
      var f := FileText(disk, k);
      var next := if HasText(disk, k) then Find(disk.docs[0].text, f, from) + |f| else from;
      ChainIsInOrder(disk, rest, next, eps);
      forall n | n in keys ensures n == k || (n in rest && k < n) {
      }
    }
  }

  /** The ends of a layout read off the anchored rows. */
  lemma ChainGivesLayout(disk: Disk, keys: seq<int>, eps: seq<Entry>)
    requires |disk.docs| == 1 && Increasing(keys) && Chained(disk, keys, 0, eps)
    requires forall n :: HasText(disk, n) ==> n in keys
    ensures exists place :: Layout(disk, place)
  {
    hide Chained, OccursAt, AnchoredToFile;
    ChainIsInOrder(disk, keys, 0, eps);
    var place := Starts(disk, eps);
    forall n | HasText(disk, n)
      ensures n in place && place[n] == RangeOf(eps, n).start
      ensures OccursAt(disk.docs[0].text, FileText(disk, n), place[n])
      ensures RangeOf(eps, n).end == place[n] + |FileText(disk, n)|
    {
      AnchoredOccurs(disk, eps, n);
    }
    assert Layout(disk, place);
  }

  lemma AnchoredOccurs(disk: Disk, eps: seq<Entry>, n: int)
    requires |disk.docs| == 1 && AnchoredToFile(disk, eps, n)
    ensures var r := RangeOf(eps, n);
            && r.start >= 0 && OccursAt(disk.docs[0].text, FileText(disk, n), r.start)
            && r.end == r.start + |FileText(disk, n)|
  {
  }

  ghost function Starts(disk: Disk, eps: seq<Entry>): map<int, nat> {
    map n | n in Discovered(disk.files) && HasText(disk, n) ::
      if RangeOf(eps, n).start >= 0 then RangeOf(eps, n).start else 0
  }

  /** Greedy backfill is complete. With one source and every row pending: the full-text pass is needed exactly
      when the non-empty derived files have no layout. When they have one, every such file is anchored, to text
      equal to it, in number order without overlap, and at or before its place in any layout. */
  lemma GreedyBackfillIsComplete(p: Project, disk: Disk)
    requires |disk.docs| == 1
    requires forall i :: 0 <= i < |p.episodes| ==> p.episodes[i].status.None?
    ensures var rows := WithOrphans(p.episodes, disk.files);
            var needed := NeedsSecondPass(disk, Ascending(NumsOf(rows)), FreshWalk(disk, rows));
            var eps := Backfill(p, disk).episodes;
            && (!needed <==> exists place :: Layout(disk, place))
            && (!needed ==> forall n :: HasText(disk, n) ==> AnchoredToFile(disk, eps, n))
            && (!needed ==> forall m, n :: m < n && HasText(disk, m) && HasText(disk, n) ==>
                  RangeOf(eps, m).end <= RangeOf(eps, n).start)
            && (forall place, n :: Layout(disk, place) && HasText(disk, n) ==>
                  RangeOf(eps, n).start <= place[n])
  {
    var rows := WithOrphans(p.episodes, disk.files);
    var keys := Ascending(NumsOf(rows));
    var w0 := FreshWalk(disk, rows);
    var eps := Backfill(p, disk).episodes;
    RowsArePending(p, disk);
    forall n | HasText(disk, n) ensures n in keys {
      assert n in Discovered(disk.files);
      EveryFileHasARow(p.episodes, disk.files, n);
    }
    if |keys| > 0 {
      assert keys[0] in keys;
      assert !NothingPending(rows);
    }
    assert eps == VisitAll(disk, keys, w0).episodes;
    forall place | Layout(disk, place)
      ensures !NeedsSecondPass(disk, keys, w0)
      ensures forall n :: HasText(disk, n) ==> RangeOf(eps, n).start <= place[n]
    {
      LayoutAvoidsSecondPass(disk, place, keys, w0);
    }
    if !NeedsSecondPass(disk, keys, w0) {
      ForwardWalkChains(disk, keys, w0);
      ChainIsInOrder(disk, keys, 0, eps);
      ChainGivesLayout(disk, keys, eps);
    }
  }

  lemma RowsArePending(p: Project, disk: Disk)
    requires forall i :: 0 <= i < |p.episodes| ==> p.episodes[i].status.None?
    ensures var rows := WithOrphans(p.episodes, disk.files); Pending(Ascending(NumsOf(rows)), rows)
  {
    var rows := WithOrphans(p.episodes, disk.files);
    WithOrphansKeepsRows(p.episodes, disk.files);
    forall k | k in Ascending(NumsOf(rows)) ensures IndexOf(rows, k) < |rows| && rows[IndexOf(rows, k)].status.None? {
      MemberIsIndexed(rows, k);
      var e := rows[IndexOf(rows, k)];
      assert e in multiset(rows);
      assert e in p.episodes || e in OrphanEntries(Ascending(Discovered(disk.files) - NumsOf(p.episodes)));
    }
  }
}
