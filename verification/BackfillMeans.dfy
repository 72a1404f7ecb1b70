/** What backfill makes of every row, in the terms of the project directory: status, range and where the range lies. */
module BackfillMeans {
  import opened Options
  import opened SourceText
  import opened SortedSets
  import opened EpisodeLedger
  import opened BackfillLaws
  import opened BackfillSees
  import opened CommitLaws
  import opened Planner

  // ---------- what becomes of a row ----------

  /** Something has been made of episode `n`: its recorded script exists, its canonical script does, or a draft. */
  ghost predicate Produced(disk: Disk, n: int, script: ScriptFile) {
    (script != NoScript && script in disk.scripts) || EpisodeScript(n) in disk.scripts || n in disk.drafted
  }

  ghost function TextOfFile(disk: Disk, n: int): string {
    if n >= 0 && n in disk.files then disk.files[n] else ""
  }

  /** The range is one whose text is that of the episode's file. */
  ghost predicate HoldsText(disk: Disk, n: int, r: SourceRange) {
    exists d, start :: RangeOfText(disk, n, r, d, start)
  }

  lemma VisitSetsStatus(disk: Disk, n: int, w: Walk)
    requires WalkOk(disk, w) && PendingIn(w.episodes, n)
    ensures var i, v := IndexOf(w.episodes, n), Visit(disk, n, w);
            i < |w.episodes| &&
            var e, r := w.episodes[i], v.episodes[i];
            && r.num == e.num && r.title == e.title && r.hook == e.hook && r.script == e.script && r.status.Some?
            && (r.range.Some? ==> r.status == Some(if Produced(disk, n, e.script) then Consumed else Planned))
            && (r.range.None? ==> r.status == Some(Unanchored))
  {
    hide FindInSources, FileText;
    FirstIsAtIndex(w.episodes, n);
  }

  lemma {:induction false} WalkSetsStatus(disk: Disk, keys: seq<int>, w: Walk, n: int)
    requires WalkOk(disk, w) && n in keys && PendingIn(w.episodes, n)
    ensures IndexOf(w.episodes, n) < |w.episodes|
    ensures var e, r := w.episodes[IndexOf(w.episodes, n)], VisitAll(disk, keys, w).episodes[IndexOf(w.episodes, n)];
            && r.num == e.num && r.title == e.title && r.hook == e.hook && r.script == e.script
            && (r.range.Some? ==> r.status == Some(if Produced(disk, n, e.script) then Consumed else Planned))
            && (r.range.None? ==> r.status == Some(Unanchored))
    decreases |keys|
  {
    hide Visit, Settles, Produced;
    FirstIsAtIndex(w.episodes, n);
    var v, i := Visit(disk, keys[0], w), IndexOf(w.episodes, n);
    VisitSettlesOneRow(disk, keys[0], w);
    IndexDependsOnNums(w.episodes, v.episodes, n);
    if keys[0] == n {
      VisitSetsStatus(disk, n, w);
      SettledStays(disk, keys[1..], v, n);
    } else {
      FirstIsAtIndex(v.episodes, n);
      OtherIndex(w.episodes, keys[0], n);
      WalkSetsStatus(disk, keys[1..], v, n);
    }
  }

  /** A row without a status. It is anchored exactly when some source holds the text of its file, where the source holds
      it; then it counts as consumed if something has been made of it already, else as planned. Otherwise it is locked
      unanchored. Title, hook and script stay. */
  lemma PendingRowMeans(p: Project, disk: Disk, n: int)
    requires PendingIn(WithOrphans(p.episodes, disk.files), n)
    ensures FirstOf(Backfill(p, disk).episodes, n).Some?
    ensures var e, r := FirstOf(WithOrphans(p.episodes, disk.files), n).value,
            FirstOf(Backfill(p, disk).episodes, n).value;
            && r.num == Some(n) && r.title == e.title && r.hook == e.hook && r.script == e.script
            && if InSources(disk.docs, TextOfFile(disk, n)) then
                 && r.range.Some? && HoldsText(disk, n, r.range.value)
                 && r.status == Some(if Produced(disk, n, e.script) then Consumed else Planned)
               else r.range.None? && r.status == Some(Unanchored)
  {
    hide Backfill, InSources, WithOrphans, VisitAll, Produced;
    var rows, r := WithOrphans(p.episodes, disk.files), Backfill(p, disk).episodes;
    assert FileText(disk, n) == TextOfFile(disk, n);
    PendingRowAfter(p, disk, n);
    BackfillIsSound(p, disk);
    FirstIsAtIndex(rows, n);
    FirstIsAtIndex(r, n);
    MemberIsIndexed(rows, n);
    IndexDependsOnNums(rows, r, n);
    PendingIsWalked(p, disk, n);
    WalkSetsStatus(disk, Ascending(NumsOf(rows)), FreshWalk(disk, rows), n);
  }

  /** A row with a status stays as it is. */
  lemma SettledRowMeans(p: Project, disk: Disk, n: int)
    requires FirstOf(p.episodes, n).Some? && FirstOf(p.episodes, n).value.status.Some?
    ensures FirstOf(Backfill(p, disk).episodes, n) == FirstOf(p.episodes, n)
  {
    hide Backfill, WithOrphans;
    var rows, r := WithOrphans(p.episodes, disk.files), Backfill(p, disk).episodes;
    RowsBefore(p.episodes, disk.files, n);
    BackfillIsSound(p, disk);
    FirstIsAtIndex(rows, n);
    FirstIsAtIndex(r, n);
    MemberIsIndexed(rows, n);
    IndexDependsOnNums(rows, r, n);
  }

  /** The rows backfill starts from: those of the ledger, and for every file without one an untitled row with the
      canonical script. */
  lemma RowsBefore(eps: seq<Entry>, files: map<int, string>, n: int)
    ensures FirstOf(WithOrphans(eps, files), n) ==
              if FirstOf(eps, n).Some? then FirstOf(eps, n)
              else if n >= 0 && n in files then Some(Entry(Some(n), "", "", EpisodeScript(n), None, None)) else None
  {
    hide Arrange, NumsOf;
    var nums := Ascending(Discovered(files) - NumsOf(eps));
    ArrangeKeepsFirst(eps + OrphanEntries(nums), n);
    FirstOfConcat(eps, OrphanEntries(nums), n);
    FirstOrphan(nums, n);
    FirstAndNumber(eps, n);
  }

  lemma FirstAndNumber(eps: seq<Entry>, n: int)
    ensures FirstOf(eps, n).Some? <==> n in NumsOf(eps)
  {
    FirstIsAMember(eps, n);
  }

  lemma {:induction false} FirstOrphan(nums: seq<int>, n: int)
    ensures FirstOf(OrphanEntries(nums), n) ==
              if n in nums then Some(Entry(Some(n), "", "", EpisodeScript(n), None, None)) else None
  {
    if |nums| > 0 {
      FirstOrphan(nums[1..], n);
      assert OrphanEntries(nums)[1..] == OrphanEntries(nums[1..]);
    }
  }

  // ---------- where the search looks ----------

  /** Some place at or after `from` in source `d` holds the text. */
  ghost predicate HeldFrom(docs: seq<Doc>, d: nat, from: int, text: string)
    requires d < |docs|
  {
    exists i :: from <= i && OccursAt(docs[d].text, text, i)
  }

  /** Source `c` is looked at before source `d`: the preferred one first, then by name. */
  predicate Before(preferred: Option<nat>, c: nat, d: nat) {
    c != d && preferred != Some(d) && (preferred == Some(c) || c < d)
  }

  /** The first place from the cursors on: in the first source, in that order, that has one. */
  ghost predicate FirstPlace(docs: seq<Doc>, cursors: seq<nat>, preferred: Option<nat>, text: string, h: Hit)
    requires |cursors| == |docs|
  {
    && h.doc < |docs| && cursors[h.doc] <= h.start && OccursAt(docs[h.doc].text, text, h.start)
    && (forall i :: cursors[h.doc] <= i < h.start ==> !OccursAt(docs[h.doc].text, text, i))
    && (forall c :: 0 <= c < |docs| && Before(preferred, c, h.doc) ==> !HeldFrom(docs, c, cursors[c], text))
  }

  lemma {:induction false} FirstHitIs(docs: seq<Doc>, froms: seq<nat>, order: seq<nat>, text: string) returns (k: nat)
    requires |froms| == |docs| && forall j :: 0 <= j < |order| ==> order[j] < |docs|
    requires FirstHit(docs, froms, order, text).Some?
    ensures var h := FirstHit(docs, froms, order, text).value;
            && k < |order| && order[k] == h.doc && froms[h.doc] <= h.start && OccursAt(docs[h.doc].text, text, h.start)
            && (forall i :: froms[h.doc] <= i < h.start ==> !OccursAt(docs[h.doc].text, text, i))
            && (forall j :: 0 <= j < k ==> !HeldFrom(docs, order[j], froms[order[j]], text))
  {
    hide OccursAt;
    FindIsFirst(docs[order[0]].text, text, froms[order[0]]);
    if Find(docs[order[0]].text, text, froms[order[0]]) >= 0 {
      k := 0;
    } else {
      var rest := FirstHitIs(docs, froms, order[1..], text);
      k := rest + 1;
      forall j | 0 <= j < k ensures !HeldFrom(docs, order[j], froms[order[j]], text) {
        if j > 0 {
          assert order[1..][j - 1] == order[j];
        }
      }
    }
  }

  lemma {:induction false} OthersInOrder(n: nat, except: nat, k: nat, c: nat)
    requires k < |Others(n, except)| && c < Others(n, except)[k] && c != except
    ensures exists j :: 0 <= j < k && Others(n, except)[j] == c
  {
    var r := Others(n, except);
    if n - 1 == except || k < |r| - 1 {
      OthersInOrder(n - 1, except, k, c);
      var j :| 0 <= j < k && Others(n - 1, except)[j] == c;
      assert r[j] == c;
    } else {
      OthersHasAll(n - 1, except, c);
      var j :| 0 <= j < |Others(n - 1, except)| && Others(n - 1, except)[j] == c;
      assert r[j] == c;
    }
  }

  lemma OrderIs(n: nat, preferred: Option<nat>, k: nat, c: nat)
    requires k < |SearchOrder(n, preferred)| && c < n && Before(preferred, c, SearchOrder(n, preferred)[k])
    ensures exists j :: 0 <= j < k && SearchOrder(n, preferred)[j] == c
  {
    var order := SearchOrder(n, preferred);
    if preferred.None? {
      assert order[c] == c && order[k] == k;
    } else {
      assert k > 0 && order[k] == Others(n, preferred.value)[k - 1];
      if c == preferred.value {
        assert order[0] == c;
      } else {
        OthersInOrder(n, preferred.value, k - 1, c);
        var j :| 0 <= j < k - 1 && Others(n, preferred.value)[j] == c;
        assert order[j + 1] == c;
      }
    }
  }

  lemma ForwardPass(docs: seq<Doc>, cursors: seq<nat>, text: string, preferred: Option<nat>)
    requires |cursors| == |docs| && (preferred.Some? ==> preferred.value < |docs|)
    ensures var h := FirstHit(docs, cursors, SearchOrder(|docs|, preferred), text);
            h.Some? ==> FirstPlace(docs, cursors, preferred, text, h.value)
  {
    hide OccursAt, SearchOrder, HeldFrom;
    var order := SearchOrder(|docs|, preferred);
    var h := FirstHit(docs, cursors, order, text);
    if h.Some? {
      var k := FirstHitIs(docs, cursors, order, text);
      forall c | 0 <= c < |docs| && Before(preferred, c, h.value.doc) ensures !HeldFrom(docs, c, cursors[c], text) {
        OrderIs(|docs|, preferred, k, c);
        var j :| 0 <= j < k && order[j] == c;
      }
    }
  }

  lemma NoForwardPass(docs: seq<Doc>, cursors: seq<nat>, text: string, preferred: Option<nat>, d: nat)
    requires |cursors| == |docs| && (preferred.Some? ==> preferred.value < |docs|) && d < |docs|
    requires FirstHit(docs, cursors, SearchOrder(|docs|, preferred), text).None?
    ensures !HeldFrom(docs, d, cursors[d], text)
  {
    hide OccursAt, FirstHit;
    var order := SearchOrder(|docs|, preferred);
    if preferred.Some? && preferred.value != d {
      OthersHasAll(|docs|, preferred.value, d);
    }
    assert d in order by {
      if preferred.None? {
        assert order[d] == d;
      }
    }
    forall i | cursors[d] <= i ensures !OccursAt(docs[d].text, text, i) {
      FirstHitMisses(docs, cursors, order, text, d, i);
    }
  }

  /** The two passes in words: the first place from the cursors on, if some source has one; else the first place at
      all. */
  lemma SearchMeans(docs: seq<Doc>, cursors: seq<nat>, text: string, preferred: Option<nat>)
    requires |cursors| == |docs| && (preferred.Some? ==> preferred.value < |docs|)
    ensures var h := FindInSources(docs, cursors, text, preferred);
            h.Some? ==>
              if exists d :: 0 <= d < |docs| && HeldFrom(docs, d, cursors[d], text)
              then FirstPlace(docs, cursors, preferred, text, h.value)
              else FirstPlace(docs, Zeros(|docs|), preferred, text, h.value)
  {
    hide OccursAt, FirstHit, SearchOrder, HeldFrom;
    ForwardPass(docs, cursors, text, preferred);
    ForwardPass(docs, Zeros(|docs|), text, preferred);
    var forward := FirstHit(docs, cursors, SearchOrder(|docs|, preferred), text);
    if forward.Some? {
      PlaceIsHeld(docs, cursors, preferred, text, forward.value);
    } else {
      forall d | 0 <= d < |docs| ensures !HeldFrom(docs, d, cursors[d], text) {
        NoForwardPass(docs, cursors, text, preferred, d);
      }
    }
  }

  lemma PlaceIsHeld(docs: seq<Doc>, cursors: seq<nat>, preferred: Option<nat>, text: string, h: Hit)
    requires |cursors| == |docs| && FirstPlace(docs, cursors, preferred, text, h)
    ensures HeldFrom(docs, h.doc, cursors[h.doc], text)
  {
  }

  // ---------- what the walk knows when a row's turn comes ----------

  lemma {:induction false} WalkSplits(disk: Disk, a: seq<int>, b: seq<int>, w: Walk)
    requires WalkOk(disk, w)
    ensures VisitAll(disk, a + b, w) == VisitAll(disk, b, VisitAll(disk, a, w))
    decreases |a|
  {
    hide Visit;
    if |a| == 0 {
      assert a + b == b;
    } else {
      assert (a + b)[1..] == a[1..] + b;
      WalkSplits(disk, a[1..], b, Visit(disk, a[0], w));
    }
  }

  lemma WalkSnoc(disk: Disk, a: seq<int>, n: int, w: Walk)
    requires WalkOk(disk, w)
    ensures VisitAll(disk, a + [n], w) == Visit(disk, n, VisitAll(disk, a, w))
  {
    hide Visit;
    WalkSplits(disk, a, [n], w);
    var v := VisitAll(disk, a, w);
    assert [n][1..] == [];
    assert VisitAll(disk, [n], v) == VisitAll(disk, [], Visit(disk, n, v));
  }

  /** A place in a source. */
  datatype Ending = Ending(doc: nat, end: int)

  /** Where the first row of number `m` ends, if it has a range in a source. */
  ghost function EndOf(docs: seq<Doc>, rows: seq<Entry>, m: int): Option<Ending> {
    var e := FirstOf(rows, m);
    if e.Some? && e.value.range.Some? && DocIndex(docs, e.value.range.value.rel) < |docs|
    then Some(Ending(DocIndex(docs, e.value.range.value.rel), e.value.range.value.end)) else None
  }

  /** How far the first rows of some numbers reach into source `d`. */
  ghost predicate Reaches(docs: seq<Doc>, rows: seq<Entry>, nums: seq<int>, d: nat, reach: int) {
    && reach >= 0
    && (forall m :: m in nums && EndOf(docs, rows, m).Some? && EndOf(docs, rows, m).value.doc == d ==>
          EndOf(docs, rows, m).value.end <= reach)
    && (reach == 0 || exists m :: m in nums && EndOf(docs, rows, m) == Some(Ending(d, reach)))
  }

  /** The last of some numbers whose first row has a range in a source has it in this one. */
  ghost predicate LastIn(docs: seq<Doc>, rows: seq<Entry>, nums: seq<int>, last: Option<nat>) {
    if last.None? then forall m :: m in nums ==> EndOf(docs, rows, m).None?
    else
      exists k ::
        && 0 <= k < |nums| && EndOf(docs, rows, nums[k]).Some? && EndOf(docs, rows, nums[k]).value.doc == last.value
        && forall j :: k < j < |nums| ==> EndOf(docs, rows, nums[j]).None?
  }

  /** What a walk over settled rows knows. */
  ghost predicate Knows(docs: seq<Doc>, rows: seq<Entry>, nums: seq<int>, w: Walk) {
    && w.episodes == rows && |w.cursors| == |docs|
    && (forall d :: 0 <= d < |docs| ==> Reaches(docs, rows, nums, d, w.cursors[d]))
    && LastIn(docs, rows, nums, w.lastDoc)
  }

  lemma ReachesMore(docs: seq<Doc>, rows: seq<Entry>, nums: seq<int>, d: nat, reach: int, n: int)
    requires Reaches(docs, rows, nums, d, reach)
    ensures var e := EndOf(docs, rows, n);
            Reaches(docs, rows, nums + [n], d,
                    if e.Some? && e.value.doc == d && e.value.end > reach then e.value.end else reach)
  {
    hide EndOf;
    var all := nums + [n];
    assert n in all && forall m :: m in nums ==> m in all;
  }

  lemma LastInMore(docs: seq<Doc>, rows: seq<Entry>, nums: seq<int>, n: int, was: Option<nat>)
    requires LastIn(docs, rows, nums, was)
    ensures var e := EndOf(docs, rows, n); LastIn(docs, rows, nums + [n], if e.Some? then Some(e.value.doc) else was)
  {
    hide EndOf;
    var all := nums + [n];
    assert all[|nums|] == n && forall j :: 0 <= j < |nums| ==> all[j] == nums[j];
    if EndOf(docs, rows, n).None? && was.Some? {
      var k :| 0 <= k < |nums| && EndOf(docs, rows, nums[k]).Some? && EndOf(docs, rows, nums[k]).value.doc == was.value
               && forall j :: k < j < |nums| ==> EndOf(docs, rows, nums[j]).None?;
      assert EndOf(docs, rows, all[k]).Some?;
    }
  }

  lemma VisitSettledKnows(disk: Disk, nums: seq<int>, n: int, w: Walk)
    requires WalkOk(disk, w) && Knows(disk.docs, w.episodes, nums, w)
    requires FirstOf(w.episodes, n).Some? && FirstOf(w.episodes, n).value.status.Some?
    ensures Knows(disk.docs, w.episodes, nums + [n], Visit(disk, n, w))
  {
    hide Reaches, LastIn;
    var rows, v := w.episodes, Visit(disk, n, w);
    FirstIsAtIndex(rows, n);
    assert v == PassBy(disk, FirstOf(rows, n).value.range, w);
    forall d | 0 <= d < |disk.docs| ensures Reaches(disk.docs, rows, nums + [n], d, v.cursors[d]) {
      ReachesMore(disk.docs, rows, nums, d, w.cursors[d], n);
    }
    LastInMore(disk.docs, rows, nums, n, w.lastDoc);
  }

  lemma {:induction false} SettledWalkKnows(disk: Disk, nums: seq<int>, rows: seq<Entry>)
    requires forall m :: m in nums ==> FirstOf(rows, m).Some? && FirstOf(rows, m).value.status.Some?
    ensures Knows(disk.docs, rows, nums, VisitAll(disk, nums, FreshWalk(disk, rows)))
    decreases |nums|
  {
    hide Visit, Reaches, LastIn;
    if |nums| == 0 {
      KnowsNothing(disk, rows);
    } else {
      var front, n := nums[..|nums| - 1], nums[|nums| - 1];
      assert nums == front + [n];
      SettledWalkKnows(disk, front, rows);
      WalkSnoc(disk, front, n, FreshWalk(disk, rows));
      VisitSettledKnows(disk, front, n, VisitAll(disk, front, FreshWalk(disk, rows)));
    }
  }

  lemma KnowsNothing(disk: Disk, rows: seq<Entry>)
    ensures Knows(disk.docs, rows, [], FreshWalk(disk, rows))
  {
  }

  // ---------- where a pending row is anchored ----------

  lemma VisitPlaces(disk: Disk, n: int, w: Walk)
    requires WalkOk(disk, w) && PendingIn(w.episodes, n) && InSources(disk.docs, FileText(disk, n))
    ensures var h := FindInSources(disk.docs, w.cursors, FileText(disk, n), w.lastDoc);
            var i, v := IndexOf(w.episodes, n), Visit(disk, n, w);
            && h.Some? && i < |w.episodes|
            && v.episodes[i].range == Some(SourceRange(disk.docs[h.value.doc].rel, h.value.start,
                                                       h.value.start + |FileText(disk, n)|))
            && v.lastDoc == Some(h.value.doc) && v.cursors[h.value.doc] == h.value.start + |FileText(disk, n)|
  {
    hide FindInSources, FileText;
    FirstIsAtIndex(w.episodes, n);
    SearchFinds(disk.docs, w.cursors, FileText(disk, n), w.lastDoc);
  }

  /** The numbers before `n`, in the order of the walk. */
  ghost predicate LowerOf(nums: set<int>, n: int, lower: seq<int>) {
    && (forall m :: m in lower <==> m in nums && m < n)
    && (forall j, k :: 0 <= j < k < |lower| ==> lower[j] < lower[k])
  }

  lemma LowerPart(s: set<int>, keys: seq<int>, i: nat)
    requires i < |keys| && (forall m :: m in keys <==> m in s)
    requires forall j, k :: 0 <= j < k < |keys| ==> keys[j] < keys[k]
    ensures LowerOf(s, keys[i], keys[..i])
  {
    var lower := keys[..i];
    forall m | m in s && m < keys[i] ensures m in lower {
      var j :| 0 <= j < |keys| && keys[j] == m;
      assert lower[j] == m;
    }
    forall m | m in lower ensures m in s && m < keys[i] {
      var j :| 0 <= j < |lower| && lower[j] == m;
      assert keys[j] == m;
    }
  }

  lemma SplitAt(nums: set<int>, n: int) returns (lower: seq<int>, upper: seq<int>)
    requires n in nums
    ensures Ascending(nums) == lower + [n] + upper && LowerOf(nums, n, lower)
  {
    hide LowerOf, Ascending;
    var keys := Ascending(nums);
    assert n in keys;
    var i :| 0 <= i < |keys| && keys[i] == n;
    lower, upper := keys[..i], keys[i + 1..];
    LowerPart(nums, keys, i);
    CutAt(keys, i);
  }

  lemma CutAt(keys: seq<int>, i: nat)
    requires i < |keys|
    ensures keys == keys[..i] + [keys[i]] + keys[i + 1..]
  {
  }

  /** The range of a pending row is that of its visit. */
  lemma RowFromVisit(p: Project, disk: Disk, n: int, lower: seq<int>, upper: seq<int>)
    requires var rows := WithOrphans(p.episodes, disk.files);
             && PendingIn(rows, n) && Ascending(NumsOf(rows)) == lower + [n] + upper
             && PendingIn(VisitAll(disk, lower, FreshWalk(disk, rows)).episodes, n)
    ensures var w := VisitAll(disk, lower, FreshWalk(disk, WithOrphans(p.episodes, disk.files)));
            var v := Visit(disk, n, w);
            && IndexOf(v.episodes, n) < |v.episodes|
            && FirstOf(Backfill(p, disk).episodes, n) == Some(v.episodes[IndexOf(v.episodes, n)])
  {
    hide Backfill, Visit, WithOrphans, VisitAll, FreshWalk, Settles;
    var rows := WithOrphans(p.episodes, disk.files);
    var w := VisitAll(disk, lower, FreshWalk(disk, rows));
    PendingIsWalked(p, disk, n);
    WalkSplits(disk, lower + [n], upper, FreshWalk(disk, rows));
    WalkSnoc(disk, lower, n, FreshWalk(disk, rows));
    var v := Visit(disk, n, w);
    VisitSettlesOneRow(disk, n, w);
    FirstIsAtIndex(w.episodes, n);
    IndexDependsOnNums(w.episodes, v.episodes, n);
    VisitedRow(disk, n, w);
    SettledStays(disk, upper, v, n);
    var r := VisitAll(disk, upper, v).episodes;
    VisitAllSettlesFirstRows(disk, upper, v);
    IndexDependsOnNums(v.episodes, r, n);
    FirstIsAtIndex(r, n);
  }

  lemma LowerAreSettled(rows: seq<Entry>, n: int, lower: seq<int>)
    requires LowerOf(NumsOf(rows), n, lower) && forall m :: m in lower ==> !PendingIn(rows, m)
    ensures forall m :: m in lower ==> FirstOf(rows, m).Some? && FirstOf(rows, m).value.status.Some?
  {
    hide NumsOf;
    forall m | m in lower ensures FirstOf(rows, m).Some? {
      FirstAndNumber(rows, m);
    }
  }

  /** The first row that backfill settles, behind rows that have a status: the search starts in every source behind all
      those rows, prefers the source of the last of them, and takes the first place; only when no source has one there
      it takes the first place at all. */
  lemma FirstPendingIsPlaced(p: Project, disk: Disk, n: int, lower: seq<int>)
    requires var rows := WithOrphans(p.episodes, disk.files);
             && PendingIn(rows, n) && LowerOf(NumsOf(rows), n, lower)
             && forall m :: m in lower ==> !PendingIn(rows, m)
    requires InSources(disk.docs, FileText(disk, n))
    ensures exists cursors: seq<nat>, preferred: Option<nat>, h ::
              PlacedBehind(p, disk, n, lower, cursors, preferred, h)
  {
    hide Backfill, Visit, WithOrphans, VisitAll, FreshWalk, Reaches, LastIn, FirstPlace, HeldFrom, FindInSources,
      InSources, FileText, Settles, NumsOf, LowerOf;
    var rows := WithOrphans(p.episodes, disk.files);
    FirstAndNumber(rows, n);
    var low, upper := SplitAt(NumsOf(rows), n);
    SameLower(NumsOf(rows), n, lower, low);
    LowerAreSettled(rows, n, lower);
    SettledWalkKnows(disk, lower, rows);
    var w := VisitAll(disk, lower, FreshWalk(disk, rows));
    RowFromVisit(p, disk, n, lower, upper);
    VisitPlaces(disk, n, w);
    VisitSettlesOneRow(disk, n, w);
    IndexDependsOnNums(w.episodes, Visit(disk, n, w).episodes, n);
    SearchMeans(disk.docs, w.cursors, FileText(disk, n), w.lastDoc);
    var h := FindInSources(disk.docs, w.cursors, FileText(disk, n), w.lastDoc).value;
    assert PlacedBehind(p, disk, n, lower, w.cursors, w.lastDoc, h);
  }

  ghost predicate PlacedBehind(p: Project, disk: Disk, n: int, lower: seq<int>, cursors: seq<nat>,
                               preferred: Option<nat>, h: Hit) {
    var rows, row := WithOrphans(p.episodes, disk.files), FirstOf(Backfill(p, disk).episodes, n);
    var text := FileText(disk, n);
    && |cursors| == |disk.docs| && h.doc < |disk.docs|
    && (forall d :: 0 <= d < |disk.docs| ==> Reaches(disk.docs, rows, lower, d, cursors[d]))
    && LastIn(disk.docs, rows, lower, preferred)
    && row.Some? && row.value.range == Some(SourceRange(disk.docs[h.doc].rel, h.start, h.start + |text|))
    && if exists d :: 0 <= d < |disk.docs| && HeldFrom(disk.docs, d, cursors[d], text)
       then FirstPlace(disk.docs, cursors, preferred, text, h)
       else FirstPlace(disk.docs, Zeros(|disk.docs|), preferred, text, h)
  }

  lemma SameLower(nums: set<int>, n: int, a: seq<int>, b: seq<int>)
    requires LowerOf(nums, n, a) && LowerOf(nums, n, b)
    ensures a == b
    decreases |a|
  {
    forall m ensures m in a <==> m in b {
    }
    SameSorted(a, b);
  }

  lemma SortedTail(a: seq<int>)
    requires |a| > 0 && forall j, k :: 0 <= j < k < |a| ==> a[j] < a[k]
    ensures forall m :: m in a[1..] <==> m in a && m != a[0]
    ensures forall m :: m in a ==> a[0] <= m
  {
    forall m | m in a && m != a[0] ensures m in a[1..] {
      var j :| 0 <= j < |a| && a[j] == m;
      assert a[1..][j - 1] == m;
    }
  }

  lemma NoneWithout(a: seq<int>, b: seq<int>)
    requires forall m :: m in b ==> m in a
    ensures |b| > 0 ==> |a| > 0
  {
    if |b| > 0 {
      assert b[0] in b;
      var i :| 0 <= i < |a| && a[i] == b[0];
    }
  }

  lemma {:induction false} SameSorted(a: seq<int>, b: seq<int>)
    requires forall m :: m in a <==> m in b
    requires forall j, k :: 0 <= j < k < |a| ==> a[j] < a[k]
    requires forall j, k :: 0 <= j < k < |b| ==> b[j] < b[k]
    ensures a == b
    decreases |a|
  {
    NoneWithout(a, b);
    NoneWithout(b, a);
    if |a| > 0 {
      assert a[0] in a && b[0] in b;
      SortedTail(a);
      SortedTail(b);
      SameSorted(a[1..], b[1..]);
      assert a == [a[0]] + a[1..] && b == [b[0]] + b[1..];
    }
  }

  // ---------- behind a row that backfill has just settled ----------

  lemma FirstKept(disk: Disk, keys: seq<int>, w: Walk, n: int)
    requires WalkOk(disk, w)
    requires n !in keys || (FirstOf(w.episodes, n).Some? ==> FirstOf(w.episodes, n).value.status.Some?)
    ensures FirstOf(VisitAll(disk, keys, w).episodes, n) == FirstOf(w.episodes, n)
  {
    hide VisitAll, Settles, FirstAmong;
    var r := VisitAll(disk, keys, w).episodes;
    VisitAllSettlesFirstRows(disk, keys, w);
    IndexDependsOnNums(w.episodes, r, n);
    FirstIsAtIndex(w.episodes, n);
    FirstIsAtIndex(r, n);
    var i := IndexOf(w.episodes, n);
    if i < |w.episodes| {
      if n in keys {
        SettledStays(disk, keys, w, n);
      } else {
        OthersMiss(w.episodes, keys, n);
      }
    }
  }

  lemma OthersMiss(eps: seq<Entry>, keys: seq<int>, n: int)
    requires n !in keys && IndexOf(eps, n) < |eps|
    ensures !FirstAmong(eps, keys, IndexOf(eps, n))
  {
    forall k | k in keys ensures IndexOf(eps, k) != IndexOf(eps, n) {
      OtherIndex(eps, k, n);
    }
  }

  lemma VisitSettlesFirst(disk: Disk, n: int, w: Walk)
    requires WalkOk(disk, w)
    ensures var e := FirstOf(Visit(disk, n, w).episodes, n); e.Some? ==> e.value.status.Some?
  {
    hide Visit, Settles;
    var v := Visit(disk, n, w);
    VisitSettlesOneRow(disk, n, w);
    IndexDependsOnNums(w.episodes, v.episodes, n);
    FirstIsAtIndex(v.episodes, n);
    if IndexOf(w.episodes, n) < |w.episodes| {
      SettledRowHasStatus(disk, n, w.episodes[IndexOf(w.episodes, n)], v.episodes[IndexOf(w.episodes, n)]);
    }
  }

  /** A row that ends up without a place in a source leaves the search where it was. */
  lemma VisitKeepsPlace(disk: Disk, n: int, w: Walk)
    requires WalkOk(disk, w) && EndOf(disk.docs, Visit(disk, n, w).episodes, n).None?
    ensures Visit(disk, n, w).cursors == w.cursors && Visit(disk, n, w).lastDoc == w.lastDoc
  {
    hide FindInSources, FileText;
    FirstIsAtIndex(w.episodes, n);
    FirstIsAtIndex(Visit(disk, n, w).episodes, n);
    VisitSettlesOneRow(disk, n, w);
    IndexDependsOnNums(w.episodes, Visit(disk, n, w).episodes, n);
  }

  lemma {:induction false} QuietWalk(disk: Disk, keys: seq<int>, w: Walk)
    requires WalkOk(disk, w)
    requires forall n :: n in keys ==> EndOf(disk.docs, VisitAll(disk, keys, w).episodes, n).None?
    ensures VisitAll(disk, keys, w).cursors == w.cursors && VisitAll(disk, keys, w).lastDoc == w.lastDoc
    decreases |keys|
  {
    hide Visit;
    if |keys| > 0 {
      var v := Visit(disk, keys[0], w);
      VisitSettlesFirst(disk, keys[0], w);
      FirstKept(disk, keys[1..], v, keys[0]);
      assert keys[0] in keys;
      VisitKeepsPlace(disk, keys[0], w);
      QuietWalk(disk, keys[1..], v);
    }
  }

  /** After row `m` has been anchored and the rows since have not, the search stands behind row `m`. */
  lemma PlaceAfter(disk: Disk, lower: seq<int>, m: int, between: seq<int>, w: Walk)
    requires WalkOk(disk, w) && DistinctDocs(disk.docs)
    requires m !in lower && PendingIn(w.episodes, m)
    requires var v := VisitAll(disk, lower + [m] + between, w);
             && EndOf(disk.docs, v.episodes, m).Some?
             && forall j :: j in between ==> EndOf(disk.docs, v.episodes, j).None?
    ensures var v := VisitAll(disk, lower + [m] + between, w);
            && v.lastDoc == Some(EndOf(disk.docs, v.episodes, m).value.doc)
            && v.cursors[EndOf(disk.docs, v.episodes, m).value.doc] == EndOf(disk.docs, v.episodes, m).value.end
  {
    hide Visit, VisitAll, InSources, FileText, FindInSources, PendingIn;
    var before := VisitAll(disk, lower, w);
    var at := Visit(disk, m, before);
    WalkSplits(disk, lower + [m], between, w);
    WalkSnoc(disk, lower, m, w);
    FirstKept(disk, lower, w, m);
    assert PendingIn(before.episodes, m) by {
      SamePending(w.episodes, before.episodes, m);
    }
    VisitSettlesFirst(disk, m, before);
    FirstKept(disk, between, at, m);
    AnchoringSetsPlace(disk, m, before);
    QuietWalk(disk, between, at);
  }

  lemma SamePending(a: seq<Entry>, b: seq<Entry>, n: int)
    requires FirstOf(a, n) == FirstOf(b, n)
    ensures PendingIn(a, n) <==> PendingIn(b, n)
  {
  }

  lemma AnchoringSetsPlace(disk: Disk, n: int, w: Walk)
    requires WalkOk(disk, w) && DistinctDocs(disk.docs) && PendingIn(w.episodes, n)
    requires EndOf(disk.docs, Visit(disk, n, w).episodes, n).Some?
    ensures var v := Visit(disk, n, w);
            var e := EndOf(disk.docs, v.episodes, n).value;
            v.lastDoc == Some(e.doc) && v.cursors[e.doc] == e.end
  {
    hide FindInSources, FileText;
    var v := Visit(disk, n, w);
    FirstIsAtIndex(w.episodes, n);
    FirstIsAtIndex(v.episodes, n);
    VisitSettlesOneRow(disk, n, w);
    IndexDependsOnNums(w.episodes, v.episodes, n);
    var hit := FindInSources(disk.docs, w.cursors, FileText(disk, n), w.lastDoc);
    if hit.Some? {
      DocIndexOfDoc(disk.docs, hit.value.doc);
    }
  }

  /** The first place in source `d` from `from` on. */
  ghost predicate NextPlace(docs: seq<Doc>, d: nat, from: int, text: string, start: int) {
    && d < |docs| && from <= start && OccursAt(docs[d].text, text, start)
    && forall i :: from <= i < start ==> !OccursAt(docs[d].text, text, i)
  }

  /** A pending row behind another one: when the file in which that one has been anchored holds the text behind it, it
      is anchored there, at the next place. */
  lemma NextPendingIsPlaced(p: Project, disk: Disk, m: int, n: int)
    requires DistinctDocs(disk.docs)
    requires var rows := WithOrphans(p.episodes, disk.files); PendingIn(rows, m) && PendingIn(rows, n) && m < n
    requires var r := Backfill(p, disk).episodes;
             && EndOf(disk.docs, r, m).Some?
             && (forall j :: m < j < n ==> EndOf(disk.docs, r, j).None?)
             && FileText(disk, n) != ""
             && HeldFrom(disk.docs, EndOf(disk.docs, r, m).value.doc, EndOf(disk.docs, r, m).value.end,
                         FileText(disk, n))
    ensures var r := Backfill(p, disk).episodes;
            var e := EndOf(disk.docs, r, m).value;
            exists start :: NextPlace(disk.docs, e.doc, e.end, FileText(disk, n), start)
                            && FirstOf(r, n).Some?
                            && FirstOf(r, n).value.range == Some(SourceRange(disk.docs[e.doc].rel, start,
                                                                             start + |FileText(disk, n)|))
  {
    hide Backfill, Visit, WithOrphans, VisitAll, FindInSources, FileText, Settles, NumsOf, LowerOf, EndOf, FirstPlace,
      OccursAt, PendingIn, HeldFrom, NextPlace;
    var rows, r := WithOrphans(p.episodes, disk.files), Backfill(p, disk).episodes;
    var w0 := FreshWalk(disk, rows);
    var lower, between, upper := TwoKeys(rows, m, n);
    var below := lower + [m] + between;
    var w := VisitAll(disk, below, w0);
    PendingIsWalked(p, disk, n);
    FirstKept(disk, below, w0, n);
    SamePending(rows, w.episodes, n);
    RowFromVisit(p, disk, n, below, upper);
    RowsBelow(p, disk, below, n, upper);
    forall j | j in between ensures EndOf(disk.docs, w.episodes, j).None? {
      SameEnd(disk.docs, r, w.episodes, j);
    }
    SameEnd(disk.docs, r, w.episodes, m);
    PlaceAfter(disk, lower, m, between, w0);
    PlacedNext(disk, n, w, EndOf(disk.docs, r, m).value);
  }

  lemma SameEnd(docs: seq<Doc>, a: seq<Entry>, b: seq<Entry>, n: int)
    requires FirstOf(a, n) == FirstOf(b, n)
    ensures EndOf(docs, a, n) == EndOf(docs, b, n)
  {
  }

  /** Rows whose turn has come keep what they got. */
  lemma RowsBelow(p: Project, disk: Disk, below: seq<int>, n: int, upper: seq<int>)
    requires var rows := WithOrphans(p.episodes, disk.files);
             && PendingIn(rows, n) && Ascending(NumsOf(rows)) == below + [n] + upper
    ensures forall j :: j in below ==>
              FirstOf(Backfill(p, disk).episodes, j)
              == FirstOf(VisitAll(disk, below, FreshWalk(disk, WithOrphans(p.episodes, disk.files))).episodes, j)
  {
    hide Backfill, Visit, WithOrphans, VisitAll, FreshWalk, NumsOf, PendingIn;
    var rows := WithOrphans(p.episodes, disk.files);
    var w := VisitAll(disk, below, FreshWalk(disk, rows));
    PendingIsWalked(p, disk, n);
    assert below + [n] + upper == below + ([n] + upper);
    WalkSplits(disk, below, [n] + upper, FreshWalk(disk, rows));
    forall j | j in below ensures FirstOf(VisitAll(disk, [n] + upper, w).episodes, j) == FirstOf(w.episodes, j) {
      WalkedIsSettled(disk, below, FreshWalk(disk, rows), j);
      FirstKept(disk, [n] + upper, w, j);
    }
  }

  lemma {:induction false} WalkedIsSettled(disk: Disk, keys: seq<int>, w: Walk, n: int)
    requires WalkOk(disk, w) && n in keys
    ensures var e := FirstOf(VisitAll(disk, keys, w).episodes, n); e.Some? ==> e.value.status.Some?
    decreases |keys|
  {
    hide Visit;
    var v := Visit(disk, keys[0], w);
    if keys[0] == n {
      VisitSettlesFirst(disk, n, w);
      FirstKept(disk, keys[1..], v, n);
    } else {
      WalkedIsSettled(disk, keys[1..], v, n);
    }
  }

  lemma PlacedNext(disk: Disk, n: int, w: Walk, e: Ending)
    requires WalkOk(disk, w) && PendingIn(w.episodes, n) && FileText(disk, n) != "" && e.doc < |disk.docs|
    requires w.lastDoc == Some(e.doc) && w.cursors[e.doc] == e.end
    requires HeldFrom(disk.docs, e.doc, e.end, FileText(disk, n))
    ensures var v := Visit(disk, n, w);
            exists start :: NextPlace(disk.docs, e.doc, e.end, FileText(disk, n), start)
                            && IndexOf(v.episodes, n) < |v.episodes|
                            && v.episodes[IndexOf(v.episodes, n)].range
                               == Some(SourceRange(disk.docs[e.doc].rel, start, start + |FileText(disk, n)|))
  {
    hide FindInSources, FileText, OccursAt, Visit, Settles;
    var i :| e.end <= i && OccursAt(disk.docs[e.doc].text, FileText(disk, n), i);
    VisitPlaces(disk, n, w);
    SearchMeans(disk.docs, w.cursors, FileText(disk, n), w.lastDoc);
    VisitSettlesOneRow(disk, n, w);
    IndexDependsOnNums(w.episodes, Visit(disk, n, w).episodes, n);
    var h := FindInSources(disk.docs, w.cursors, FileText(disk, n), w.lastDoc).value;
    PreferredFirst(disk.docs, w.cursors, e.doc, FileText(disk, n), h);
  }

  lemma PreferredFirst(docs: seq<Doc>, cursors: seq<nat>, d: nat, text: string, h: Hit)
    requires |cursors| == |docs| && d < |docs| && HeldFrom(docs, d, cursors[d], text)
    requires FirstPlace(docs, cursors, Some(d), text, h)
    ensures h.doc == d && NextPlace(docs, d, cursors[d], text, h.start)
  {
    hide OccursAt, HeldFrom;
    assert Before(Some(d), d, h.doc) <==> h.doc != d;
  }

  lemma TwoKeys(rows: seq<Entry>, m: int, n: int) returns (lower: seq<int>, between: seq<int>, upper: seq<int>)
    requires PendingIn(rows, m) && PendingIn(rows, n) && m < n
    ensures Ascending(NumsOf(rows)) == (lower + [m] + between) + [n] + upper
    ensures m !in lower && n !in lower + [m] + between && forall j :: j in between ==> m < j < n
  {
    hide NumsOf, Ascending;
    FirstAndNumber(rows, m);
    FirstAndNumber(rows, n);
    var below: seq<int>;
    below, upper := SplitAt(NumsOf(rows), n);
    assert m in below && n !in below;
    lower, between := SplitSeq(below, m);
  }

  lemma SplitSeq(keys: seq<int>, m: int) returns (lower: seq<int>, upper: seq<int>)
    requires m in keys && forall j, k :: 0 <= j < k < |keys| ==> keys[j] < keys[k]
    ensures keys == lower + [m] + upper && m !in lower && forall j :: j in upper ==> j > m && j in keys
  {
    var i :| 0 <= i < |keys| && keys[i] == m;
    lower, upper := keys[..i], keys[i + 1..];
    CutAt(keys, i);
    forall j | j in upper ensures j > m && j in keys {
      var k :| 0 <= k < |upper| && upper[k] == j;
      assert keys[i + 1 + k] == j;
    }
  }

  // ---------- the planning cursor ----------

  /** The end of the last row, in number order, that has a range. */
  ghost predicate IsLastEnd(rows: seq<Entry>, keys: seq<int>, end: Option<Cursor>) {
    if end.None? then forall k :: k in keys ==> HasNoRange(rows, k)
    else
      exists i ::
        && 0 <= i < |keys| && EndsAt(rows, keys[i], end.value)
        && forall j :: i < j < |keys| ==> HasNoRange(rows, keys[j])
  }

  ghost predicate HasNoRange(rows: seq<Entry>, n: int) {
    FirstOf(rows, n).Some? ==> FirstOf(rows, n).value.range.None?
  }

  ghost predicate EndsAt(rows: seq<Entry>, n: int, c: Cursor) {
    && FirstOf(rows, n).Some? && FirstOf(rows, n).value.range.Some?
    && c == Cursor(FirstOf(rows, n).value.range.value.rel, FirstOf(rows, n).value.range.value.end)
  }

  lemma VisitSetsEnd(disk: Disk, n: int, w: Walk)
    requires WalkOk(disk, w)
    ensures var v := Visit(disk, n, w);
            if HasNoRange(v.episodes, n) then v.lastEnd == w.lastEnd
            else v.lastEnd.Some? && EndsAt(v.episodes, n, v.lastEnd.value)
  {
    hide FindInSources, FileText;
    FirstIsAtIndex(w.episodes, n);
    FirstIsAtIndex(Visit(disk, n, w).episodes, n);
    VisitSettlesOneRow(disk, n, w);
    IndexDependsOnNums(w.episodes, Visit(disk, n, w).episodes, n);
  }

  lemma SameEnds(was: seq<Entry>, now: seq<Entry>, keys: seq<int>)
    requires forall k :: k in keys ==> FirstOf(now, k) == FirstOf(was, k)
    ensures forall k :: k in keys ==> HasNoRange(now, k) == HasNoRange(was, k)
    ensures forall k, c: Cursor :: k in keys ==> EndsAt(now, k, c) == EndsAt(was, k, c)
  {
  }

  lemma LastEndMore(was: seq<Entry>, now: seq<Entry>, keys: seq<int>, n: int, before: Option<Cursor>,
                    after: Option<Cursor>)
    requires IsLastEnd(was, keys, before) && forall k :: k in keys ==> FirstOf(now, k) == FirstOf(was, k)
    requires if HasNoRange(now, n) then after == before else after.Some? && EndsAt(now, n, after.value)
    ensures IsLastEnd(now, keys + [n], after)
  {
    var all := keys + [n];
    assert all[|keys|] == n && forall j :: 0 <= j < |keys| ==> all[j] == keys[j] && keys[j] in keys;
    SameEnds(was, now, keys);
    hide HasNoRange, EndsAt;
    if HasNoRange(now, n) && before.Some? {
      var i :| 0 <= i < |keys| && EndsAt(was, keys[i], before.value)
               && forall j :: i < j < |keys| ==> HasNoRange(was, keys[j]);
      assert EndsAt(now, all[i], after.value);
    }
  }

  lemma {:induction false} WalkEndIs(disk: Disk, keys: seq<int>, w: Walk)
    requires WalkOk(disk, w) && w.lastEnd.None?
    ensures IsLastEnd(VisitAll(disk, keys, w).episodes, keys, VisitAll(disk, keys, w).lastEnd)
    decreases |keys|
  {
    hide Visit, IsLastEnd;
    if |keys| == 0 {
      NoEndYet(w.episodes);
    } else {
      var front, n := keys[..|keys| - 1], keys[|keys| - 1];
      assert keys == front + [n];
      WalkEndIs(disk, front, w);
      WalkSnoc(disk, front, n, w);
      var v := VisitAll(disk, front, w);
      forall k | k in front ensures FirstOf(Visit(disk, n, v).episodes, k) == FirstOf(v.episodes, k) {
        WalkedIsSettled(disk, front, w, k);
        FirstKept(disk, [n], v, k);
        WalkSnoc(disk, [], n, v);
        assert [] + [n] == [n];
      }
      VisitSetsEnd(disk, n, v);
      LastEndMore(v.episodes, Visit(disk, n, v).episodes, front, n, v.lastEnd, Visit(disk, n, v).lastEnd);
    }
  }

  lemma NoEndYet(rows: seq<Entry>)
    ensures IsLastEnd(rows, [], None)
  {
  }

  /** A place of the text in the sources that does not fall back behind the end. */
  ghost predicate ForwardCursor(docs: seq<Doc>, text: string, end: Option<Cursor>, c: Cursor) {
    exists h: Hit ::
      && h.doc < |docs| && OccursAt(docs[h.doc].text, text, h.start) && c == Cursor(docs[h.doc].rel, h.start)
      && !(end.Some? && end.value.rel == c.rel && c.offset < end.value.offset)
  }

  lemma RemainingMeans(disk: Disk, w: Walk)
    requires WalkOk(disk, w)
    ensures var text, c := disk.remaining.GetOr(""), DeriveCursor(disk, w);
            && (!InSources(disk.docs, text) ==> c == w.lastEnd)
            && (c == w.lastEnd || (c.Some? && ForwardCursor(disk.docs, text, w.lastEnd, c.value)))
  {
    hide FindInSources, OccursAt;
    var text := disk.remaining.GetOr("");
    SearchFinds(disk.docs, w.cursors, text, w.lastDoc);
    if text != "" {
      var h := FindInSources(disk.docs, w.cursors, text, w.lastDoc);
      if h.Some? && !Rewinds(disk, h.value, w.lastEnd) {
        assert OccursAt(disk.docs[h.value.doc].text, text, h.value.start);
      }
    }
  }

  /** A ledger without a saved cursor gets one: a place where the remainder stands in a source, unless that would fall
      back behind the end of the last row; else the end of the last row. */
  lemma CursorMeans(p: Project, disk: Disk)
    requires p.cursor.None?
    ensures exists end :: CursorFrom(p, disk, end)
  {
    hide VisitAll, WithOrphans, DeriveCursor, IsLastEnd, ForwardCursor, NothingPending;
    var rows := WithOrphans(p.episodes, disk.files);
    var keys := Ascending(NumsOf(rows));
    var w := VisitAll(disk, keys, FreshWalk(disk, rows));
    assert Backfill(p, disk) == Project(w.episodes, DeriveCursor(disk, w));
    BackfillIsSound(p, disk);
    NumsDependOnNums(rows, w.episodes);
    WalkEndIs(disk, keys, FreshWalk(disk, rows));
    RemainingMeans(disk, w);
    assert CursorFrom(p, disk, w.lastEnd);
  }

  ghost predicate CursorFrom(p: Project, disk: Disk, end: Option<Cursor>) {
    var r, text := Backfill(p, disk), disk.remaining.GetOr("");
    && IsLastEnd(r.episodes, Ascending(NumsOf(r.episodes)), end)
    && (!InSources(disk.docs, text) ==> r.cursor == end)
    && (r.cursor == end || (r.cursor.Some? && ForwardCursor(disk.docs, text, end, r.cursor.value)))
  }

  /** And the remainder does count: when the last row with a place in a source has just been settled, and that file
      holds the remainder behind it, the cursor is the next place there. */
  lemma RemainderIsFollowed(p: Project, disk: Disk, m: int)
    requires p.cursor.None? && DistinctDocs(disk.docs) && PendingIn(WithOrphans(p.episodes, disk.files), m)
    requires var r := Backfill(p, disk).episodes;
             && EndOf(disk.docs, r, m).Some?
             && (forall j :: m < j ==> HasNoRange(r, j))
             && disk.remaining.Some? && disk.remaining.value != ""
             && HeldFrom(disk.docs, EndOf(disk.docs, r, m).value.doc, EndOf(disk.docs, r, m).value.end,
                         disk.remaining.value)
    ensures var e := EndOf(disk.docs, Backfill(p, disk).episodes, m).value;
            exists start :: NextPlace(disk.docs, e.doc, e.end, disk.remaining.value, start)
                            && Backfill(p, disk).cursor == Some(Cursor(disk.docs[e.doc].rel, start))
  {
    hide VisitAll, WithOrphans, DeriveCursor, IsLastEnd, NothingPending, NextPlace, HeldFrom, NumsOf, PendingIn, EndOf,
      Ascending;
    var rows := WithOrphans(p.episodes, disk.files);
    var keys := Ascending(NumsOf(rows));
    var w0 := FreshWalk(disk, rows);
    var w := VisitAll(disk, keys, w0);
    assert Backfill(p, disk) == Project(w.episodes, DeriveCursor(disk, w));
    FirstAndPending(rows, m);
    assert m in keys;
    var lower, upper := SplitSeq(keys, m);
    forall j | j in upper ensures EndOf(disk.docs, w.episodes, j).None? {
      NoRangeNoEnd(disk.docs, w.episodes, j);
    }
    PlaceAfter(disk, lower, m, upper, w0);
    WalkEndIs(disk, keys, w0);
    LastEndAt(disk.docs, w.episodes, lower, m, upper, w.lastEnd);
    FollowsRemainder(disk, w, EndOf(disk.docs, w.episodes, m).value);
  }

  lemma FirstAndPending(rows: seq<Entry>, n: int)
    requires PendingIn(rows, n)
    ensures n in NumsOf(rows)
  {
    FirstAndNumber(rows, n);
  }

  lemma NoRangeNoEnd(docs: seq<Doc>, rows: seq<Entry>, n: int)
    requires HasNoRange(rows, n)
    ensures EndOf(docs, rows, n).None?
  {
  }

  lemma LastEndAt(docs: seq<Doc>, rows: seq<Entry>, lower: seq<int>, m: int, upper: seq<int>, end: Option<Cursor>)
    requires IsLastEnd(rows, lower + [m] + upper, end) && EndOf(docs, rows, m).Some?
    requires forall j :: j in upper ==> HasNoRange(rows, j)
    ensures var e := EndOf(docs, rows, m).value; end == Some(Cursor(docs[e.doc].rel, e.end))
  {
    var all := lower + [m] + upper;
    assert all[|lower|] == m;
    forall j | |lower| < j < |all| ensures HasNoRange(rows, all[j]) {
      assert all[j] == upper[j - |lower| - 1];
    }
    assert m in all;
  }

  lemma FollowsRemainder(disk: Disk, w: Walk, e: Ending)
    requires WalkOk(disk, w) && e.doc < |disk.docs| && w.lastDoc == Some(e.doc) && w.cursors[e.doc] == e.end
    requires w.lastEnd == Some(Cursor(disk.docs[e.doc].rel, e.end))
    requires disk.remaining.Some? && disk.remaining.value != ""
    requires HeldFrom(disk.docs, e.doc, e.end, disk.remaining.value)
    ensures exists start :: NextPlace(disk.docs, e.doc, e.end, disk.remaining.value, start)
                            && DeriveCursor(disk, w) == Some(Cursor(disk.docs[e.doc].rel, start))
  {
    hide FindInSources, OccursAt;
    var text := disk.remaining.value;
    SearchFinds(disk.docs, w.cursors, text, w.lastDoc);
    SearchMeans(disk.docs, w.cursors, text, w.lastDoc);
    var i :| e.end <= i && OccursAt(disk.docs[e.doc].text, text, i);
    var h := FindInSources(disk.docs, w.cursors, text, w.lastDoc).value;
    PreferredFirst(disk.docs, w.cursors, e.doc, text, h);
  }
}
