/** The form a healthy ledger has, measured on one line: the candidate sources laid end to end. */
module PlannerForm {
  import opened Options
  import opened SourceText
  import opened SortedSets
  import opened EpisodeLedger
  import opened BackfillLaws
  import opened Planner

  // ---------- positions ----------

  /** Total length of the first `i` sources. */
  ghost function Base(docs: seq<Doc>, i: nat): nat
    requires i <= |docs|
  {
    if i == 0 then 0 else Base(docs, i - 1) + |docs[i - 1].text|
  }

  ghost function Total(docs: seq<Doc>): nat {
    Base(docs, |docs|)
  }

  lemma {:induction false} BaseGrows(docs: seq<Doc>, i: nat, j: nat)
    requires i < j <= |docs|
    ensures Base(docs, i) + |docs[i].text| <= Base(docs, j)
  {
    if i + 1 < j {
      BaseGrows(docs, i, j - 1);
    }
  }

  ghost predicate InDocs(docs: seq<Doc>, rel: string, offset: int) {
    var d := DocIndex(docs, rel);
    d < |docs| && 0 <= offset <= |docs[d].text|
  }

  /** Where offset `offset` of file `rel` lies on the line. */
  ghost function Pos(docs: seq<Doc>, rel: string, offset: int): int {
    Base(docs, DocIndex(docs, rel)) + offset
  }

  ghost predicate RangeInDocs(docs: seq<Doc>, r: SourceRange) {
    InDocs(docs, r.rel, r.start) && InDocs(docs, r.rel, r.end) && r.start < r.end
  }

  ghost function StartPos(docs: seq<Doc>, r: SourceRange): int { Pos(docs, r.rel, r.start) }

  ghost function EndPos(docs: seq<Doc>, r: SourceRange): int { Pos(docs, r.rel, r.end) }

  // ---------- healthy ledgers ----------

  /** Positive, strictly increasing numbers, each with a status. */
  ghost predicate Numbered(eps: seq<Entry>) {
    && (forall i :: 0 <= i < |eps| ==> eps[i].num.Some? && eps[i].num.value > 0 && eps[i].status.Some?)
    && (forall i, j :: 0 <= i < j < |eps| ==> eps[i].num.value < eps[j].num.value)
  }

  /** A row has a range inside a source exactly when it is not unanchored. */
  ghost predicate Anchored(docs: seq<Doc>, eps: seq<Entry>) {
    forall i :: 0 <= i < |eps| ==>
      && (eps[i].range.None? <==> eps[i].status == Some(Unanchored))
      && (eps[i].range.Some? ==> RangeInDocs(docs, eps[i].range.value))
  }

  /** Ranges follow each other on the line without overlap. */
  ghost predicate RangesInOrder(docs: seq<Doc>, eps: seq<Entry>) {
    forall i, j :: 0 <= i < j < |eps| && eps[i].range.Some? && eps[j].range.Some? ==>
      EndPos(docs, eps[i].range.value) <= StartPos(docs, eps[j].range.value)
  }

  ghost predicate RowsForm(docs: seq<Doc>, eps: seq<Entry>) {
    Numbered(eps) && Anchored(docs, eps) && RangesInOrder(docs, eps)
  }

  ghost predicate LedgerForm(docs: seq<Doc>, p: Project) {
    && RowsForm(docs, p.episodes)
    && (p.cursor.Some? ==> InDocs(docs, p.cursor.value.rel, p.cursor.value.offset))
  }

  /** A healthy store: its ledger, as every call sees it after backfill, is healthy. */
  ghost predicate StoreForm(env: Env, s: Store) {
    DistinctDocs(env.docs) && LedgerForm(env.docs, Backfilled(env, s))
  }

  /** A settled store: its ledger is healthy as it is, and every discovered file has a row. */
  ghost predicate SettledForm(env: Env, s: Store) {
    && DistinctDocs(env.docs)
    && LedgerForm(env.docs, s.project)
    && Discovered(s.files) <= NumsOf(s.project.episodes)
  }

  // ---------- backfill only completes a healthy ledger's cursor ----------

  lemma NumberedIsInOrder(eps: seq<Entry>)
    requires Numbered(eps)
    ensures InOrder(eps) && Arrange(eps) == eps && NothingPending(eps)
  {
    forall i, j | 0 <= i < j < |eps| ensures eps[i].num.value <= eps[j].num.value {
    }
    SortFixesSorted(eps);
    forall n | n in NumsOf(eps) ensures IndexOf(eps, n) < |eps| {
      MemberIsIndexed(eps, n);
    }
  }

  ghost predicate EndInDocs(docs: seq<Doc>, c: Option<Cursor>) {
    c.Some? ==> InDocs(docs, c.value.rel, c.value.offset)
  }

  /** The walk over a healthy ledger changes no row and only records ends inside the sources. */
  lemma {:induction false} HealthyWalk(disk: Disk, keys: seq<int>, w: Walk)
    requires WalkOk(disk, w) && EndInDocs(disk.docs, w.lastEnd)
    requires Numbered(w.episodes) && Anchored(disk.docs, w.episodes)
    ensures VisitAll(disk, keys, w).episodes == w.episodes && EndInDocs(disk.docs, VisitAll(disk, keys, w).lastEnd)
  {
    if |keys| > 0 {
      HealthyWalk(disk, keys[1..], Visit(disk, keys[0], w));
    }
  }

  lemma HitInDocs(docs: seq<Doc>, d: nat, needle: string, start: nat)
    requires DistinctDocs(docs) && d < |docs| && OccursAt(docs[d].text, needle, start)
    ensures InDocs(docs, docs[d].rel, start)
  {
    DocIndexOfDoc(docs, d);
  }

  /** A settled store is healthy: backfill leaves its rows alone and at most adds a cursor inside the sources. */
  lemma SettledIsHealthy(env: Env, s: Store)
    requires SettledForm(env, s)
    ensures Backfilled(env, s).episodes == s.project.episodes
    ensures StoreForm(env, s)
    ensures s.project.cursor.Some? ==> Backfilled(env, s) == s.project
  {
    var disk, eps := DiskOf(env, s), s.project.episodes;
    NumberedIsInOrder(eps);
    var none := Discovered(s.files) - NumsOf(eps);
    assert none == {};
    assert eps + OrphanEntries(Ascending(none)) == eps;
    assert WithOrphans(eps, s.files) == eps;
    if s.project.cursor.None? {
      var w := VisitAll(disk, Ascending(NumsOf(eps)), FreshWalk(disk, eps));
      HealthyWalk(disk, Ascending(NumsOf(eps)), FreshWalk(disk, eps));
      var rem := disk.remaining.GetOr("");
      var hit := if rem == "" then None else FindInSources(disk.docs, w.cursors, rem, w.lastDoc);
      if hit.Some? {
        HitInDocs(env.docs, hit.value.doc, rem, hit.value.start);
      }
    }
  }

  // ---------- the effective start ----------

  /** Index of the last row with a range; `|eps|` when there is none. */
  ghost function LastRanged(eps: seq<Entry>, k: nat): (i: int)
    requires k <= |eps|
    ensures -1 <= i < k
    ensures i >= 0 ==> eps[i].range.Some?
    ensures forall j :: i < j < k ==> eps[j].range.None?
  {
    if k == 0 then -1 else if eps[k - 1].range.Some? then k - 1 else LastRanged(eps, k - 1)
  }

  ghost function RangeEnd(e: Entry): Cursor
    requires e.range.Some?
  {
    Cursor(e.range.value.rel, e.range.value.end)
  }

  lemma {:induction false} LastAnchoredScan(eps: seq<Entry>, best: Option<int>, last: Option<Cursor>)
    requires Numbered(eps) && (best.Some? && |eps| > 0 ==> best.value < eps[0].num.value)
    ensures var i := LastRanged(eps, |eps|);
            LastAnchored(eps, best, last) == if i >= 0 then Some(RangeEnd(eps[i])) else last
  {
    if |eps| > 0 {
      var rest := eps[1..];
      if eps[0].range.Some? {
        LastAnchoredScan(rest, eps[0].num, Some(RangeEnd(eps[0])));
      } else {
        LastAnchoredScan(rest, best, last);
      }
      var i, k := LastRanged(eps, |eps|), LastRanged(rest, |rest|);
      assert forall j :: 0 <= j < |rest| ==> rest[j] == eps[j + 1];
      if k >= 0 {
        assert rest[k] == eps[k + 1];
        assert i >= k + 1;
        assert i == k + 1;
      } else {
        assert forall j :: 1 <= j < |eps| ==> rest[j - 1] == eps[j];
        assert i <= 0;
      }
    }
  }

  ghost function EffPos(docs: seq<Doc>, p: Project): int {
    var c := EffectiveStart(p, docs);
    if c.Some? then Pos(docs, c.value.rel, c.value.offset) else 0
  }

  lemma LaterIsLater(docs: seq<Doc>, a: Cursor, b: Cursor)
    requires InDocs(docs, a.rel, a.offset) && InDocs(docs, b.rel, b.offset)
    ensures var c := Later(docs, a, b);
            && InDocs(docs, c.rel, c.offset)
            && Pos(docs, a.rel, a.offset) <= Pos(docs, c.rel, c.offset)
            && Pos(docs, b.rel, b.offset) <= Pos(docs, c.rel, c.offset)
  {
    var i, j := DocIndex(docs, a.rel), DocIndex(docs, b.rel);
    if i < j {
      BaseGrows(docs, i, j);
    } else if j < i {
      BaseGrows(docs, j, i);
    }
  }

  lemma EarlierEndsFirst(docs: seq<Doc>, eps: seq<Entry>, i: nat, k: nat)
    requires RowsForm(docs, eps) && i <= k < |eps| && eps[i].range.Some? && eps[k].range.Some?
    ensures EndPos(docs, eps[i].range.value) <= EndPos(docs, eps[k].range.value)
  {
    assert i < k ==> EndPos(docs, eps[i].range.value) <= StartPos(docs, eps[k].range.value);
  }

  lemma EndsBeforeLast(docs: seq<Doc>, eps: seq<Entry>, i: nat)
    requires RowsForm(docs, eps) && i < |eps| && eps[i].range.Some?
    ensures var k := LastRanged(eps, |eps|);
            i <= k && EndPos(docs, eps[i].range.value) <= EndPos(docs, eps[k].range.value)
  {
    hide RowsForm, EndPos;
    EarlierEndsFirst(docs, eps, i, LastRanged(eps, |eps|));
  }

  lemma InsideIsBelowTotal(docs: seq<Doc>, rel: string, offset: int)
    requires InDocs(docs, rel, offset)
    ensures Pos(docs, rel, offset) <= Total(docs) && |docs| > 0
  {
    BaseGrows(docs, DocIndex(docs, rel), |docs|);
  }

  /** The effective start, from the last range and the cursor. */
  lemma EffectiveStartIs(docs: seq<Doc>, p: Project)
    requires LedgerForm(docs, p)
    ensures var k := LastRanged(p.episodes, |p.episodes|);
            EffectiveStart(p, docs) ==
              if k >= 0 && p.cursor.Some? then Some(Later(docs, RangeEnd(p.episodes[k]), p.cursor.value))
              else if k >= 0 then Some(RangeEnd(p.episodes[k]))
              else if p.cursor.Some? then p.cursor
              else if |docs| > 0 then Some(Cursor(docs[0].rel, 0)) else None
  {
    LastAnchoredScan(p.episodes, None, None);
  }

  /** The next plan starts inside the sources, at or after every planned range and the cursor. */
  lemma EffectiveStartIsLast(docs: seq<Doc>, p: Project)
    requires LedgerForm(docs, p)
    ensures |docs| > 0 <==> EffectiveStart(p, docs).Some?
    ensures EndInDocs(docs, EffectiveStart(p, docs))
    ensures forall i :: 0 <= i < |p.episodes| && p.episodes[i].range.Some? ==>
              EndPos(docs, p.episodes[i].range.value) <= EffPos(docs, p)
    ensures p.cursor.Some? ==> Pos(docs, p.cursor.value.rel, p.cursor.value.offset) <= EffPos(docs, p)
    ensures EffPos(docs, p) <= Total(docs)
  {
    hide EffectiveStart, Later;
    var eps, k := p.episodes, LastRanged(p.episodes, |p.episodes|);
    EffectiveStartIs(docs, p);
    if k >= 0 {
      InsideIsBelowTotal(docs, eps[k].range.value.rel, eps[k].range.value.end);
    }
    if p.cursor.Some? {
      InsideIsBelowTotal(docs, p.cursor.value.rel, p.cursor.value.offset);
      if k >= 0 {
        LaterIsLater(docs, RangeEnd(eps[k]), p.cursor.value);
      }
    }
    forall i | 0 <= i < |eps| && eps[i].range.Some?
      ensures EndPos(docs, eps[i].range.value) <= EffPos(docs, p)
    {
      EndsBeforeLast(docs, eps, i);
    }
    var c := EffectiveStart(p, docs);
    if c.Some? {
      InsideIsBelowTotal(docs, c.value.rel, c.value.offset);
    }
  }
}
