/** What a single plan or replan commit does to a healthy store. */
module PlannerSteps {
  import opened Options
  import opened SourceText
  import opened EpisodeLedger
  import opened Planner
  import opened CommitLaws
  import opened ReplanLaws
  import opened PlannerForm

  // ---------- joining rows ----------

  lemma RowsJoin(docs: seq<Doc>, a: seq<Entry>, b: seq<Entry>)
    requires RowsForm(docs, a) && RowsForm(docs, b)
    requires forall i, j :: 0 <= i < |a| && 0 <= j < |b| ==> a[i].num.value < b[j].num.value
    requires forall i, j :: 0 <= i < |a| && 0 <= j < |b| && a[i].range.Some? && b[j].range.Some? ==>
               EndPos(docs, a[i].range.value) <= StartPos(docs, b[j].range.value)
    ensures RowsForm(docs, a + b)
  {
    var c := a + b;
    forall i, j | 0 <= i < j < |c| && c[i].range.Some? && c[j].range.Some?
      ensures EndPos(docs, c[i].range.value) <= StartPos(docs, c[j].range.value)
    {
    }
  }

  /** Character `x` of file `rel` belongs to a planned episode. */
  ghost predicate Covered(eps: seq<Entry>, rel: string, x: int) {
    exists i :: 0 <= i < |eps| && eps[i].range.Some? && eps[i].range.value.rel == rel
                && eps[i].range.value.start <= x < eps[i].range.value.end
  }

  lemma CoveredJoin(a: seq<Entry>, b: seq<Entry>, rel: string, x: int)
    ensures Covered(a + b, rel, x) <==> Covered(a, rel, x) || Covered(b, rel, x)
  {
    var c := a + b;
    if Covered(a, rel, x) {
      var i :| 0 <= i < |a| && a[i].range.Some? && a[i].range.value.rel == rel
          && a[i].range.value.start <= x < a[i].range.value.end;
      assert c[i] == a[i];
    }
    if Covered(b, rel, x) {
      var i :| 0 <= i < |b| && b[i].range.Some? && b[i].range.value.rel == rel
          && b[i].range.value.start <= x < b[i].range.value.end;
      assert c[|a| + i] == b[i];
    }
  }

  lemma CoveredRows(rows: seq<Entry>, rel: string, x: int)
    requires forall i :: 0 <= i < |rows| ==> rows[i].range.Some?
    ensures Covered(rows, rel, x) <==> Covers(RowRanges(rows), rel, x)
  {
    var rs := RowRanges(rows);
    if Covered(rows, rel, x) {
      var i :| 0 <= i < |rows| && rows[i].range.Some? && rows[i].range.value.rel == rel
               && rows[i].range.value.start <= x < rows[i].range.value.end;
      assert rs[i] == rows[i].range.value;
    }
    if Covers(rs, rel, x) {
      var i :| 0 <= i < |rs| && rs[i].rel == rel && rs[i].start <= x < rs[i].end;
      assert rows[i].range.value == rs[i];
    }
  }

  // ---------- plan ----------

  /** Between two places on the line there is only blank text. */
  ghost predicate BlankBetween(docs: seq<Doc>, g0: int, g1: int) {
    forall d, x :: 0 <= d < |docs| && 0 <= x < |docs[d].text| && g0 <= Base(docs, d) + x < g1 ==>
           IsSpace(docs[d].text[x])
  }

  /** What a finished plan read guarantees: the window lies in a source, at or after the start it refers to with
      only blank text in between, and the drafts cut a prefix of what is left of that source. */
  ghost predicate PlanPrepared(env: Env, t: PlanTicket) {
    && TicketShape(t)
    && (var d := DocIndex(env.docs, t.rel); d < |env.docs| && env.docs[d].text == t.text)
    && 0 <= t.start <= |t.text|
    && B.CutsPrefix(t.ends, |t.text| - t.start)
    && InDocs(env.docs, t.startRef.rel, t.startRef.offset)
    && Pos(env.docs, t.startRef.rel, t.startRef.offset) <= Pos(env.docs, t.rel, t.start)
    && BlankBetween(env.docs, Pos(env.docs, t.startRef.rel, t.startRef.offset), Pos(env.docs, t.rel, t.start))
  }

  lemma {:induction false} PlanRowAt(drafts: seq<Draft>, ends: seq<nat>, num: int, rel: string, start: int, prev: int,
                                     i: nat)
    requires |drafts| == |ends| && i < |drafts|
    ensures var row := PlanRows(drafts, ends, num, rel, start, prev)[i];
            && row.num == Some(num + i) && row.status == Some(Planned)
            && row.range == Some(SourceRange(rel, if i == 0 then prev else start + ends[i - 1], start + ends[i]))
  {
    if i > 0 {
      PlanRowAt(drafts[1..], ends[1..], num + 1, rel, start, start + ends[0], i - 1);
    }
  }

  /** The rows a ticket would add behind a ledger whose next number is `num`. */
  ghost function NewRows(t: PlanTicket, num: int): seq<Entry>
    requires TicketShape(t)
  {
    PlanRows(t.drafts, t.ends, num, t.rel, t.start, t.start)
  }

  lemma NewRowShape(env: Env, t: PlanTicket, num: int, i: nat)
    requires PlanPrepared(env, t) && i < |t.drafts|
    ensures var row := NewRows(t, num)[i];
            && row.num == Some(num + i) && row.status == Some(Planned)
            && row.range == Some(SourceRange(t.rel, if i == 0 then t.start else t.start + t.ends[i - 1],
                                             t.start + t.ends[i]))
            && RangeInDocs(env.docs, row.range.value)
            && StartPos(env.docs, row.range.value) >= Pos(env.docs, t.rel, t.start)
  {
    PlanRowAt(t.drafts, t.ends, num, t.rel, t.start, t.start, i);
    if i < |t.ends| - 1 {
      assert t.ends[i] < t.ends[|t.ends| - 1];
    }
  }

  lemma NewRowsInOrder(env: Env, t: PlanTicket, num: int, i: nat, j: nat)
    requires PlanPrepared(env, t) && i < j < |t.drafts|
    ensures var rows := NewRows(t, num);
            && rows[i].range.Some? && rows[j].range.Some?
            && EndPos(env.docs, rows[i].range.value) <= StartPos(env.docs, rows[j].range.value)
  {
    NewRowShape(env, t, num, i);
    NewRowShape(env, t, num, j);
    if i < j - 1 {
      assert t.ends[i] < t.ends[j - 1];
    }
  }

  lemma NewRowsForm(env: Env, t: PlanTicket, num: int)
    requires PlanPrepared(env, t) && num > 0
    ensures RowsForm(env.docs, NewRows(t, num))
  {
    var rows := NewRows(t, num);
    forall i | 0 <= i < |rows|
      ensures rows[i].num == Some(num + i) && rows[i].status == Some(Planned)
      ensures rows[i].range.Some? && RangeInDocs(env.docs, rows[i].range.value)
    {
      NewRowShape(env, t, num, i);
    }
    forall i, j | 0 <= i < j < |rows| && rows[i].range.Some? && rows[j].range.Some?
      ensures EndPos(env.docs, rows[i].range.value) <= StartPos(env.docs, rows[j].range.value)
    {
      NewRowsInOrder(env, t, num, i, j);
    }
  }

  lemma {:induction false} NewRowsCover(t: PlanTicket, num: int, x: int, k: nat)
    requires TicketShape(t) && k < |t.ends| && (forall i, j :: 0 <= i < j < |t.ends| ==> t.ends[i] < t.ends[j])
    requires t.start <= x < t.start + t.ends[k]
    ensures Covered(NewRows(t, num), t.rel, x)
  {
    PlanRowAt(t.drafts, t.ends, num, t.rel, t.start, t.start, k);
    if k > 0 && x < t.start + t.ends[k - 1] {
      NewRowsCover(t, num, x, k - 1);
    } else {
      var rows := NewRows(t, num);
      assert rows[k].range.value.rel == t.rel && rows[k].range.value.start <= x < rows[k].range.value.end;
    }
  }

  /** What a successful plan commit has checked, and the ledger it installs. */
  lemma {:induction false} PlanCommitChecks(env: Env, s: Store, t: PlanTicket)
    requires TicketShape(t) && CommitPlan(env, s, t).Done?
    ensures EffectiveStart(Backfilled(env, s), env.docs) == Some(t.startRef)
    ensures CommitPlan(env, s, t).store.project == PlannedLedger(Backfilled(env, s), t)
    ensures CommitPlan(env, s, t).exhausted <==> PlanExhausts(env, t)
    ensures Discovered(CommitPlan(env, s, t).store.files) <= NumsOf(CommitPlan(env, s, t).store.project.episodes)
  {
    CommitRefinesLedger(env, map[t.rel := t.text], s, PlannedLedger(Backfilled(env, s), t), PlanExhausts(env, t));
  }

  lemma {:induction false} NewRowsFollow(env: Env, p: Project, t: PlanTicket)
    requires LedgerForm(env.docs, p) && PlanPrepared(env, t) && EffectiveStart(p, env.docs) == Some(t.startRef)
    ensures RowsForm(env.docs, p.episodes + NewRows(t, NextNum(p.episodes)))
  {
    var num := NextNum(p.episodes);
    var rows := NewRows(t, num);
    NewRowsForm(env, t, num);
    EffectiveStartIsLast(env.docs, p);
    forall j | 0 <= j < |rows|
      ensures rows[j].num == Some(num + j) && rows[j].range.Some?
      ensures EffPos(env.docs, p) <= StartPos(env.docs, rows[j].range.value)
    {
      NewRowShape(env, t, num, j);
    }
    RowsJoin(env.docs, p.episodes, rows);
  }

  /** When the last row has a range and the cursor stands at its end, that is where the next plan starts. */
  lemma {:induction false} StartAtLastRow(docs: seq<Doc>, p: Project)
    requires Numbered(p.episodes) && |p.episodes| > 0 && p.episodes[|p.episodes| - 1].range.Some?
    ensures LastAnchored(p.episodes, None, None) == Some(RangeEnd(p.episodes[|p.episodes| - 1]))
    ensures p.cursor == Some(RangeEnd(p.episodes[|p.episodes| - 1])) && p.cursor.value.offset >= 0 ==>
              EffectiveStart(p, docs) == p.cursor
  {
    LastAnchoredScan(p.episodes, None, None);
    assert LastRanged(p.episodes, |p.episodes|) == |p.episodes| - 1;
  }

  /** The ledger after a plan commit: the old rows followed by the new ones. */
  lemma {:induction false} PlannedLedgerForm(env: Env, p: Project, t: PlanTicket)
    requires LedgerForm(env.docs, p) && PlanPrepared(env, t) && EffectiveStart(p, env.docs) == Some(t.startRef)
    ensures PlannedLedger(p, t).episodes == p.episodes + NewRows(t, NextNum(p.episodes))
    ensures LedgerForm(env.docs, PlannedLedger(p, t))
    ensures EffectiveStart(PlannedLedger(p, t), env.docs) == Some(Cursor(t.rel, t.start + t.ends[|t.ends| - 1]))
  {
    hide Arrange, Numbered;
    var num := NextNum(p.episodes);
    var rows := NewRows(t, num);
    NewRowsFollow(env, p, t);
    NumberedIsInOrder(p.episodes + rows);
    NewRowShape(env, t, num, |rows| - 1);
    assert (p.episodes + rows)[|p.episodes + rows| - 1] == rows[|rows| - 1];
    StartAtLastRow(env.docs, PlannedLedger(p, t));
  }

  /** A plan commit keeps a healthy store healthy, and the next start strictly advances. */
  lemma {:induction false} PlanCommitAdvances(env: Env, s: Store, t: PlanTicket)
    requires StoreForm(env, s) && PlanPrepared(env, t) && CommitPlan(env, s, t).Done?
    ensures StoreForm(env, CommitPlan(env, s, t).store)
    ensures EffPos(env.docs, Backfilled(env, s)) < EffPos(env.docs, CommitPlan(env, s, t).store.project)
  {
    PlanCommitChecks(env, s, t);
    PlannedLedgerForm(env, Backfilled(env, s), t);
    PlanCommitIsFixed(env, s, t);
    assert t.ends[0] <= t.ends[|t.ends| - 1];
  }

  // ---------- replan ----------

  lemma {:induction false} AffectedIsSuffix(eps: seq<Entry>, from: int, k: nat)
    requires Numbered(eps) && k <= |eps|
    requires forall i :: 0 <= i < k ==> eps[i].num.value < from
    requires forall i :: k <= i < |eps| ==> eps[i].num.value >= from
    ensures Affected(eps, from) == eps[k..]
  {
    var lo, hi := eps[..k], eps[k..];
    assert eps == lo + hi;
    NothingFrom(lo, from);
    EverythingFrom(hi, from);
    FromNumConcat(lo, hi, from);
    assert [] + hi == hi;
    SuffixIsSorted(eps, k);
  }

  lemma SuffixIsSorted(eps: seq<Entry>, k: nat)
    requires Numbered(eps) && k <= |eps|
    ensures AllNumbered(eps[k..]) && Sort(eps[k..]) == eps[k..]
  {
    SortFixesSorted(eps[k..]);
  }

  lemma {:induction false} UnaffectedIsPrefix(eps: seq<Entry>, from: int, k: nat)
    requires Numbered(eps) && k <= |eps|
    requires forall i :: 0 <= i < k ==> eps[i].num.value < from
    requires forall i :: k <= i < |eps| ==> eps[i].num.value >= from
    ensures Unaffected(eps, NumsOf(eps[k..])) == eps[..k]
  {
    var lo, hi := eps[..k], eps[k..];
    forall i | 0 <= i < |hi| ensures hi[i].num.value in NumsOf(hi) {
      MemberHasNum(hi, hi[i]);
    }
    forall n | n in NumsOf(hi) ensures n >= from {
    }
    UnaffectedSplits(lo, hi, NumsOf(hi));
    assert lo + hi == eps;
  }

  /** In a numbered ledger the affected rows are a suffix and the others the prefix before it. */
  lemma {:induction false} ReplanSplits(eps: seq<Entry>, from: int) returns (k: nat)
    requires Numbered(eps)
    ensures k <= |eps|
    ensures Affected(eps, from) == eps[k..]
    ensures Unaffected(eps, NumsOf(Affected(eps, from))) == eps[..k]
    ensures forall i :: 0 <= i < k ==> eps[i].num.value < from
  {
    k := SplitPoint(eps, from);
    AffectedIsSuffix(eps, from, k);
    UnaffectedIsPrefix(eps, from, k);
  }

  lemma {:induction false} SplitPoint(eps: seq<Entry>, from: int) returns (k: nat)
    requires Numbered(eps)
    ensures k <= |eps|
    ensures forall i :: 0 <= i < k ==> eps[i].num.value < from
    ensures forall i :: k <= i < |eps| ==> eps[i].num.value >= from
  {
    k := 0;
    while k < |eps| && eps[k].num.value < from
      invariant k <= |eps|
      invariant forall i :: 0 <= i < k ==> eps[i].num.value < from
    {
      k := k + 1;
    }
    if k < |eps| {
      forall i | k <= i < |eps| ensures eps[i].num.value >= from {
        assert i > k ==> eps[k].num.value < eps[i].num.value;
      }
    }
  }

  lemma {:induction false} UnaffectedSplits(a: seq<Entry>, b: seq<Entry>, nums: set<int>)
    requires forall i :: 0 <= i < |a| ==> a[i].num.Some? && a[i].num.value !in nums
    requires forall i :: 0 <= i < |b| ==> b[i].num.Some? && b[i].num.value in nums
    ensures Unaffected(a + b, nums) == a
  {
    if |a| > 0 {
      assert (a + b)[1..] == a[1..] + b;
      UnaffectedSplits(a[1..], b, nums);
    } else if |b| > 0 {
      assert a + b == b && b[1..] == [] + b[1..];
      UnaffectedSplits([], b[1..], nums);
    }
  }

  /** Ranges inside the sources that follow each other on the line. */
  ghost predicate LineOrdered(docs: seq<Doc>, rs: seq<SourceRange>) {
    && (forall i :: 0 <= i < |rs| ==> RangeInDocs(docs, rs[i]))
    && (forall i, j :: 0 <= i < j < |rs| ==> EndPos(docs, rs[i]) <= StartPos(docs, rs[j]))
  }

  lemma LineOrderedParts(docs: seq<Doc>, a: seq<SourceRange>, b: seq<SourceRange>)
    requires LineOrdered(docs, a + b)
    ensures LineOrdered(docs, a) && LineOrdered(docs, b)
    ensures forall i, j :: 0 <= i < |a| && 0 <= j < |b| ==> EndPos(docs, a[i]) <= StartPos(docs, b[j])
  {
    var c := a + b;
    assert forall i :: 0 <= i < |a| ==> c[i] == a[i];
    assert forall j :: 0 <= j < |b| ==> c[|a| + j] == b[j];
  }

  lemma LineOrderedJoin(docs: seq<Doc>, a: seq<SourceRange>, b: seq<SourceRange>)
    requires LineOrdered(docs, a) && LineOrdered(docs, b)
    requires forall i, j :: 0 <= i < |a| && 0 <= j < |b| ==> EndPos(docs, a[i]) <= StartPos(docs, b[j])
    ensures LineOrdered(docs, a + b)
  {
  }

  /** Adding a row that comes later on the line keeps the pieces in order; they end where the row ends. */
  lemma AddRowKeepsLine(docs: seq<Doc>, pieces: seq<Piece>, e: Entry)
    requires e.num.Some? && AddRow(pieces, e).Ok? && e.range.Some?
    requires LineOrdered(docs, pieces + [e.range.value])
    ensures var out := AddRow(pieces, e).value;
            && |out| > 0 && LineOrdered(docs, out)
            && out[|out| - 1].rel == e.range.value.rel && out[|out| - 1].end == e.range.value.end
            && StartPos(docs, out[0]) == (if |pieces| > 0 then StartPos(docs, pieces[0])
                                          else StartPos(docs, e.range.value))
  {
    var r, out, k := e.range.value, AddRow(pieces, e).value, |pieces| - 1;
    LineOrderedParts(docs, pieces, [r]);
    assert [r][0] == r;
    if |pieces| > 0 && pieces[k].rel == r.rel {
      assert out[..k] == pieces[..k];
    } else {
      assert out == pieces + [r];
    }
  }

  /** Merging rows that follow each other on the line gives pieces that do. */
  lemma {:induction false} MergeKeepsLine(docs: seq<Doc>, pieces: seq<Piece>, rows: seq<Entry>)
    requires AllNumbered(rows) && MergeRows(pieces, rows).Ok?
    requires forall i :: 0 <= i < |rows| ==> rows[i].range.Some?
    requires LineOrdered(docs, pieces + RowRanges(rows)) && |rows| > 0
    ensures var out := MergeRows(pieces, rows).value;
            && |out| > 0 && LineOrdered(docs, out)
            && out[|out| - 1].rel == rows[|rows| - 1].range.value.rel
            && out[|out| - 1].end == rows[|rows| - 1].range.value.end
            && StartPos(docs, out[0]) == (if |pieces| > 0 then StartPos(docs, pieces[0])
                                          else StartPos(docs, rows[0].range.value))
    decreases |rows|
  {
    var r := rows[0].range.value;
    var mid := AddRow(pieces, rows[0]).value;
    var rest := RowRanges(rows[1..]);
    RowRangesCons(rows);
    assert pieces + RowRanges(rows) == (pieces + [r]) + rest;
    LineOrderedParts(docs, pieces + [r], rest);
    AddRowKeepsLine(docs, pieces, rows[0]);
    if |rows| > 1 {
      MidBeforeRest(docs, pieces, r, mid, rest);
      LineOrderedJoin(docs, mid, rest);
      MergeKeepsLine(docs, mid, rows[1..]);
    } else {
      assert rows[1..] == [];
    }
  }

  lemma MidBeforeRest(docs: seq<Doc>, pieces: seq<Piece>, r: SourceRange, mid: seq<Piece>, rest: seq<SourceRange>)
    requires LineOrdered(docs, (pieces + [r]) + rest)
    requires LineOrdered(docs, mid) && |mid| > 0 && mid[|mid| - 1].rel == r.rel && mid[|mid| - 1].end == r.end
    ensures forall i, j :: 0 <= i < |mid| && 0 <= j < |rest| ==> EndPos(docs, mid[i]) <= StartPos(docs, rest[j])
  {
    LineOrderedParts(docs, pieces + [r], rest);
    forall i, j | 0 <= i < |mid| && 0 <= j < |rest| ensures EndPos(docs, mid[i]) <= StartPos(docs, rest[j]) {
      assert (pieces + [r])[|pieces|] == r;
      assert EndPos(docs, r) <= StartPos(docs, rest[j]);
      if i < |mid| - 1 {
        assert EndPos(docs, mid[i]) <= StartPos(docs, mid[|mid| - 1]);
      }
    }
  }

  lemma {:induction false} TilingKeepsLine(docs: seq<Doc>, rs: seq<SourceRange>, p: Piece)
    requires Tiling(rs, p.rel, p.start, p.end) && RangeInDocs(docs, p)
    ensures LineOrdered(docs, rs)
    ensures forall i :: 0 <= i < |rs| ==>
              StartPos(docs, p) <= StartPos(docs, rs[i]) && EndPos(docs, rs[i]) <= EndPos(docs, p)
  {
    TilingInOrder(rs, p.rel, p.start, p.end);
  }

  /** Cutting pieces that follow each other on the line gives a layout that does, from the same start on. */
  lemma {:induction false} LayoutKeepsLine(docs: seq<Doc>, pieces: seq<Piece>, cuts: seq<Cut>)
    requires LineOrdered(docs, pieces) && CutsFit(pieces, cuts)
    ensures var rs := PlannedRanges(LayOutAll(pieces, cuts));
            && LineOrdered(docs, rs)
            && (forall i :: 0 <= i < |rs| ==> |pieces| > 0 && StartPos(docs, pieces[0]) <= StartPos(docs, rs[i]))
  {
    if |pieces| > 0 {
      var p := pieces[0];
      var here := PlannedRanges(LayOut(cuts[0], p.rel, p.start, p.start));
      var there := PlannedRanges(LayOutAll(pieces[1..], cuts[1..]));
      LayOutAllSplits(pieces, cuts);
      TilingKeepsLine(docs, here, p);
      assert [p] + pieces[1..] == pieces;
      LineOrderedParts(docs, [p], pieces[1..]);
      LayoutKeepsLine(docs, pieces[1..], cuts[1..]);
      forall j | 0 <= j < |there| ensures EndPos(docs, p) <= StartPos(docs, there[j]) {
        assert [p][0] == p && EndPos(docs, p) <= StartPos(docs, pieces[1..][0]);
      }
      LineOrderedJoin(docs, here, there);
    }
  }

  lemma RowsFromLine(docs: seq<Doc>, rows: seq<Entry>, from: int)
    requires from > 0
    requires forall i :: 0 <= i < |rows| ==> rows[i].num == Some(from + i) && rows[i].range.Some?
                                             && rows[i].status.Some? && rows[i].status != Some(Unanchored)
    requires LineOrdered(docs, RowRanges(rows))
    ensures RowsForm(docs, rows)
  {
    var rs := RowRanges(rows);
    forall i | 0 <= i < |rows| ensures RangeInDocs(docs, rows[i].range.value) {
      assert RangeInDocs(docs, rs[i]);
    }
    forall i, j | 0 <= i < j < |rows|
      ensures EndPos(docs, rows[i].range.value) <= StartPos(docs, rows[j].range.value)
    {
      assert EndPos(docs, rs[i]) <= StartPos(docs, rs[j]);
    }
  }

  lemma RowsGiveLine(docs: seq<Doc>, rows: seq<Entry>)
    requires RowsForm(docs, rows) && forall i :: 0 <= i < |rows| ==> rows[i].range.Some?
    ensures LineOrdered(docs, RowRanges(rows))
  {
  }

  lemma ReplanRowsShape(affected: seq<Entry>, planned: seq<PlannedEpisode>, n: int)
    ensures var rows := ReplanRows(affected, planned, n);
            && RangesAre(rows, planned)
            && forall i :: 0 <= i < |rows| ==>
                 rows[i].num == Some(n + i) && rows[i].status.Some? && rows[i].status != Some(Unanchored)
  {
    forall i | 0 <= i < |planned|
      ensures ReplanRows(affected, planned, n)[i] == ReplanRow(affected, planned[i], n + i)
    {
      ReplanRowAt(affected, planned, n, i);
    }
  }

  ghost predicate RangesAre(rows: seq<Entry>, planned: seq<PlannedEpisode>) {
    |rows| == |planned| && forall i :: 0 <= i < |rows| ==> rows[i].range == Some(planned[i].range)
  }

  /** A layout that follows the line from where the rows start to where they end. */
  ghost predicate LayoutFits(docs: seq<Doc>, before: seq<Entry>, planned: seq<PlannedEpisode>) {
    && |before| > 0 && (forall i :: 0 <= i < |before| ==> before[i].range.Some?)
    && |planned| > 0 && LineOrdered(docs, PlannedRanges(planned))
    && (forall i :: 0 <= i < |planned| ==> 
          StartPos(docs, before[0].range.value) <= StartPos(docs, PlannedRanges(planned)[i]))
    && planned[|planned| - 1].range.rel == before[|before| - 1].range.value.rel
    && planned[|planned| - 1].range.end == before[|before| - 1].range.value.end
  }

  /** Pieces that follow the line from where the rows start to where they end. */
  ghost predicate PiecesFit(docs: seq<Doc>, before: seq<Entry>, pieces: seq<Piece>) {
    && |before| > 0 && (forall i :: 0 <= i < |before| ==> before[i].range.Some?)
    && |pieces| > 0 && LineOrdered(docs, pieces)
    && StartPos(docs, before[0].range.value) == StartPos(docs, pieces[0])
    && pieces[|pieces| - 1].rel == before[|before| - 1].range.value.rel
    && pieces[|pieces| - 1].end == before[|before| - 1].range.value.end
  }

  lemma {:induction false} MergedPiecesFit(docs: seq<Doc>, before: seq<Entry>, pieces: seq<Piece>)
    requires AllNumbered(before) && |before| > 0 && MergeRows([], before) == Ok(pieces)
    requires RowsForm(docs, before) && forall i :: 0 <= i < |before| ==> before[i].range.Some?
    ensures PiecesFit(docs, before, pieces)
  {
    RowsGiveLine(docs, before);
    assert [] + RowRanges(before) == RowRanges(before);
    MergeKeepsLine(docs, [], before);
  }

  lemma {:induction false} CutPiecesFit(env: Env, before: seq<Entry>, pieces: seq<Piece>, cuts: seq<Cut>)
    requires PiecesFit(env.docs, before, pieces) && CutsFit(pieces, cuts) && AllInside(env, pieces)
    ensures LayoutFits(env.docs, before, LayOutAll(pieces, cuts))
  {
    LayoutKeepsLine(env.docs, pieces, cuts);
    LayoutStaysInside(env, pieces, cuts);
  }

  lemma {:induction false} LayoutFitsBetween(env: Env, before: seq<Entry>, t: ReplanTicket, pieces: seq<Piece>,
                                             cuts: seq<Cut>)
    requires ReplanPrepared(env, t, pieces, cuts)
    requires AllNumbered(before) && RangesOf(before) == RangesOf(t.affected) && |before| > 0
    requires RowsForm(env.docs, before)
    ensures LayoutFits(env.docs, before, t.planned)
  {
    RowsMergeIntoPieces(env, before, t, pieces, cuts);
    MergedPiecesFit(env.docs, before, pieces);
    PreparedPiecesAreGood(env, t, pieces, cuts);
    CutPiecesFit(env, before, pieces, cuts);
  }

  lemma RowsCarryLayout(docs: seq<Doc>, rows: seq<Entry>, planned: seq<PlannedEpisode>, from: int)
    requires RangesAre(rows, planned) && from > 0
    requires forall i :: 0 <= i < |rows| ==>
               rows[i].num == Some(from + i) && rows[i].status.Some? && rows[i].status != Some(Unanchored)
    requires LineOrdered(docs, PlannedRanges(planned))
    ensures RowsForm(docs, rows)
  {
    assert RowRanges(rows) == PlannedRanges(planned);
    RowsFromLine(docs, rows, from);
  }

  /** Rows that carry a layout fitting where the rows `hi` stood: from their start, to their end. */
  ghost predicate FitsTail(docs: seq<Doc>, hi: seq<Entry>, rows: seq<Entry>, from: int) {
    && |hi| > 0 && |rows| > 0 && RowsForm(docs, rows)
    && hi[0].range.Some? && hi[|hi| - 1].range.Some?
    && (forall j :: 0 <= j < |rows| ==> rows[j].num == Some(from + j) && rows[j].range.Some?)
    && (forall j :: 0 <= j < |rows| ==> StartPos(docs, hi[0].range.value) <= StartPos(docs, rows[j].range.value))
    && RangeEnd(rows[|rows| - 1]) == RangeEnd(hi[|hi| - 1])
  }

  lemma {:induction false} LayoutFitsTail(docs: seq<Doc>, hi: seq<Entry>, rows: seq<Entry>,
                                          planned: seq<PlannedEpisode>, from: int)
    requires LayoutFits(docs, hi, planned) && from > 0 && RangesAre(rows, planned)
    requires forall i :: 0 <= i < |rows| ==>
               rows[i].num == Some(from + i) && rows[i].status.Some? && rows[i].status != Some(Unanchored)
    ensures FitsTail(docs, hi, rows, from)
  {
    RowsCarryLayout(docs, rows, planned, from);
    forall j | 0 <= j < |rows| ensures rows[j].range == Some(PlannedRanges(planned)[j]) {
    }
  }

  lemma {:induction false} TailReplaced(docs: seq<Doc>, p: Project, k: nat, rows: seq<Entry>, from: int)
    requires LedgerForm(docs, p) && k < |p.episodes| && FitsTail(docs, p.episodes[k..], rows, from)
    requires forall i :: 0 <= i < k ==> p.episodes[i].num.value < from
    ensures var q := Project(p.episodes[..k] + rows, p.cursor);
            && LedgerForm(docs, q) && Arrange(q.episodes) == q.episodes
            && EffectiveStart(q, docs) == EffectiveStart(p, docs)
  {
    var eps, lo, hi := p.episodes, p.episodes[..k], p.episodes[k..];
    assert hi[0] == eps[k] && hi[|hi| - 1] == eps[|eps| - 1];
    PartsForm(docs, eps, k);
    LoBeforeRows(docs, eps, k, rows);
    RowsJoin(docs, lo, rows);
    NumberedIsInOrder(lo + rows);
    assert (lo + rows)[|lo + rows| - 1] == rows[|rows| - 1];
    SameEffectiveStart(docs, p, Project(lo + rows, p.cursor));
  }

  /** The rows of a replan fit where the affected rows stood. */
  lemma {:induction false} ReplanRowsFit(docs: seq<Doc>, hi: seq<Entry>, planned: seq<PlannedEpisode>, from: int)
    requires LayoutFits(docs, hi, planned) && from > 0
    ensures FitsTail(docs, hi, ReplanRows(hi, planned, from), from)
  {
    ReplanRowsShape(hi, planned, from);
    LayoutFitsTail(docs, hi, ReplanRows(hi, planned, from), planned, from);
  }

  lemma {:induction false} ReplannedLedgerIs(p: Project, t: ReplanTicket, k: nat)
    requires k <= |p.episodes| && Unaffected(p.episodes, NumsOf(p.episodes[k..])) == p.episodes[..k]
    requires var all := p.episodes[..k] + ReplanRows(p.episodes[k..], t.planned, t.from); Arrange(all) == all
    ensures ReplannedLedger(p, p.episodes[k..], t) ==
              Project(p.episodes[..k] + ReplanRows(p.episodes[k..], t.planned, t.from), p.cursor)
  {
  }

  /** Where a replan splits the ledger, and what it puts behind the split. */
  lemma {:induction false} ReplannedLedgerParts(env: Env, p: Project, t: ReplanTicket, pieces: seq<Piece>,
                                                cuts: seq<Cut>)
    returns (k: nat)
    requires LedgerForm(env.docs, p) && ReplanPrepared(env, t, pieces, cuts)
    requires var before := Affected(p.episodes, t.from);
             RangesOf(before) == RangesOf(t.affected) && |before| > 0 && before[0].num == Some(t.from)
    ensures k < |p.episodes|
    ensures Affected(p.episodes, t.from) == p.episodes[k..]
    ensures Unaffected(p.episodes, NumsOf(p.episodes[k..])) == p.episodes[..k]
    ensures forall i :: 0 <= i < k ==> p.episodes[i].num.value < t.from
    ensures FitsTail(env.docs, p.episodes[k..], ReplanRows(p.episodes[k..], t.planned, t.from), t.from)
  {
    k := ReplanSplits(p.episodes, t.from);
    PartsForm(env.docs, p.episodes, k);
    LayoutFitsBetween(env, p.episodes[k..], t, pieces, cuts);
    ReplanRowsFit(env.docs, p.episodes[k..], t.planned, t.from);
  }

  /** The ledger after a replan: the rows before the requested number, followed by the new layout. It is healthy
      again, and the next plan starts exactly where it would have started without the replan. */
  lemma {:induction false} ReplannedLedgerForm(env: Env, p: Project, t: ReplanTicket, pieces: seq<Piece>,
                                               cuts: seq<Cut>)
    requires LedgerForm(env.docs, p) && ReplanPrepared(env, t, pieces, cuts)
    requires var before := Affected(p.episodes, t.from);
             RangesOf(before) == RangesOf(t.affected) && |before| > 0 && before[0].num == Some(t.from)
    ensures var before := Affected(p.episodes, t.from);
            && LedgerForm(env.docs, ReplannedLedger(p, before, t))
            && EffectiveStart(ReplannedLedger(p, before, t), env.docs) == EffectiveStart(p, env.docs)
  {
    hide *;
    var k := ReplannedLedgerParts(env, p, t, pieces, cuts);
    TailReplaced(env.docs, p, k, ReplanRows(p.episodes[k..], t.planned, t.from), t.from);
    ReplannedLedgerIs(p, t, k);
  }

  lemma {:induction false} ReplannedLedgerSplits(env: Env, p: Project, t: ReplanTicket, pieces: seq<Piece>,
                                                 cuts: seq<Cut>)
    requires LedgerForm(env.docs, p) && ReplanPrepared(env, t, pieces, cuts)
    requires var before := Affected(p.episodes, t.from);
             RangesOf(before) == RangesOf(t.affected) && |before| > 0 && before[0].num == Some(t.from)
    ensures var before := Affected(p.episodes, t.from);
            var kept := Unaffected(p.episodes, NumsOf(before));
            && p.episodes == kept + before
            && ReplannedLedger(p, before, t).episodes == kept + ReplanRows(before, t.planned, t.from)
  {
    hide *;
    var k := ReplannedLedgerParts(env, p, t, pieces, cuts);
    TailReplaced(env.docs, p, k, ReplanRows(p.episodes[k..], t.planned, t.from), t.from);
    ReplannedLedgerIs(p, t, k);
    assert p.episodes == p.episodes[..k] + p.episodes[k..];
  }

  lemma {:induction false} TailKeepsEnd(docs: seq<Doc>, p: Project, k: nat, rows: seq<Entry>, from: int)
    requires LedgerForm(docs, p) && k < |p.episodes| && FitsTail(docs, p.episodes[k..], rows, from)
    requires forall i :: 0 <= i < k ==> p.episodes[i].num.value < from
    ensures LastAnchored(p.episodes[..k] + rows, None, None) == LastAnchored(p.episodes, None, None)
  {
    hide LastAnchored, EffectiveStart, Arrange, Anchored, RangesInOrder;
    TailReplaced(docs, p, k, rows, from);
    var q := Project(p.episodes[..k] + rows, p.cursor);
    assert p.episodes[|p.episodes| - 1] == p.episodes[k..][|p.episodes| - k - 1];
    assert q.episodes[|q.episodes| - 1] == rows[|rows| - 1];
    StartAtLastRow(docs, p);
    StartAtLastRow(docs, q);
  }

  /** The end of the last range, as the next plan reads it off the ledger, outlives a replan. */
  lemma {:induction false} ReplanKeepsEnd(env: Env, p: Project, t: ReplanTicket, pieces: seq<Piece>, cuts: seq<Cut>)
    requires LedgerForm(env.docs, p) && ReplanPrepared(env, t, pieces, cuts)
    requires var before := Affected(p.episodes, t.from);
             RangesOf(before) == RangesOf(t.affected) && |before| > 0 && before[0].num == Some(t.from)
    ensures LastAnchored(ReplannedLedger(p, Affected(p.episodes, t.from), t).episodes, None, None)
            == LastAnchored(p.episodes, None, None)
  {
    hide *;
    var k := ReplannedLedgerParts(env, p, t, pieces, cuts);
    var rows := ReplanRows(p.episodes[k..], t.planned, t.from);
    TailKeepsEnd(env.docs, p, k, rows, t.from);
    TailReplaced(env.docs, p, k, rows, t.from);
    ReplannedLedgerIs(p, t, k);
  }

  lemma PartsForm(docs: seq<Doc>, eps: seq<Entry>, k: nat)
    requires RowsForm(docs, eps) && k <= |eps|
    ensures RowsForm(docs, eps[..k]) && RowsForm(docs, eps[k..])
  {
  }

  lemma LoBeforeRows(docs: seq<Doc>, eps: seq<Entry>, k: nat, rows: seq<Entry>)
    requires RowsForm(docs, eps) && k < |eps| && eps[k].range.Some?
    requires forall j :: 0 <= j < |rows| ==>
               rows[j].range.Some? && StartPos(docs, eps[k].range.value) <= StartPos(docs, rows[j].range.value)
    ensures forall i, j :: 0 <= i < k && 0 <= j < |rows| && eps[i].range.Some? && rows[j].range.Some? ==>
              EndPos(docs, eps[..k][i].range.value) <= StartPos(docs, rows[j].range.value)
  {
  }

  /** Ledgers whose last rows end at the same place, with the same cursor, have the same next start. */
  lemma {:induction false} SameEffectiveStart(docs: seq<Doc>, p: Project, q: Project)
    requires Numbered(p.episodes) && Numbered(q.episodes) && |p.episodes| > 0 && |q.episodes| > 0
    requires p.cursor == q.cursor
    requires var a, b := p.episodes[|p.episodes| - 1], q.episodes[|q.episodes| - 1];
             a.range.Some? && b.range.Some? && RangeEnd(a) == RangeEnd(b)
    ensures EffectiveStart(p, docs) == EffectiveStart(q, docs)
  {
    StartAtLastRow(docs, p);
    StartAtLastRow(docs, q);
  }

  lemma {:induction false} ReplanInstalls(env: Env, s: Store, t: ReplanTicket)
    requires CommitReplan(env, s, t).Done?
    ensures Discovered(CommitReplan(env, s, t).store.files) <= NumsOf(CommitReplan(env, s, t).store.project.episodes)
    ensures var before := Affected(Backfilled(env, s).episodes, t.from); |before| > 0 && before[0].num == Some(t.from)
  {
    var p := Backfilled(env, s);
    CommitRefinesLedger(env, t.texts, s, ReplannedLedger(p, Affected(p.episodes, t.from), t), false);
  }

  /** A replan commit keeps a healthy store healthy, leaves the next start where it was, and plans exactly the
      characters that were planned before. */
  lemma {:induction false} ReplanCommitKeeps(env: Env, s: Store, t: ReplanTicket, pieces: seq<Piece>, cuts: seq<Cut>)
    requires StoreForm(env, s) && ReplanPrepared(env, t, pieces, cuts) && CommitReplan(env, s, t).Done?
    ensures StoreForm(env, CommitReplan(env, s, t).store)
    ensures EffectiveStart(CommitReplan(env, s, t).store.project, env.docs)
            == EffectiveStart(Backfilled(env, s), env.docs)
    ensures forall rel, x :: Covered(CommitReplan(env, s, t).store.project.episodes, rel, x) <==>
                             Covered(Backfilled(env, s).episodes, rel, x)
  {
    hide CommitReplan, Covered, Backfilled;
    var p := Backfilled(env, s);
    ReplanCommitIsFixed(env, s, t);
    ReplanCommitChecks(env, s, t);
    ReplanInstalls(env, s, t);
    ReplannedLedgerForm(env, p, t, pieces, cuts);
    forall rel, x
      ensures Covered(CommitReplan(env, s, t).store.project.episodes, rel, x) <==> Covered(p.episodes, rel, x)
    {
      ReplanCoverage(env, s, t, pieces, cuts, rel, x);
    }
  }

  lemma {:induction false} ReplanCoverage(env: Env, s: Store, t: ReplanTicket, pieces: seq<Piece>, cuts: seq<Cut>,
                                          rel: string, x: int)
    requires CommitReplan(env, s, t).Done? && ReplanPrepared(env, t, pieces, cuts)
    requires LedgerForm(env.docs, Backfilled(env, s))
    ensures Covered(CommitReplan(env, s, t).store.project.episodes, rel, x)
            <==> Covered(Backfilled(env, s).episodes, rel, x)
  {
    var p := Backfilled(env, s);
    var before := Affected(p.episodes, t.from);
    var kept := Unaffected(p.episodes, NumsOf(before));
    ReplanCommitChecks(env, s, t);
    ReplanInstalls(env, s, t);
    ReplannedLedgerSplits(env, p, t, pieces, cuts);
    ReplanBeforeAndAfter(env, s, t, pieces, cuts);
    ReplanCoversSameCharacters(env, s, t, pieces, cuts, rel, x);
    CoveredJoin(kept, before, rel, x);
    CoveredJoin(kept, ReplanRows(before, t.planned, t.from), rel, x);
    CoveredRows(before, rel, x);
    CoveredRows(ReplanRows(before, t.planned, t.from), rel, x);
  }
}
