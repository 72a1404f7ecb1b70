/** Whole runs: any interleaving of plan reads, replan reads, their commits, and status changes made elsewhere.
    Reads happen outside the lock and may be arbitrarily old when their commit runs. */
module PlannerRuns {
  import opened Options
  import opened SourceText
  import opened SortedSets
  import opened EpisodeLedger
  import opened Planner
  import opened CommitLaws
  import opened ReplanLaws
  import opened PlannerForm
  import opened PlannerSteps

  /** The shared store and the calls that have read but not yet committed. */
  datatype World = World(store: Store, plans: map<nat, PlanTicket>, replans: map<nat, (ReplanTicket, bool)>)

  datatype Step =
    | ReadPlan(id: nat, size: nat, cut: Cut)
    | WritePlan(id: nat)
    | ReadReplan(id: nat, from: int, confirmed: bool, cuts: seq<Cut>)
    | WriteReplan(id: nat)
    | MarkConsumed(num: int)

  /** The ticket a plan read ends with, for whatever cut of the window the model came up with. */
  ghost function PlanTicketOf(aim: Aim, size: nat, cut: Cut): Option<PlanTicket> {
    if !aim.Window? || !CutOk(cut, |Slice(aim.text, aim.start, aim.start + size)|) then None
    else Some(PlanTicket(aim.startRef, aim.rel, aim.start, aim.text, cut.drafts, cut.ends,
                         aim.start + size >= |aim.text|))
  }

  /** Every piece gets a cut that closes it. */
  ghost predicate AllClosed(pieces: seq<Piece>, cuts: seq<Cut>) {
    && |pieces| == |cuts|
    && forall i :: 0 <= i < |pieces| ==>
         var n := pieces[i].end - pieces[i].start;
         n >= 0 && CutOk(cuts[i], n) && cuts[i].ends[|cuts[i].ends| - 1] == n
  }

  ghost predicate PiecesReadable(env: Env, pieces: seq<Piece>) {
    forall i :: 0 <= i < |pieces| ==> Inside(env, pieces[i])
  }

  /** The texts a replan read has loaded. */
  ghost function TextsOf(env: Env, pieces: seq<Piece>): map<string, string> {
    map i | 0 <= i < |pieces| && Load(env, pieces[i].rel).Some? :: pieces[i].rel := Load(env, pieces[i].rel).value
  }

  /** The ticket a replan read ends with: none while consumed episodes are affected and not confirmed. */
  ghost function ReplanTicketOf(env: Env, p: Project, from: int, confirmed: bool,
                                cuts: seq<Cut>): Option<ReplanTicket> {
    var scope := ReplanScope(p, from);
    if scope.Err? then None
    else
      var pieces, consumed := scope.value.pieces, ConsumedNums(scope.value.affected);
      if consumed != [] && !confirmed then None
      else if !PiecesReadable(env, pieces) || !AllClosed(pieces, cuts) then None
      else Some(ReplanTicket(from, scope.value.affected, consumed, LayOutAll(pieces, cuts), TextsOf(env, pieces)))
  }

  /** Rows are consumed once they have a status and a range; a row that backfill still has to settle is not. */
  function ConsumedRow(e: Entry, num: int): Entry {
    if e.num == Some(num) && e.range.Some? && e.status.Some? then e.(status := Some(Consumed)) else e
  }

  function Consume(eps: seq<Entry>, num: int): (r: seq<Entry>)
    ensures |r| == |eps|
    ensures forall i :: 0 <= i < |eps| ==> r[i] == ConsumedRow(eps[i], num)
  {
    if |eps| == 0 then [] else [ConsumedRow(eps[0], num)] + Consume(eps[1..], num)
  }

  function Settle(s: Store, c: Commit): Store {
    if c.Done? then c.store else s
  }

  ghost function Next(env: Env, w: World, step: Step): World
    requires DistinctDocs(env.docs)
  {
    match step
    case ReadPlan(id, size, cut) =>
      var t := PlanTicketOf(AimOf(env, w.store), size, cut);
      if t.None? then w else w.(plans := w.plans[id := t.value])
    case WritePlan(id) =>
      if id !in w.plans || !TicketShape(w.plans[id]) then w
      else w.(store := Settle(w.store, CommitPlan(env, w.store, w.plans[id])), plans := w.plans - {id})
    case ReadReplan(id, from, confirmed, cuts) =>
      var t := ReplanTicketOf(env, Backfilled(env, w.store), from, confirmed, cuts);
      if t.None? then w else w.(replans := w.replans[id := (t.value, confirmed)])
    case WriteReplan(id) =>
      if id !in w.replans then w
      else w.(store := Settle(w.store, CommitReplan(env, w.store, w.replans[id].0)), replans := w.replans - {id})
    case MarkConsumed(num) =>
      w.(store := WithConsumed(w.store, num))
  }

  ghost function Run(env: Env, w: World, steps: seq<Step>): World
    requires DistinctDocs(env.docs)
    decreases |steps|
  {
    if |steps| == 0 then w else Run(env, Next(env, w, steps[0]), steps[1..])
  }

  /** Every pending call carries what its read guaranteed; a replan that met consumed episodes is a confirmed one. */
  ghost predicate Inv(env: Env, w: World) {
    && StoreForm(env, w.store)
    && (forall id :: id in w.plans ==> PlanPrepared(env, w.plans[id]))
    && (forall id :: id in w.replans ==>
          && (exists pieces, cuts :: ReplanPrepared(env, w.replans[id].0, pieces, cuts))
          && (w.replans[id].0.consumed != [] ==> w.replans[id].1))
  }

  // ---------- reads make good tickets ----------

  lemma {:induction false} BlankRestOfDoc(docs: seq<Doc>, i: nat, start: nat)
    requires i < |docs| && start <= |docs[i].text| && Blank(Slice(docs[i].text, start, |docs[i].text|))
    ensures BlankBetween(docs, Base(docs, i) + start, Base(docs, i) + |docs[i].text|)
  {
    var rest := docs[i].text[start..];
    forall d, x | 0 <= d < |docs| && 0 <= x < |docs[d].text|
                  && Base(docs, i) + start <= Base(docs, d) + x < Base(docs, i) + |docs[i].text|
      ensures IsSpace(docs[d].text[x])
    {
      if d < i {
        BaseGrows(docs, d, i);
      } else if i < d {
        BaseGrows(docs, i, d);
      } else {
        assert rest[x - start] == docs[i].text[x];
      }
    }
  }

  /** The skipping loop only passes blank text; it gives up only when all that is left is blank. */
  lemma {:induction false} SkipBlankFinds(docs: seq<Doc>, ref: Cursor, i: nat, start: nat)
    requires DistinctDocs(docs) && i < |docs| && start <= |docs[i].text|
    ensures var aim := SkipBlank(docs, ref, docs[i].rel, start, docs[i].text);
            var from := Base(docs, i) + start;
            match aim
            case Window(r, rel, s, text) =>
              var d := DocIndex(docs, rel);
              && r == ref && d < |docs| && text == docs[d].text && 0 <= s <= |text|
              && from <= Pos(docs, rel, s) && BlankBetween(docs, from, Pos(docs, rel, s))
              && !Blank(text[s..])
            case Exhausted => BlankBetween(docs, from, Total(docs))
            case _ => false
    decreases |docs| - i
  {
    DocIndexOfDoc(docs, i);
    if Blank(Slice(docs[i].text, start, |docs[i].text|)) {
      BlankRestOfDoc(docs, i, start);
      assert Base(docs, i + 1) == Base(docs, i) + |docs[i].text|;
      if i + 1 < |docs| {
        SkipBlankFinds(docs, ref, i + 1, 0);
      }
    }
  }

  lemma {:induction false} AimIsGood(env: Env, s: Store)
    requires StoreForm(env, s) && |env.docs| > 0
    ensures var c := EffectiveStart(Backfilled(env, s), env.docs);
            && c.Some? && InDocs(env.docs, c.value.rel, c.value.offset)
            && AimOf(env, s) == SkipBlank(env.docs, c.value, env.docs[DocIndex(env.docs, c.value.rel)].rel,
                                          c.value.offset,
                                          env.docs[DocIndex(env.docs, c.value.rel)].text)
  {
    EffectiveStartIsLast(env.docs, Backfilled(env, s));
  }

  lemma CutsShorter(ends: seq<nat>, n: nat, m: nat)
    requires B.CutsPrefix(ends, n) && n <= m
    ensures B.CutsPrefix(ends, m)
  {
  }

  /** A window starts in a source, with only blank text between the start it refers to and it. */
  ghost predicate WindowOk(docs: seq<Doc>, aim: Aim)
    requires aim.Window?
  {
    && (var d := DocIndex(docs, aim.rel); d < |docs| && docs[d].text == aim.text)
    && 0 <= aim.start <= |aim.text|
    && InDocs(docs, aim.startRef.rel, aim.startRef.offset)
    && Pos(docs, aim.startRef.rel, aim.startRef.offset) <= Pos(docs, aim.rel, aim.start)
    && BlankBetween(docs, Pos(docs, aim.startRef.rel, aim.startRef.offset), Pos(docs, aim.rel, aim.start))
  }

  lemma TextLeftShows(docs: seq<Doc>, d: nat, start: nat, from: int)
    requires d < |docs| && start <= |docs[d].text| && from <= Base(docs, d) + start && !Blank(docs[d].text[start..])
    ensures !BlankBetween(docs, from, Total(docs))
  {
    var x :| 0 <= x < |docs[d].text[start..]| && !IsSpace(docs[d].text[start..][x]);
    assert docs[d].text[start + x] == docs[d].text[start..][x];
    BaseGrows(docs, d, |docs|);
  }

  /** The aim of a plan call is exact: it reports that there is no source, or that everything is planned, exactly when
      that is so; and otherwise finds a window that starts behind nothing but blank text and still holds some. */
  lemma {:induction false} AimFindsWindow(env: Env, s: Store)
    requires StoreForm(env, s)
    ensures var aim := AimOf(env, s);
            var nothingLeft := BlankBetween(env.docs, EffPos(env.docs, Backfilled(env, s)), Total(env.docs));
            && (aim.NoSource? <==> |env.docs| == 0)
            && (aim.Exhausted? <==> |env.docs| > 0 && nothingLeft)
            && (aim.Window? <==> |env.docs| > 0 && !nothingLeft)
            && (aim.Window? ==> WindowOk(env.docs, aim) && !Blank(aim.text[aim.start..]))
  {
    hide Backfilled, EffectiveStart, BlankBetween, Blank;
    EffectiveStartIsLast(env.docs, Backfilled(env, s));
    if |env.docs| > 0 {
      AimIsGood(env, s);
      var c := EffectiveStart(Backfilled(env, s), env.docs).value;
      var d := DocIndex(env.docs, c.rel);
      SkipBlankFinds(env.docs, c, d, c.offset);
      var aim := AimOf(env, s);
      if aim.Window? {
        TextLeftShows(env.docs, DocIndex(env.docs, aim.rel), aim.start, Base(env.docs, d) + c.offset);
      }
    }
  }

  lemma {:induction false} PlanReadPrepares(env: Env, aim: Aim, size: nat, cut: Cut)
    requires aim.Window? ==> WindowOk(env.docs, aim)
    ensures var t := PlanTicketOf(aim, size, cut); t.Some? ==> PlanPrepared(env, t.value)
  {
    var t := PlanTicketOf(aim, size, cut);
    if t.Some? {
      CutsShorter(cut.ends, |Slice(aim.text, aim.start, aim.start + size)|, |aim.text| - aim.start);
    }
  }

  lemma {:induction false} ReplanReadPrepares(env: Env, p: Project, from: int, confirmed: bool, cuts: seq<Cut>)
    ensures var t := ReplanTicketOf(env, p, from, confirmed, cuts);
            t.Some? ==>
              && (exists pieces, cs :: ReplanPrepared(env, t.value, pieces, cs))
              && (t.value.consumed != [] ==> confirmed)
  {
    hide LayOutAll, Backfilled;
    var t := ReplanTicketOf(env, p, from, confirmed, cuts);
    if t.Some? {
      var pieces := ReplanScope(p, from).value.pieces;
      forall i | 0 <= i < |pieces| ensures Inside(env, pieces[i]) {
      }
      assert ReplanPrepared(env, t.value, pieces, cuts);
    }
  }

  // ---------- status changes made elsewhere ----------

  /** The same row, or the same anchored row consumed meanwhile. */
  ghost predicate SameRow(e: Entry, f: Entry) {
    f == e || (e.status.Some? && e.range.Some? && f == e.(status := Some(Consumed)))
  }

  ghost predicate SameRows(a: seq<Entry>, b: seq<Entry>) {
    |a| == |b| && forall i :: 0 <= i < |a| ==> SameRow(a[i], b[i])
  }

  lemma {:induction false} SameIndex(a: seq<Entry>, b: seq<Entry>, n: int)
    requires SameRows(a, b)
    ensures IndexOf(a, n) == IndexOf(b, n)
  {
    if |a| > 0 {
      assert SameRow(a[0], b[0]);
      SameIndex(a[1..], b[1..], n);
    }
  }

  lemma SameNumbers(a: seq<Entry>, b: seq<Entry>)
    requires SameRows(a, b)
    ensures NumsOf(a) == NumsOf(b)
  {
    forall n ensures n in NumsOf(a) <==> n in NumsOf(b) {
      BackfillLaws.MemberIsIndexed(a, n);
      BackfillLaws.MemberIsIndexed(b, n);
      SameIndex(a, b, n);
    }
  }

  lemma {:induction false} SameInsert(e: Entry, f: Entry, a: seq<Entry>, b: seq<Entry>)
    requires e.num.Some? && AllNumbered(a) && SameRow(e, f) && SameRows(a, b)
    ensures f.num.Some? && AllNumbered(b) && SameRows(Insert(e, a), Insert(f, b))
  {
    forall i | 0 <= i < |b| ensures b[i].num.Some? {
      assert SameRow(a[i], b[i]);
    }
    if |a| > 0 {
      assert SameRow(a[0], b[0]);
      SameInsert(e, f, a[1..], b[1..]);
    }
  }

  lemma {:induction false} SameSort(a: seq<Entry>, b: seq<Entry>)
    requires AllNumbered(a) && SameRows(a, b)
    ensures AllNumbered(b) && SameRows(Sort(a), Sort(b))
  {
    forall i | 0 <= i < |b| ensures b[i].num.Some? {
      assert SameRow(a[i], b[i]);
    }
    if |a| > 0 {
      SameSort(a[1..], b[1..]);
      SameInsert(a[0], b[0], Sort(a[1..]), Sort(b[1..]));
    }
  }

  lemma SameArrange(a: seq<Entry>, b: seq<Entry>)
    requires SameRows(a, b)
    ensures SameRows(Arrange(a), Arrange(b))
  {
    assert AllNumbered(b) ==> AllNumbered(a) by {
      forall i | 0 <= i < |a| && AllNumbered(b) ensures a[i].num.Some? {
        assert SameRow(a[i], b[i]);
      }
    }
    if AllNumbered(a) {
      SameSort(a, b);
    }
  }

  lemma SameWithOrphans(a: seq<Entry>, b: seq<Entry>, files: map<int, string>)
    requires SameRows(a, b)
    ensures SameRows(WithOrphans(a, files), WithOrphans(b, files))
  {
    SameNumbers(a, b);
    var orphans := OrphanEntries(Ascending(Discovered(files) - NumsOf(a)));
    forall i | 0 <= i < |a + orphans| ensures SameRow((a + orphans)[i], (b + orphans)[i]) {
    }
    SameArrange(a + orphans, b + orphans);
  }

  /** Walks in the same place, over the same rows but for consumed ones. */
  ghost predicate SameWalk(v: Walk, w: Walk) {
    SameRows(v.episodes, w.episodes) && v.(episodes := []) == w.(episodes := [])
  }

  lemma SameVisit(disk: Disk, n: int, v: Walk, w: Walk)
    requires WalkOk(disk, v) && WalkOk(disk, w) && SameWalk(v, w)
    ensures SameWalk(Visit(disk, n, v), Visit(disk, n, w))
  {
    hide FindInSources, FileText;
    SameIndex(v.episodes, w.episodes, n);
    var i := IndexOf(v.episodes, n);
    if i < |v.episodes| {
      assert SameRow(v.episodes[i], w.episodes[i]);
    }
  }

  lemma {:induction false} SameVisitAll(disk: Disk, keys: seq<int>, v: Walk, w: Walk)
    requires WalkOk(disk, v) && WalkOk(disk, w) && SameWalk(v, w)
    ensures SameWalk(VisitAll(disk, keys, v), VisitAll(disk, keys, w))
    decreases |keys|
  {
    hide Visit, SameWalk;
    if |keys| > 0 {
      SameVisit(disk, keys[0], v, w);
      SameVisitAll(disk, keys[1..], Visit(disk, keys[0], v), Visit(disk, keys[0], w));
    }
  }

  lemma SamePending(a: seq<Entry>, b: seq<Entry>)
    requires SameRows(a, b)
    ensures NothingPending(a) <==> NothingPending(b)
  {
    SameNumbers(a, b);
    forall n ensures IndexOf(a, n) == IndexOf(b, n) {
      SameIndex(a, b, n);
    }
    forall i | 0 <= i < |a| ensures a[i].status.Some? <==> b[i].status.Some? {
      assert SameRow(a[i], b[i]);
    }
  }

  lemma SameCursor(disk: Disk, v: Walk, w: Walk)
    requires WalkOk(disk, v) && WalkOk(disk, w) && SameWalk(v, w)
    ensures DeriveCursor(disk, v) == DeriveCursor(disk, w)
  {
    hide FindInSources;
  }

  /** Backfill is blind to consumption: the same rows but for consumed ones, and the same cursor. */
  lemma SameBackfill(p: Project, q: Project, disk: Disk)
    requires SameRows(p.episodes, q.episodes) && p.cursor == q.cursor
    ensures SameRows(Backfill(p, disk).episodes, Backfill(q, disk).episodes)
    ensures Backfill(p, disk).cursor == Backfill(q, disk).cursor
  {
    hide VisitAll, DeriveCursor, WithOrphans, NothingPending;
    var a, b := WithOrphans(p.episodes, disk.files), WithOrphans(q.episodes, disk.files);
    SameWithOrphans(p.episodes, q.episodes, disk.files);
    SamePending(a, b);
    SameNumbers(a, b);
    var keys := Ascending(NumsOf(a));
    SameVisitAll(disk, keys, FreshWalk(disk, a), FreshWalk(disk, b));
    SameCursor(disk, VisitAll(disk, keys, FreshWalk(disk, a)), VisitAll(disk, keys, FreshWalk(disk, b)));
  }

  lemma {:induction false} SameLastAnchored(a: seq<Entry>, b: seq<Entry>, best: Option<int>, last: Option<Cursor>)
    requires SameRows(a, b)
    ensures LastAnchored(a, best, last) == LastAnchored(b, best, last)
  {
    if |a| > 0 {
      assert SameRow(a[0], b[0]);
      SameLastAnchored(a[1..], b[1..], best, last);
      SameLastAnchored(a[1..], b[1..], a[0].num,
        if a[0].range.Some? then Some(Cursor(a[0].range.value.rel, a[0].range.value.end)) else last);
    }
  }

  lemma SameRowsForm(docs: seq<Doc>, a: seq<Entry>, b: seq<Entry>)
    requires SameRows(a, b) && RowsForm(docs, a)
    ensures RowsForm(docs, b)
  {
    forall i | 0 <= i < |a|
      ensures b[i].num == a[i].num && b[i].range == a[i].range && b[i].status.Some?
      ensures b[i].status == a[i].status || (b[i].status == Some(Consumed) && a[i].range.Some?)
    {
      assert SameRow(a[i], b[i]);
    }
  }

  lemma SameRowsCover(a: seq<Entry>, b: seq<Entry>, rel: string, x: int)
    requires SameRows(a, b)
    ensures Covered(a, rel, x) <==> Covered(b, rel, x)
  {
    forall i | 0 <= i < |a| ensures a[i].range == b[i].range {
      assert SameRow(a[i], b[i]);
    }
    if Covered(a, rel, x) {
      var i :| 0 <= i < |a| && a[i].range.Some? && a[i].range.value.rel == rel
               && a[i].range.value.start <= x < a[i].range.value.end;
      assert b[i].range == a[i].range;
    }
    if Covered(b, rel, x) {
      var i :| 0 <= i < |b| && b[i].range.Some? && b[i].range.value.rel == rel
               && b[i].range.value.start <= x < b[i].range.value.end;
      assert a[i].range == b[i].range;
    }
  }

  ghost function Front(env: Env, s: Store): int {
    EffPos(env.docs, Backfilled(env, s))
  }

  ghost function WithConsumed(s: Store, num: int): Store {
    s.(project := s.project.(episodes := Consume(s.project.episodes, num)))
  }

  lemma ConsumeIsSame(env: Env, s: Store, num: int)
    ensures var p, q := Backfilled(env, s), Backfilled(env, WithConsumed(s, num));
            SameRows(p.episodes, q.episodes) && p.cursor == q.cursor
  {
    hide Backfill;
    var s' := WithConsumed(s, num);
    forall i | 0 <= i < |s.project.episodes| ensures SameRow(s.project.episodes[i], s'.project.episodes[i]) {
    }
    SameBackfill(s.project, s'.project, DiskOf(env, s));
    assert DiskOf(env, s') == DiskOf(env, s);
  }

  /** An episode consumed elsewhere moves no range and no start. */
  lemma {:induction false} ConsumeKeeps(env: Env, s: Store, num: int)
    requires StoreForm(env, s)
    ensures StoreForm(env, WithConsumed(s, num))
    ensures Front(env, WithConsumed(s, num)) == Front(env, s)
    ensures forall rel, x :: Covered(Backfilled(env, WithConsumed(s, num)).episodes, rel, x) <==>
                             Covered(Backfilled(env, s).episodes, rel, x)
  {
    hide Backfilled, Covered, WithConsumed, SameRows;
    var p, q := Backfilled(env, s), Backfilled(env, WithConsumed(s, num));
    ConsumeIsSame(env, s, num);
    SameRowsForm(env.docs, p.episodes, q.episodes);
    SameLastAnchored(p.episodes, q.episodes, None, None);
    forall rel, x ensures Covered(q.episodes, rel, x) <==> Covered(p.episodes, rel, x) {
      SameRowsCover(p.episodes, q.episodes, rel, x);
    }
  }

  // ---------- every step keeps the invariant ----------

  lemma {:induction false} FrontAfterPlan(env: Env, s: Store, t: PlanTicket)
    requires StoreForm(env, s) && PlanPrepared(env, t) && CommitPlan(env, s, t).Done?
    ensures StoreForm(env, CommitPlan(env, s, t).store)
    ensures Front(env, s) < Front(env, CommitPlan(env, s, t).store)
  {
    PlanCommitAdvances(env, s, t);
    PlanCommitIsFixed(env, s, t);
  }

  lemma {:induction false} FrontAfterReplan(env: Env, s: Store, t: ReplanTicket, pieces: seq<Piece>, cuts: seq<Cut>)
    requires StoreForm(env, s) && ReplanPrepared(env, t, pieces, cuts) && CommitReplan(env, s, t).Done?
    ensures StoreForm(env, CommitReplan(env, s, t).store)
    ensures Front(env, s) == Front(env, CommitReplan(env, s, t).store)
  {
    ReplanCommitKeeps(env, s, t, pieces, cuts);
    ReplanCommitIsFixed(env, s, t);
  }

  lemma {:induction false} WritePlanKeepsInv(env: Env, w: World, id: nat)
    requires Inv(env, w)
    ensures Inv(env, Next(env, w, WritePlan(id)))
  {
    hide CommitPlan, CommitReplan, AimOf, PlanTicketOf, ReplanTicketOf, ReplanPrepared, LedgerForm, Backfilled;
    if id in w.plans && CommitPlan(env, w.store, w.plans[id]).Done? {
      FrontAfterPlan(env, w.store, w.plans[id]);
    }
  }

  lemma {:induction false} WriteReplanKeepsInv(env: Env, w: World, id: nat)
    requires Inv(env, w)
    ensures Inv(env, Next(env, w, WriteReplan(id)))
  {
    hide CommitPlan, CommitReplan, AimOf, PlanTicketOf, ReplanTicketOf, ReplanPrepared, LedgerForm, Backfilled;
    if id in w.replans && CommitReplan(env, w.store, w.replans[id].0).Done? {
      var t := w.replans[id].0;
      var pieces, cuts :| ReplanPrepared(env, t, pieces, cuts);
      FrontAfterReplan(env, w.store, t, pieces, cuts);
    }
  }

  lemma {:induction false} ReadPlanKeepsInv(env: Env, w: World, id: nat, size: nat, cut: Cut)
    requires Inv(env, w)
    ensures Inv(env, Next(env, w, ReadPlan(id, size, cut)))
  {
    hide CommitPlan, CommitReplan, AimOf, PlanTicketOf, ReplanTicketOf, ReplanPrepared, LedgerForm, Backfilled;
    AimFindsWindow(env, w.store);
    PlanReadPrepares(env, AimOf(env, w.store), size, cut);
  }

  lemma {:induction false} ReadReplanKeepsInv(env: Env, w: World, id: nat, from: int, confirmed: bool, cuts: seq<Cut>)
    requires Inv(env, w)
    ensures Inv(env, Next(env, w, ReadReplan(id, from, confirmed, cuts)))
  {
    hide CommitPlan, CommitReplan, AimOf, PlanTicketOf, ReplanTicketOf, ReplanPrepared, LedgerForm, Backfilled;
    ReplanReadPrepares(env, Backfilled(env, w.store), from, confirmed, cuts);
  }

  lemma {:induction false} StepKeepsInv(env: Env, w: World, step: Step)
    requires Inv(env, w)
    ensures Inv(env, Next(env, w, step))
  {
    hide CommitPlan, CommitReplan, AimOf, PlanTicketOf, ReplanTicketOf, ReplanPrepared, LedgerForm, Backfilled;
    match step
    case ReadPlan(id, size, cut) => ReadPlanKeepsInv(env, w, id, size, cut);
    case WritePlan(id) => WritePlanKeepsInv(env, w, id);
    case ReadReplan(id, from, confirmed, cuts) => ReadReplanKeepsInv(env, w, id, from, confirmed, cuts);
    case WriteReplan(id) => WriteReplanKeepsInv(env, w, id);
    case MarkConsumed(num) => ConsumeKeeps(env, w.store, num);
  }

  /** Safety over whole runs: whatever calls are interleaved, and however stale their reads are, the ledger as every
      call sees it, after backfill, keeps positive increasing numbers and disjoint ranges in source order.
      `PlannerHealth` says which projects start that way. */
  lemma {:induction false} LedgerStaysHealthy(env: Env, w: World, steps: seq<Step>)
    requires Inv(env, w)
    ensures Inv(env, Run(env, w, steps))
    decreases |steps|
  {
    if |steps| > 0 {
      StepKeepsInv(env, w, steps[0]);
      LedgerStaysHealthy(env, Next(env, w, steps[0]), steps[1..]);
    }
  }

  // ---------- progress ----------

  /** A step that commits a plan. */
  ghost predicate CommitsPlan(env: Env, w: World, step: Step) {
    step.WritePlan? && step.id in w.plans && TicketShape(w.plans[step.id])
    && CommitPlan(env, w.store, w.plans[step.id]).Done?
  }

  ghost function PlanCommits(env: Env, w: World, steps: seq<Step>): nat
    requires DistinctDocs(env.docs)
    decreases |steps|
  {
    if |steps| == 0 then 0
    else (if CommitsPlan(env, w, steps[0]) then 1 else 0) + PlanCommits(env, Next(env, w, steps[0]), steps[1..])
  }

  /** The start of the next plan only moves when a plan commits, and then it moves forward. */
  lemma {:induction false} StepMovesFront(env: Env, w: World, step: Step)
    requires Inv(env, w)
    ensures if CommitsPlan(env, w, step) then Front(env, w.store) < Front(env, Next(env, w, step).store)
            else Front(env, w.store) == Front(env, Next(env, w, step).store)
  {
    hide CommitPlan, CommitReplan, AimOf, PlanTicketOf, ReplanTicketOf, ReplanPrepared, LedgerForm, Backfilled;
    match step
    case ReadPlan(id, size, cut) =>
    case WritePlan(id) =>
      if CommitsPlan(env, w, step) {
        FrontAfterPlan(env, w.store, w.plans[id]);
      }
    case ReadReplan(id, from, confirmed, cuts) =>
    case WriteReplan(id) =>
      if id in w.replans && CommitReplan(env, w.store, w.replans[id].0).Done? {
        var t := w.replans[id].0;
        var pieces, cuts :| ReplanPrepared(env, t, pieces, cuts);
        FrontAfterReplan(env, w.store, t, pieces, cuts);
      }
    case MarkConsumed(num) => ConsumeKeeps(env, w.store, num);
  }

  /** Planning over fixed sources terminates: in every run, whatever replans happen in between, at most as many
      plans commit as there are characters from the first start to the end of the sources. */
  lemma {:induction false} PlanningTerminates(env: Env, w: World, steps: seq<Step>)
    requires Inv(env, w)
    ensures Front(env, w.store) + PlanCommits(env, w, steps) <= Front(env, Run(env, w, steps).store) <= Total(env.docs)
    decreases |steps|
  {
    if |steps| == 0 {
      EffectiveStartIsLast(env.docs, Backfilled(env, w.store));
    } else {
      StepKeepsInv(env, w, steps[0]);
      StepMovesFront(env, w, steps[0]);
      PlanningTerminates(env, Next(env, w, steps[0]), steps[1..]);
    }
  }

  // ---------- coverage ----------

  /** Every character that is not white space, from `g0` on the line up to the next start, belongs to an episode. */
  ghost predicate CoveredFrom(env: Env, s: Store, g0: int) {
    forall d, x :: 0 <= d < |env.docs| && 0 <= x < |env.docs[d].text| && !IsSpace(env.docs[d].text[x])
                   && g0 <= Base(env.docs, d) + x < Front(env, s) ==>
      Covered(Backfilled(env, s).episodes, env.docs[d].rel, x)
  }

  lemma SameDoc(docs: seq<Doc>, i: nat, lo: int, hi: int, d: nat, x: nat)
    requires i < |docs| && 0 <= lo && hi <= |docs[i].text| && d < |docs| && x < |docs[d].text|
    requires Base(docs, i) + lo <= Base(docs, d) + x < Base(docs, i) + hi
    ensures d == i
  {
    if d < i {
      BaseGrows(docs, d, i);
    } else if i < d {
      BaseGrows(docs, i, d);
    }
  }

  lemma {:induction false} PlanCommitCovers(env: Env, s: Store, t: PlanTicket, g0: int)
    requires StoreForm(env, s) && PlanPrepared(env, t) && CommitPlan(env, s, t).Done?
    requires CoveredFrom(env, s, g0)
    ensures CoveredFrom(env, CommitPlan(env, s, t).store, g0)
  {
    hide CommitPlan, LedgerForm, Covered;
    var s' := CommitPlan(env, s, t).store;
    var p := Backfilled(env, s);
    PlanCommitChecks(env, s, t);
    PlannedLedgerForm(env, p, t);
    PlanCommitIsFixed(env, s, t);
    var last := t.ends[|t.ends| - 1];
    var rows := NewRows(t, NextNum(p.episodes));
    assert Front(env, s') == Pos(env.docs, t.rel, t.start + last);
    forall d, x | 0 <= d < |env.docs| && 0 <= x < |env.docs[d].text| && !IsSpace(env.docs[d].text[x])
                  && g0 <= Base(env.docs, d) + x < Front(env, s')
      ensures Covered(Backfilled(env, s').episodes, env.docs[d].rel, x)
    {
      CoveredJoin(p.episodes, rows, env.docs[d].rel, x);
      if Base(env.docs, d) + x >= Front(env, s) {
        var i := DocIndex(env.docs, t.rel);
        assert Base(env.docs, d) + x >= Pos(env.docs, t.rel, t.start);
        SameDoc(env.docs, i, t.start, t.start + last, d, x);
        NewRowsCover(t, NextNum(p.episodes), x, |t.ends| - 1);
      }
    }
  }

  lemma {:induction false} StepKeepsCoverage(env: Env, w: World, step: Step, g0: int)
    requires Inv(env, w) && CoveredFrom(env, w.store, g0)
    ensures CoveredFrom(env, Next(env, w, step).store, g0)
  {
    hide CommitPlan, CommitReplan, AimOf, PlanTicketOf, ReplanTicketOf, ReplanPrepared, LedgerForm, Front, Covered,
         Backfilled;
    StepMovesFront(env, w, step);
    match step
    case ReadPlan(id, size, cut) =>
    case WritePlan(id) =>
      if CommitsPlan(env, w, step) {
        PlanCommitCovers(env, w.store, w.plans[id], g0);
      }
    case ReadReplan(id, from, confirmed, cuts) =>
    case WriteReplan(id) =>
      if id in w.replans && CommitReplan(env, w.store, w.replans[id].0).Done? {
        var t := w.replans[id].0;
        var pieces, cuts :| ReplanPrepared(env, t, pieces, cuts);
        ReplanCommitKeeps(env, w.store, t, pieces, cuts);
        ReplanCommitIsFixed(env, w.store, t);
      }
    case MarkConsumed(num) => ConsumeKeeps(env, w.store, num);
  }

  lemma {:induction false} RunKeepsCoverage(env: Env, w: World, steps: seq<Step>, g0: int)
    requires Inv(env, w) && CoveredFrom(env, w.store, g0)
    ensures CoveredFrom(env, Run(env, w, steps).store, g0)
    decreases |steps|
  {
    if |steps| > 0 {
      StepKeepsInv(env, w, steps[0]);
      StepKeepsCoverage(env, w, steps[0], g0);
      RunKeepsCoverage(env, Next(env, w, steps[0]), steps[1..], g0);
    }
  }

  /** Row `i` holds character `x` of file `rel`. */
  ghost predicate Holds(eps: seq<Entry>, i: nat, rel: string, x: int) {
    i < |eps| && eps[i].range.Some? && eps[i].range.value.rel == rel
    && eps[i].range.value.start <= x < eps[i].range.value.end
  }

  ghost predicate HeldOnce(eps: seq<Entry>, rel: string, x: int) {
    exists i: nat :: Holds(eps, i, rel, x) && forall j: nat :: Holds(eps, j, rel, x) ==> j == i
  }

  lemma InOrderPair(docs: seq<Doc>, eps: seq<Entry>, i: nat, j: nat)
    requires RangesInOrder(docs, eps) && i < j < |eps| && eps[i].range.Some? && eps[j].range.Some?
    ensures EndPos(docs, eps[i].range.value) <= StartPos(docs, eps[j].range.value)
  {
  }

  lemma OneHolder(docs: seq<Doc>, eps: seq<Entry>, rel: string, x: int, i: nat, j: nat)
    requires RangesInOrder(docs, eps) && Holds(eps, i, rel, x) && Holds(eps, j, rel, x)
    ensures i == j
  {
    if i < j {
      InOrderPair(docs, eps, i, j);
    } else if j < i {
      InOrderPair(docs, eps, j, i);
    }
  }

  lemma {:induction false} HealthyHoldsOnce(docs: seq<Doc>, eps: seq<Entry>, rel: string, x: int)
    requires RangesInOrder(docs, eps) && Covered(eps, rel, x)
    ensures HeldOnce(eps, rel, x)
  {
    var i: nat :| 0 <= i < |eps| && eps[i].range.Some? && eps[i].range.value.rel == rel
                  && eps[i].range.value.start <= x < eps[i].range.value.end;
    assert Holds(eps, i, rel, x);
    forall j: nat | Holds(eps, j, rel, x) ensures j == i {
      OneHolder(docs, eps, rel, x, i, j);
    }
  }

  /** What exhaustion means: every non-blank character from the first start of the run to the end of the sources
      is held by exactly one episode. */
  ghost predicate FullyPlanned(env: Env, s: Store, g0: int) {
    forall d, x :: 0 <= d < |env.docs| && 0 <= x < |env.docs[d].text| && !IsSpace(env.docs[d].text[x])
                   && g0 <= Base(env.docs, d) + x ==>
      HeldOnce(Backfilled(env, s).episodes, env.docs[d].rel, x)
  }

  lemma {:induction false} CoveredAndBlankIsFull(env: Env, s: Store, g0: int)
    requires StoreForm(env, s) && CoveredFrom(env, s, g0) && BlankBetween(env.docs, Front(env, s), Total(env.docs))
    ensures FullyPlanned(env, s, g0)
  {
    forall d, x | 0 <= d < |env.docs| && 0 <= x < |env.docs[d].text| && !IsSpace(env.docs[d].text[x])
                  && g0 <= Base(env.docs, d) + x
      ensures HeldOnce(Backfilled(env, s).episodes, env.docs[d].rel, x)
    {
      BaseGrows(env.docs, d, |env.docs|);
      HealthyHoldsOnce(env.docs, Backfilled(env, s).episodes, env.docs[d].rel, x);
    }
  }

  /** Coverage over whole runs. When a plan call finds nothing left to plan, the run has planned everything. */
  lemma {:induction false} ExhaustionIsTrue(env: Env, w: World, steps: seq<Step>)
    requires Inv(env, w) && AimOf(env, Run(env, w, steps).store).Exhausted?
    ensures FullyPlanned(env, Run(env, w, steps).store, Front(env, w.store))
  {
    var w' := Run(env, w, steps);
    LedgerStaysHealthy(env, w, steps);
    RunKeepsCoverage(env, w, steps, Front(env, w.store));
    AimFindsWindow(env, w'.store);
    CoveredAndBlankIsFull(env, w'.store, Front(env, w.store));
  }

  /** The same when a commit reports exhaustion itself. */
  lemma {:induction false} ReportedExhaustionIsTrue(env: Env, w: World, steps: seq<Step>, id: nat)
    requires Inv(env, w)
    requires var v := Run(env, w, steps);
             && id in v.plans && CommitsPlan(env, v, WritePlan(id))
             && CommitPlan(env, v.store, v.plans[id]).exhausted
    ensures var v := Run(env, w, steps);
            FullyPlanned(env, Next(env, v, WritePlan(id)).store, Front(env, w.store))
  {
    var v := Run(env, w, steps);
    var v' := Next(env, v, WritePlan(id));
    var t := v.plans[id];
    LedgerStaysHealthy(env, w, steps);
    StepKeepsInv(env, v, WritePlan(id));
    RunKeepsCoverage(env, w, steps, Front(env, w.store));
    StepKeepsCoverage(env, v, WritePlan(id), Front(env, w.store));
    ExhaustedTailIsBlank(env, v.store, t);
    CoveredAndBlankIsFull(env, v'.store, Front(env, w.store));
  }

  lemma {:induction false} FrontOfPlanned(env: Env, s: Store, t: PlanTicket)
    requires StoreForm(env, s) && PlanPrepared(env, t) && CommitPlan(env, s, t).Done?
    ensures Front(env, CommitPlan(env, s, t).store) == Pos(env.docs, t.rel, t.start + t.ends[|t.ends| - 1])
  {
    PlanCommitChecks(env, s, t);
    PlannedLedgerForm(env, Backfilled(env, s), t);
    PlanCommitIsFixed(env, s, t);
  }

  lemma {:induction false} LastDocTailIsBlank(env: Env, t: PlanTicket)
    requires PlanPrepared(env, t) && PlanExhausts(env, t)
    ensures BlankBetween(env.docs, Pos(env.docs, t.rel, t.start + t.ends[|t.ends| - 1]), Total(env.docs))
  {
    var i := DocIndex(env.docs, t.rel);
    assert i + 1 == |env.docs|;
    BlankRestOfDoc(env.docs, i, t.start + t.ends[|t.ends| - 1]);
  }

  lemma {:induction false} ExhaustedTailIsBlank(env: Env, s: Store, t: PlanTicket)
    requires StoreForm(env, s) && PlanPrepared(env, t) && CommitPlan(env, s, t).Done? && CommitPlan(env, s, t).exhausted
    ensures BlankBetween(env.docs, Front(env, CommitPlan(env, s, t).store), Total(env.docs))
  {
    FrontOfPlanned(env, s, t);
    PlanCommitChecks(env, s, t);
    LastDocTailIsBlank(env, t);
  }

  // ---------- derived files ----------

  /** A commit by either kind of call. */
  ghost predicate Commits(env: Env, w: World, step: Step) {
    || CommitsPlan(env, w, step)
    || (step.WriteReplan? && step.id in w.replans && CommitReplan(env, w.store, w.replans[step.id].0).Done?)
  }

  lemma NumberedTwinsAgree(env: Env, cache: map<string, string>, eps: seq<Entry>)
    requires Numbered(eps)
    ensures TwinsAgree(env, cache, eps)
  {
    forall i, j | 0 <= i < |eps| && 0 <= j < |eps| && eps[i].num == eps[j].num ensures i == j {
    }
  }

  /** The texts a call has kept are what loading would give. */
  lemma KeptTextsAreCurrent(env: Env, cache: map<string, string>, eps: seq<Entry>, files: map<int, string>)
    requires FilesMatch(env, cache, eps, files) && forall rel :: rel in cache ==> Load(env, rel) == Some(cache[rel])
    ensures FilesMatch(env, map[], eps, files)
  {
    forall i | 0 <= i < |eps| ensures EntryText(env, cache, eps[i]) == EntryText(env, map[], eps[i]) {
    }
  }

  lemma {:induction false} PlanCommitFiles(env: Env, s: Store, t: PlanTicket)
    requires StoreForm(env, s) && PlanPrepared(env, t) && CommitPlan(env, s, t).Done?
    ensures var s' := CommitPlan(env, s, t).store;
            FilesMatch(env, map[], s'.project.episodes, s'.files) && Discovered(s'.files) <= NumsOf(s'.project.episodes)
  {
    hide LedgerForm, Backfilled, FilesMatch, TwinsAgree, EffectiveStart;
    var p', cache := PlannedLedger(Backfilled(env, s), t), map[t.rel := t.text];
    FrontAfterPlan(env, s, t);
    PlanCommitChecks(env, s, t);
    CommitRefinesLedger(env, cache, s, p', PlanExhausts(env, t));
    PlanCommitIsFixed(env, s, t);
    HealthyIsNumbered(env, CommitPlan(env, s, t).store);
    NumberedTwinsAgree(env, cache, p'.episodes);
    KeptTextsAreCurrent(env, cache, p'.episodes, CommitPlan(env, s, t).store.files);
  }

  lemma HealthyIsNumbered(env: Env, s: Store)
    requires StoreForm(env, s)
    ensures Numbered(Backfilled(env, s).episodes)
  {
  }

  lemma {:induction false} ReplanCommitFiles(env: Env, s: Store, t: ReplanTicket, pieces: seq<Piece>, cuts: seq<Cut>)
    requires StoreForm(env, s) && ReplanPrepared(env, t, pieces, cuts) && CommitReplan(env, s, t).Done?
    ensures var s' := CommitReplan(env, s, t).store;
            FilesMatch(env, map[], s'.project.episodes, s'.files) && Discovered(s'.files) <= NumsOf(s'.project.episodes)
  {
    hide LedgerForm, Backfilled, FilesMatch, TwinsAgree, ReplannedLedger;
    var p := Backfilled(env, s);
    var p' := ReplannedLedger(p, Affected(p.episodes, t.from), t);
    FrontAfterReplan(env, s, t, pieces, cuts);
    ReplanCommitChecks(env, s, t);
    CommitRefinesLedger(env, t.texts, s, p', false);
    ReplanCommitIsFixed(env, s, t);
    HealthyIsNumbered(env, CommitReplan(env, s, t).store);
    NumberedTwinsAgree(env, t.texts, p'.episodes);
    KeptTextsAreCurrent(env, t.texts, p'.episodes, CommitReplan(env, s, t).store.files);
  }

  /** Files follow the ledger: after every commit of every run, each anchored episode's derived file is exactly its
      slice of the source, and no derived file is left without an episode. */
  lemma {:induction false} FilesFollowLedger(env: Env, w: World, steps: seq<Step>, step: Step)
    requires Inv(env, w) && Commits(env, Run(env, w, steps), step)
    ensures var s := Next(env, Run(env, w, steps), step).store;
            FilesMatch(env, map[], s.project.episodes, s.files) && Discovered(s.files) <= NumsOf(s.project.episodes)
  {
    hide CommitPlan, CommitReplan, AimOf, PlanTicketOf, ReplanTicketOf, ReplanPrepared, LedgerForm, Backfilled,
         FilesMatch, Run;
    LedgerStaysHealthy(env, w, steps);
    var v := Run(env, w, steps);
    StepKeepsInv(env, v, step);
    if step.WritePlan? {
      PlanCommitFiles(env, v.store, v.plans[step.id]);
    } else {
      var t := v.replans[step.id].0;
      var pieces, cuts :| ReplanPrepared(env, t, pieces, cuts);
      ReplanCommitFiles(env, v.store, t, pieces, cuts);
    }
  }

  // ---------- consumed episodes ----------

  /** No consumed episode is re-cut behind the user's back: when a replan commits at any point of any run, every
      episode that is consumed at that moment was consumed, and listed to the user, when the call read the ledger,
      and the user confirmed the call. */
  lemma {:induction false} ConsumedOnlyIfConfirmed(env: Env, w: World, steps: seq<Step>, id: nat, num: int)
    requires Inv(env, w)
    requires var v := Run(env, w, steps);
             id in v.replans && CommitReplan(env, v.store, v.replans[id].0).Done?
             && num in ConsumedNums(Affected(Backfilled(env, v.store).episodes, v.replans[id].0.from))
    ensures var v := Run(env, w, steps);
            num in v.replans[id].0.consumed && v.replans[id].1
  {
    LedgerStaysHealthy(env, w, steps);
    var v := Run(env, w, steps);
    ReplanCommitChecks(env, v.store, v.replans[id].0);
  }
}
