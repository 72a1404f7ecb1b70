/** Optimistic concurrency over whole runs: a call that has been overtaken can never commit. */
module PlannerStale {
  import opened Options
  import opened EpisodeLedger
  import opened Planner
  import opened BackfillSees
  import opened CommitCrashes
  import opened CommitLaws
  import opened ReplanLaws
  import opened PlannerForm
  import opened PlannerSteps
  import opened PlannerRuns

  // ---------- plans ----------

  /** The start a pending plan refers to still is the next start. */
  ghost predicate CurrentPlan(env: Env, w: World, id: nat) {
    id in w.plans && EffectiveStart(Backfilled(env, w.store), env.docs) == Some(w.plans[id].startRef)
  }

  /** The call still has the ticket it read. */
  ghost predicate StillPending(w: World, v: World, id: nat) {
    id in w.plans && id in v.plans && v.plans[id] == w.plans[id]
  }

  /** A plan read leaves a ticket that is current. */
  lemma {:induction false} ReadPlanIsCurrent(env: Env, w: World, id: nat, size: nat, cut: Cut)
    requires Inv(env, w) && PlanTicketOf(AimOf(env, w.store), size, cut).Some?
    ensures CurrentPlan(env, Next(env, w, ReadPlan(id, size, cut)), id)
  {
    hide Backfilled, LedgerForm, WindowOk;
    StartOfAim(env, w.store);
  }

  lemma {:induction false} StartOfAim(env: Env, s: Store)
    requires StoreForm(env, s) && AimOf(env, s).Window?
    ensures EffectiveStart(Backfilled(env, s), env.docs) == Some(AimOf(env, s).startRef)
  {
    hide Backfilled, EffectiveStart;
    if |env.docs| > 0 {
      AimIsGood(env, s);
      var c := EffectiveStart(Backfilled(env, s), env.docs).value;
      SkipBlankFinds(env.docs, c, DocIndex(env.docs, c.rel), c.offset);
    } else {
      EffectiveStartIsLast(env.docs, Backfilled(env, s));
    }
  }

  /** Once any plan has committed after a plan call's read, that call's commit is refused, without effect, at every
      later point of every run. */
  lemma {:induction false} OvertakenPlanNeverCommits(env: Env, w: World, steps: seq<Step>, id: nat)
    requires Inv(env, w) && CurrentPlan(env, w, id) && PlanCommits(env, w, steps) > 0
    requires StillPending(w, Run(env, w, steps), id)
    ensures var v := Run(env, w, steps);
            !CommitsPlan(env, v, WritePlan(id)) && Next(env, v, WritePlan(id)).store == v.store
  {
    hide *;
    InvHasDistinctDocs(env, w);
    var v := Run(env, w, steps);
    LedgerStaysHealthy(env, w, steps);
    PlanningTerminates(env, w, steps);
    CommitsAtSameFront(env, w, v, id);
    RefusedPlanHasNoEffect(env, w, v, id);
  }

  lemma {:induction false} CommitsAtSameFront(env: Env, w: World, v: World, id: nat)
    requires CurrentPlan(env, w, id) && StillPending(w, v, id)
    ensures CommitsPlan(env, v, WritePlan(id)) ==> Front(env, v.store) == Front(env, w.store)
  {
    hide CurrentPlan, CommitsPlan, Front;
    CommittingPlanIsCurrent(env, v, id);
    CurrentPlanFront(env, w, id);
    CurrentPlanFront(env, v, id);
  }

  lemma RefusedPlanHasNoEffect(env: Env, w: World, v: World, id: nat)
    requires DistinctDocs(env.docs) && StillPending(w, v, id)
    ensures !CommitsPlan(env, v, WritePlan(id)) ==> Next(env, v, WritePlan(id)).store == v.store
  {
    hide CommitPlan;
  }

  lemma {:induction false} CommittingPlanIsCurrent(env: Env, w: World, id: nat)
    ensures CommitsPlan(env, w, WritePlan(id)) ==> CurrentPlan(env, w, id)
  {
    hide Backfilled, CommitPlan;
    if CommitsPlan(env, w, WritePlan(id)) {
      PlanCommitChecks(env, w.store, w.plans[id]);
    }
  }

  lemma CurrentPlanFront(env: Env, w: World, id: nat)
    ensures CurrentPlan(env, w, id) ==>
              Front(env, w.store) == Pos(env.docs, w.plans[id].startRef.rel, w.plans[id].startRef.offset)
  {
    hide Backfilled, EffectiveStart;
  }

  /** Of two plans that refer to the same start at most one commits. */
  lemma {:induction false} OfTwoPlansOneCommits(env: Env, w: World, steps: seq<Step>, a: nat, b: nat)
    requires Inv(env, w) && CommitsPlan(env, w, WritePlan(a))
    requires a != b && b in w.plans && w.plans[b].startRef == w.plans[a].startRef
    requires StillPending(w, Run(env, Next(env, w, WritePlan(a)), steps), b)
    ensures !CommitsPlan(env, Run(env, Next(env, w, WritePlan(a)), steps), WritePlan(b))
  {
    hide Backfilled, LedgerForm, CommitPlan, Next;
    PlanCommitChecks(env, w.store, w.plans[a]);
    var all := [WritePlan(a)] + steps;
    assert all[0] == WritePlan(a) && all[1..] == steps;
    OvertakenPlanNeverCommits(env, w, all, b);
  }

  // ---------- the end of the ledger ----------

  /** Where the last range of the ledger ends, on the line; -1 when there is none. */
  ghost function EndOf(env: Env, eps: seq<Entry>): int {
    var c := LastAnchored(eps, None, None);
    if c.Some? then Pos(env.docs, c.value.rel, c.value.offset) else -1
  }

  ghost function LedgerEnd(env: Env, s: Store): int {
    EndOf(env, Backfilled(env, s).episodes)
  }

  lemma {:induction false} EndIsBeforeFront(env: Env, p: Project)
    requires LedgerForm(env.docs, p)
    ensures EndOf(env, p.episodes) <= EffPos(env.docs, p)
  {
    hide EffectiveStart;
    LastAnchoredScan(p.episodes, None, None);
    EffectiveStartIsLast(env.docs, p);
    FrontIsPositive(env.docs, p);
  }

  lemma FrontIsPositive(docs: seq<Doc>, p: Project)
    requires EndInDocs(docs, EffectiveStart(p, docs))
    ensures EffPos(docs, p) >= 0
  {
    hide EffectiveStart;
  }

  /** A plan commit moves the end of the ledger. */
  lemma {:induction false} PlanMovesEnd(env: Env, s: Store, t: PlanTicket)
    requires StoreForm(env, s) && PlanPrepared(env, t) && CommitPlan(env, s, t).Done?
    ensures LedgerEnd(env, s) < LedgerEnd(env, CommitPlan(env, s, t).store)
  {
    hide LedgerForm, EffectiveStart, CommitPlan, LastAnchored, Backfilled;
    var p := Backfilled(env, s);
    EndIsBeforeFront(env, p);
    FrontAfterPlan(env, s, t);
    FrontOfPlanned(env, s, t);
    PlanCommitChecks(env, s, t);
    PlanCommitIsFixed(env, s, t);
    PlannedLedgerEnd(env, p, t);
  }

  lemma {:induction false} PlannedLedgerEnd(env: Env, p: Project, t: PlanTicket)
    requires LedgerForm(env.docs, p) && PlanPrepared(env, t) && EffectiveStart(p, env.docs) == Some(t.startRef)
    ensures EndOf(env, PlannedLedger(p, t).episodes) == Pos(env.docs, t.rel, t.start + t.ends[|t.ends| - 1])
  {
    hide EffectiveStart, LastAnchored, PlannedLedger, Anchored, RangesInOrder;
    var rows := NewRows(t, NextNum(p.episodes));
    PlannedLedgerForm(env, p, t);
    NewRowShape(env, t, NextNum(p.episodes), |rows| - 1);
    assert (p.episodes + rows)[|p.episodes + rows| - 1] == rows[|rows| - 1];
    StartAtLastRow(env.docs, PlannedLedger(p, t));
  }

  lemma {:induction false} ReplanKeepsLedgerEnd(env: Env, s: Store, t: ReplanTicket, pieces: seq<Piece>, cuts: seq<Cut>)
    requires StoreForm(env, s) && ReplanPrepared(env, t, pieces, cuts) && CommitReplan(env, s, t).Done?
    ensures LedgerEnd(env, CommitReplan(env, s, t).store) == LedgerEnd(env, s)
  {
    hide CommitReplan, ReplanPrepared, LedgerForm, Backfilled, LastAnchored, Affected, ReplannedLedger, RangesOf;
    ReplanCommitChecks(env, s, t);
    ReplanInstalls(env, s, t);
    ReplanCommitIsFixed(env, s, t);
    ReplanKeepsEnd(env, Backfilled(env, s), t, pieces, cuts);
  }

  /** Only plan commits move the end of the ledger, and they move it forward. */
  lemma {:induction false} StepMovesEnd(env: Env, w: World, step: Step)
    requires Inv(env, w)
    ensures var before, after := LedgerEnd(env, w.store), LedgerEnd(env, Next(env, w, step).store);
            if CommitsPlan(env, w, step) then before < after else before == after
  {
    hide CommitPlan, CommitReplan, AimOf, PlanTicketOf, ReplanTicketOf, ReplanPrepared, LedgerForm, Backfilled,
         LastAnchored, LedgerEnd;
    match step
    case ReadPlan(id, size, cut) =>
    case WritePlan(id) =>
      if CommitsPlan(env, w, step) {
        PlanMovesEnd(env, w.store, w.plans[id]);
      }
    case ReadReplan(id, from, confirmed, cuts) =>
    case WriteReplan(id) =>
      if id in w.replans && CommitReplan(env, w.store, w.replans[id].0).Done? {
        var t := w.replans[id].0;
        var pieces, cuts :| ReplanPrepared(env, t, pieces, cuts);
        ReplanKeepsLedgerEnd(env, w.store, t, pieces, cuts);
      }
    case MarkConsumed(num) =>
      ConsumeKeepsLedgerEnd(env, w.store, num);
  }

  lemma {:induction false} ConsumeKeepsLedgerEnd(env: Env, s: Store, num: int)
    ensures LedgerEnd(env, WithConsumed(s, num)) == LedgerEnd(env, s)
  {
    hide Backfilled, SameRows;
    ConsumeIsSame(env, s, num);
    SameLastAnchored(Backfilled(env, s).episodes, Backfilled(env, WithConsumed(s, num)).episodes, None, None);
  }

  lemma {:induction false} RunMovesEnd(env: Env, w: World, steps: seq<Step>)
    requires Inv(env, w)
    ensures LedgerEnd(env, w.store) + PlanCommits(env, w, steps) <= LedgerEnd(env, Run(env, w, steps).store)
    decreases |steps|
  {
    hide CommitsPlan, Next, LedgerEnd, Inv;
    if |steps| > 0 {
      StepKeepsInv(env, w, steps[0]);
      StepMovesEnd(env, w, steps[0]);
      InvHasDistinctDocs(env, w);
      RunMovesEnd(env, Next(env, w, steps[0]), steps[1..]);
    }
  }

  lemma InvHasDistinctDocs(env: Env, w: World)
    requires Inv(env, w)
    ensures DistinctDocs(env.docs)
  {
  }

  // ---------- replans ----------

  /** The rows from the requested number on still have the numbers and ranges a pending replan has read. */
  ghost predicate CurrentReplan(env: Env, w: World, id: nat) {
    && id in w.replans
    && RangesOf(Affected(Backfilled(env, w.store).episodes, w.replans[id].0.from)) == RangesOf(w.replans[id].0.affected)
  }

  ghost predicate CommitsReplan(env: Env, w: World, id: nat) {
    id in w.replans && CommitReplan(env, w.store, w.replans[id].0).Done?
  }

  ghost predicate ReplanPending(w: World, v: World, id: nat) {
    id in w.replans && id in v.replans && v.replans[id] == w.replans[id]
  }

  /** A replan read leaves a ticket that is current. */
  lemma {:induction false} ReadReplanIsCurrent(env: Env, w: World, id: nat, from: int, confirmed: bool, cuts: seq<Cut>)
    requires DistinctDocs(env.docs) && ReplanTicketOf(env, Backfilled(env, w.store), from, confirmed, cuts).Some?
    ensures CurrentReplan(env, Next(env, w, ReadReplan(id, from, confirmed, cuts)), id)
  {
    hide Backfilled, Affected, MergeRows, PiecesReadable, AllClosed, LayOutAll, TextsOf;
  }

  lemma {:induction false} CommittingReplanIsCurrent(env: Env, w: World, id: nat)
    ensures CommitsReplan(env, w, id) ==> CurrentReplan(env, w, id)
    ensures CommitsReplan(env, w, id) ==>
              var rows := Affected(Backfilled(env, w.store).episodes, w.replans[id].0.from);
              |rows| > 0 && forall i :: 0 <= i < |rows| ==> rows[i].range.Some?
  {
    hide Backfilled, CommitReplan, Affected, RangesOf, MergeRows, ReplannedLedger;
    if CommitsReplan(env, w, id) {
      ReplanCommitChecks(env, w.store, w.replans[id].0);
      ReplanInstalls(env, w.store, w.replans[id].0);
      MergedRowsHaveRanges([], Affected(Backfilled(env, w.store).episodes, w.replans[id].0.from));
    }
  }

  /** The affected rows reach to the end of the ledger, so their ranges give it away. */
  lemma {:induction false} RangesTellEnd(env: Env, p: Project, q: Project, from: int)
    requires LedgerForm(env.docs, p) && LedgerForm(env.docs, q)
    requires RangesOf(Affected(p.episodes, from)) == RangesOf(Affected(q.episodes, from))
    requires |Affected(p.episodes, from)| > 0
    requires forall i :: 0 <= i < |Affected(p.episodes, from)| ==> Affected(p.episodes, from)[i].range.Some?
    ensures EndOf(env, p.episodes) == EndOf(env, q.episodes)
  {
    hide Affected, LastAnchored, Anchored, RangesInOrder;
    var a, b := Affected(p.episodes, from), Affected(q.episodes, from);
    assert RangesOf(a)[|a| - 1] == RangesOf(b)[|a| - 1];
    LastAffectedIsLast(p.episodes, from);
    LastAffectedIsLast(q.episodes, from);
    StartAtLastRow(env.docs, p);
    StartAtLastRow(env.docs, q);
  }

  lemma {:induction false} LastAffectedIsLast(eps: seq<Entry>, from: int)
    requires Numbered(eps) && |Affected(eps, from)| > 0
    ensures |eps| > 0 && Affected(eps, from)[|Affected(eps, from)| - 1] == eps[|eps| - 1]
  {
    hide Affected, Unaffected;
    var k := ReplanSplits(eps, from);
  }

  /** Once any plan has committed after a replan call's read, that call's commit is refused, without effect, at every
      later point of every run: no replan can bring the end of the ledger back. */
  lemma {:induction false} OvertakenReplanNeverCommits(env: Env, w: World, steps: seq<Step>, id: nat)
    requires Inv(env, w) && CurrentReplan(env, w, id) && PlanCommits(env, w, steps) > 0
    requires ReplanPending(w, Run(env, w, steps), id)
    ensures var v := Run(env, w, steps);
            !CommitsReplan(env, v, id) && Next(env, v, WriteReplan(id)).store == v.store
  {
    hide *;
    InvHasDistinctDocs(env, w);
    LedgerStaysHealthy(env, w, steps);
    RunMovesEnd(env, w, steps);
    CommitsAtSameEnd(env, w, Run(env, w, steps), id);
    RefusedReplanHasNoEffect(env, w, Run(env, w, steps), id);
  }

  lemma RefusedReplanHasNoEffect(env: Env, w: World, v: World, id: nat)
    requires DistinctDocs(env.docs) && ReplanPending(w, v, id)
    ensures !CommitsReplan(env, v, id) ==> Next(env, v, WriteReplan(id)).store == v.store
  {
    hide CommitReplan;
  }

  lemma {:induction false} CommitsAtSameEnd(env: Env, w: World, v: World, id: nat)
    requires Inv(env, w) && Inv(env, v) && CurrentReplan(env, w, id) && ReplanPending(w, v, id)
    ensures CommitsReplan(env, v, id) ==> LedgerEnd(env, v.store) == LedgerEnd(env, w.store)
  {
    hide Backfilled, LedgerForm, CommitReplan, EndOf, RangesOf, Affected;
    CommittingReplanIsCurrent(env, v, id);
    if CommitsReplan(env, v, id) {
      RangesTellEnd(env, Backfilled(env, v.store), Backfilled(env, w.store), w.replans[id].0.from);
    }
  }

  /** A stretch of a run in which nothing commits. */
  ghost predicate NoCommits(env: Env, w: World, steps: seq<Step>)
    requires DistinctDocs(env.docs)
    decreases |steps|
  {
    |steps| == 0 || (!Commits(env, w, steps[0]) && NoCommits(env, Next(env, w, steps[0]), steps[1..]))
  }

  lemma {:induction false} SameFromNum(a: seq<Entry>, b: seq<Entry>, from: int)
    requires SameRows(a, b)
    ensures SameRows(FromNum(a, from), FromNum(b, from))
  {
    if |a| > 0 {
      assert SameRow(a[0], b[0]);
      SameFromNum(a[1..], b[1..], from);
    }
  }

  lemma SameRanges(a: seq<Entry>, b: seq<Entry>, from: int)
    requires SameRows(a, b)
    ensures RangesOf(Affected(a, from)) == RangesOf(Affected(b, from))
  {
    SameFromNum(a, b, from);
    SameSort(FromNum(a, from), FromNum(b, from));
    var x, y := Affected(a, from), Affected(b, from);
    forall i | 0 <= i < |x| ensures RangesOf(x)[i] == RangesOf(y)[i] {
      assert SameRow(x[i], y[i]);
    }
  }

  /** Without a commit the rows keep their numbers and ranges. */
  lemma {:induction false} StepKeepsRanges(env: Env, w: World, step: Step, from: int)
    requires DistinctDocs(env.docs) && !Commits(env, w, step)
    ensures RangesOf(Affected(Backfilled(env, Next(env, w, step).store).episodes, from))
            == RangesOf(Affected(Backfilled(env, w.store).episodes, from))
  {
    hide CommitPlan, CommitReplan, AimOf, PlanTicketOf, ReplanTicketOf, Backfilled, Affected, RangesOf, SameRows;
    if step.MarkConsumed? {
      ConsumeIsSame(env, w.store, step.num);
      SameRanges(Backfilled(env, w.store).episodes, Backfilled(env, WithConsumed(w.store, step.num)).episodes, from);
    }
  }

  lemma {:induction false} RunKeepsRanges(env: Env, w: World, steps: seq<Step>, from: int)
    requires DistinctDocs(env.docs) && NoCommits(env, w, steps)
    ensures RangesOf(Affected(Backfilled(env, Run(env, w, steps).store).episodes, from))
            == RangesOf(Affected(Backfilled(env, w.store).episodes, from))
    decreases |steps|
  {
    hide Next, Backfilled, Affected, RangesOf, Commits;
    if |steps| > 0 {
      StepKeepsRanges(env, w, steps[0], from);
      RunKeepsRanges(env, Next(env, w, steps[0]), steps[1..], from);
    }
  }

  /** A replan whose rows or ranges have changed stays refused until something else commits. */
  lemma {:induction false} StaleReplanStaysRefused(env: Env, w: World, steps: seq<Step>, id: nat)
    requires DistinctDocs(env.docs) && NoCommits(env, w, steps)
    requires !CurrentReplan(env, w, id) && ReplanPending(w, Run(env, w, steps), id)
    ensures !CommitsReplan(env, Run(env, w, steps), id)
  {
    hide Run, NoCommits, Backfilled, Affected, RangesOf, CommitsReplan;
    CommittingReplanIsCurrent(env, Run(env, w, steps), id);
    RunKeepsRanges(env, w, steps, w.replans[id].0.from);
  }

  // ---------- rows by number ----------

  lemma {:induction false} StrictByFirsts(a: seq<Entry>, b: seq<Entry>)
    requires Numbered(a) && Numbered(b) && forall n :: FirstRange(a, n) == FirstRange(b, n)
    ensures RangesOf(a) == RangesOf(b)
    decreases |a|
  {
    if |a| == 0 || |b| == 0 {
      EmptyByFirsts(a, b);
      EmptyByFirsts(b, a);
    } else {
      HeadByFirsts(a, b);
      HeadByFirsts(b, a);
      var m := a[0].num.value;
      assert FirstRange(a, m) == FirstRange(b, m);
      forall n ensures FirstRange(a[1..], n) == FirstRange(b[1..], n) {
        RestByFirsts(a, n);
        RestByFirsts(b, n);
        assert FirstRange(a, n) == FirstRange(b, n);
      }
      StrictByFirsts(a[1..], b[1..]);
      RangesCons(a);
      RangesCons(b);
    }
  }

  lemma EmptyByFirsts(a: seq<Entry>, b: seq<Entry>)
    requires Numbered(b) && forall n :: FirstRange(a, n) == FirstRange(b, n)
    ensures |a| == 0 ==> |b| == 0
  {
    if |b| > 0 {
      assert FirstRange(b, b[0].num.value).Some?;
      assert FirstRange(a, b[0].num.value) == FirstRange(b, b[0].num.value);
    }
  }

  lemma HeadByFirsts(a: seq<Entry>, b: seq<Entry>)
    requires Numbered(a) && Numbered(b) && |a| > 0 && |b| > 0 && forall n :: FirstRange(a, n) == FirstRange(b, n)
    ensures a[0].num.value <= b[0].num.value
  {
    var m := b[0].num.value;
    assert FirstRange(a, m) == FirstRange(b, m);
    FirstIsAMember(a, m);
    var i :| 0 <= i < |a| && a[i] == FirstOf(a, m).value;
  }

  lemma RestByFirsts(a: seq<Entry>, n: int)
    requires Numbered(a) && |a| > 0
    ensures Numbered(a[1..])
    ensures FirstRange(a[1..], n) == if n == a[0].num.value then None else FirstRange(a, n)
  {
    FirstIsAMember(a[1..], n);
    forall i | 0 <= i < |a[1..]| ensures a[1..][i].num.value > a[0].num.value {
      assert a[1..][i] == a[i + 1];
    }
  }

  lemma RangesCons(a: seq<Entry>)
    requires |a| > 0
    ensures RangesOf(a) == [(a[0].num, a[0].range)] + RangesOf(a[1..])
  {
  }

  lemma {:induction false} FromNumIsNumbered(eps: seq<Entry>, from: int)
    requires Numbered(eps)
    ensures Numbered(FromNum(eps, from)) && Affected(eps, from) == FromNum(eps, from)
    ensures forall i :: 0 <= i < |FromNum(eps, from)| ==> FromNum(eps, from)[i].num.value >= from
  {
    TailIsNumbered(eps, from);
    NumberedIsInOrder(FromNum(eps, from));
    SortFixesSorted(FromNum(eps, from));
  }

  lemma {:induction false} TailIsNumbered(eps: seq<Entry>, from: int)
    requires Numbered(eps)
    ensures Numbered(FromNum(eps, from))
  {
    if |eps| > 0 {
      RestByFirsts(eps, 0);
      TailIsNumbered(eps[1..], from);
      forall e | e in FromNum(eps[1..], from) ensures e.num.Some? && e.num.value > eps[0].num.value {
        var i :| 0 <= i < |eps[1..]| && eps[1..][i] == e;
        assert e == eps[i + 1];
      }
      var rest := FromNum(eps[1..], from);
      assert forall i :: 0 <= i < |rest| ==> rest[i] in rest;
    }
  }

  /** The tails of two healthy ledgers have the same numbers and ranges exactly when every number has. */
  lemma {:induction false} TailsByFirsts(x: seq<Entry>, y: seq<Entry>, from: int)
    requires Numbered(x) && Numbered(y)
    ensures RangesOf(Affected(x, from)) == RangesOf(Affected(y, from)) <==>
              forall n :: n >= from ==> FirstRange(x, n) == FirstRange(y, n)
  {
    hide RangesOf, Affected, FirstRange, FromNum, Numbered;
    var a, b := Affected(x, from), Affected(y, from);
    FromNumIsNumbered(x, from);
    FromNumIsNumbered(y, from);
    if RangesOf(a) == RangesOf(b) {
      forall n | n >= from ensures FirstRange(x, n) == FirstRange(y, n) {
        TailFirsts(x, from, n);
        TailFirsts(y, from, n);
        RangesTellFirsts(a, b, n);
      }
    }
    if forall n :: n >= from ==> FirstRange(x, n) == FirstRange(y, n) {
      forall n ensures FirstRange(a, n) == FirstRange(b, n) {
        TailFirsts(x, from, n);
        TailFirsts(y, from, n);
      }
      StrictByFirsts(a, b);
    }
  }

  lemma TailFirsts(eps: seq<Entry>, from: int, n: int)
    ensures FirstRange(Affected(eps, from), n) == if n >= from then FirstRange(eps, n) else None
  {
    hide Affected;
    if n >= from {
      TailFirst(eps, from, n);
    } else {
      FirstIsAMember(Affected(eps, from), n);
      forall e | e in Affected(eps, from) ensures e.num != Some(n) {
        AffectedIsTheTail(eps, from, e);
      }
    }
  }

  /** The range a layout gives to a number, if it has that number. */
  function NewRange(t: ReplanTicket, n: int): Option<Option<SourceRange>> {
    if t.from <= n < t.from + |t.planned| then Some(Some(t.planned[n - t.from].range)) else None
  }

  lemma {:induction false} NewFirst(affected: seq<Entry>, planned: seq<PlannedEpisode>, from: int, n: int)
    ensures FirstRange(ReplanRows(affected, planned, from), n) ==
              if from <= n < from + |planned| then Some(Some(planned[n - from].range)) else None
    decreases |planned|
  {
    if |planned| > 0 {
      NewFirst(affected, planned[1..], from + 1, n);
      assert ReplanRows(affected, planned, from)[1..] == ReplanRows(affected, planned[1..], from + 1);
    }
  }

  /** The layout keeps number and range of every row from `from` on. */
  ghost predicate KeepsTail(before: seq<Entry>, t: ReplanTicket, from: int) {
    forall n :: n >= from && n >= t.from ==> FirstRange(before, n) == NewRange(t, n)
  }

  lemma ReplannedFirst(p: Project, t: ReplanTicket, n: int)
    requires Affected(ReplannedLedger(p, Affected(p.episodes, t.from), t).episodes, t.from)
             == ReplanRows(Affected(p.episodes, t.from), t.planned, t.from)
    ensures FirstRange(ReplannedLedger(p, Affected(p.episodes, t.from), t).episodes, n) ==
              if n < t.from then FirstRange(p.episodes, n) else NewRange(t, n)
  {
    hide Affected, ReplannedLedger, ReplanRows;
    if n < t.from {
      KeptFirst(p, t, n);
    } else {
      TailFirst(ReplannedLedger(p, Affected(p.episodes, t.from), t).episodes, t.from, n);
      NewFirst(Affected(p.episodes, t.from), t.planned, t.from, n);
    }
  }

  lemma KeepsTailMeans(p: Project, t: ReplanTicket, from: int)
    requires Affected(ReplannedLedger(p, Affected(p.episodes, t.from), t).episodes, t.from)
             == ReplanRows(Affected(p.episodes, t.from), t.planned, t.from)
    ensures KeepsTail(Affected(p.episodes, t.from), t, from) <==>
              forall n :: n >= from ==>
                FirstRange(ReplannedLedger(p, Affected(p.episodes, t.from), t).episodes, n) == FirstRange(p.episodes, n)
  {
    hide Affected, ReplannedLedger, ReplanRows, FirstRange, NewRange;
    forall n
      ensures FirstRange(ReplannedLedger(p, Affected(p.episodes, t.from), t).episodes, n) ==
                if n < t.from then FirstRange(p.episodes, n) else NewRange(t, n)
      ensures n >= t.from ==> FirstRange(Affected(p.episodes, t.from), n) == FirstRange(p.episodes, n)
    {
      ReplannedFirst(p, t, n);
      TailFirsts(p.episodes, t.from, n);
    }
  }

  /** A replan that was current is so at another point exactly if every row from its number on has its old number and
      range there. */
  lemma {:induction false} CurrentExactly(env: Env, w: World, v: World, id: nat)
    requires Inv(env, w) && Inv(env, v) && CurrentReplan(env, w, id) && ReplanPending(w, v, id)
    ensures CurrentReplan(env, v, id) <==>
              forall n :: n >= w.replans[id].0.from ==>
                FirstRange(Backfilled(env, v.store).episodes, n) == FirstRange(Backfilled(env, w.store).episodes, n)
  {
    hide Backfilled, Affected, RangesOf, FirstRange, Anchored, RangesInOrder, Numbered;
    TailsByFirsts(Backfilled(env, v.store).episodes, Backfilled(env, w.store).episodes, w.replans[id].0.from);
  }

  /** Of two pending replans, whatever number each starts at: once the first has committed, the second is still current
      if and only if the first kept number and range of every row from the second's number on. */
  lemma {:induction false} FirstReplanOvertakesSecond(env: Env, w: World, a: nat, b: nat)
    requires Inv(env, w) && CommitsReplan(env, w, a) && CurrentReplan(env, w, b) && a != b
    ensures var t := w.replans[a].0;
            CurrentReplan(env, Next(env, w, WriteReplan(a)), b) <==>
              KeepsTail(Affected(Backfilled(env, w.store).episodes, t.from), t, w.replans[b].0.from)
  {
    hide Backfilled, CommitReplan, Affected, RangesOf, LedgerForm, ReplannedLedger, ReplanPrepared, FirstRange,
         KeepsTail;
    var t, p := w.replans[a].0, Backfilled(env, w.store);
    StepKeepsInv(env, w, WriteReplan(a));
    ReplanCommitChecks(env, w.store, t);
    ReplanCommitIsFixed(env, w.store, t);
    LayoutReplacesRows(p, t);
    KeepsTailMeans(p, t, w.replans[b].0.from);
    CurrentExactly(env, w, Next(env, w, WriteReplan(a)), b);
  }

  lemma OtherStaysPending(env: Env, w: World, v: World, a: nat, b: nat)
    requires DistinctDocs(env.docs) && a != b && ReplanPending(w, v, b)
    ensures ReplanPending(Next(env, w, WriteReplan(a)), v, b)
  {
    hide CommitReplan;
  }

  /** Of two pending replans at most one commits while the first has moved a row that the second has read: at whatever
      later point of whatever run the second commits, something else has committed in between, and every row from its
      number on has the number and range it had when the second was current. */
  lemma {:induction false} OfTwoReplansOneCommits(env: Env, w: World, steps: seq<Step>, a: nat, b: nat)
    requires Inv(env, w) && CommitsReplan(env, w, a) && CurrentReplan(env, w, b) && a != b
    requires var t := w.replans[a].0;
             !KeepsTail(Affected(Backfilled(env, w.store).episodes, t.from), t, w.replans[b].0.from)
    requires ReplanPending(w, Run(env, Next(env, w, WriteReplan(a)), steps), b)
    ensures var v := Run(env, Next(env, w, WriteReplan(a)), steps);
            CommitsReplan(env, v, b) ==>
              && !NoCommits(env, Next(env, w, WriteReplan(a)), steps)
              && forall n :: n >= w.replans[b].0.from ==>
                   FirstRange(Backfilled(env, v.store).episodes, n) == FirstRange(Backfilled(env, w.store).episodes, n)
  {
    hide *;
    InvHasDistinctDocs(env, w);
    var first := Next(env, w, WriteReplan(a));
    var v := Run(env, first, steps);
    OtherStaysPending(env, w, v, a, b);
    FirstReplanOvertakesSecond(env, w, a, b);
    if NoCommits(env, first, steps) {
      StaleReplanStaysRefused(env, first, steps, b);
    }
    StepKeepsInv(env, w, WriteReplan(a));
    LedgerStaysHealthy(env, first, steps);
    CommittingReplanIsCurrent(env, v, b);
    CurrentExactly(env, w, v, b);
  }
}
