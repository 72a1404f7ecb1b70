/** One video lane over whole runs (lib/generation_worker.py, `_claim_tasks`, `_dispatch_provider_bucket`, `_run_one`,
    `_drain_finished_tasks`): claimed tasks, batches of resumed orphans that are registered at once and take turns
    behind a semaphore of their own, and the main loop's drain, in any interleaving. The lane's limit does not
    change. */
module LaneRuns {
  import opened Slots

  datatype BatchId = BatchId(number: nat)

  /** A resumed orphan: its batch, and whether it holds one of the batch's permits. */
  datatype Member = Member(batch: BatchId, holding: bool)

  /** `leaked` are the slots of members that were cancelled before their first step. */
  datatype World = World(lane: Bucket, members: map<TaskId, Member>, leaked: set<TaskId>)

  const EMPTY := World(map[], map[], {})

  datatype Step =
    | Claim(id: TaskId, task: Execution)
    | DrainOne(id: TaskId)
    | Dispatch(batch: BatchId, orphans: map<TaskId, Execution>)
    | TakeTurn(id: TaskId)
    | Finish(id: TaskId)
    | CancelWaiting(id: TaskId)
    | CancelUnstarted(id: TaskId)

  /** The members of a batch that hold a permit. */
  ghost function Holding(members: map<TaskId, Member>, b: BatchId): set<TaskId> {
    set id | id in members && members[id] == Member(b, true)
  }

  /** When a step can be taken. A claim needs room, a turn a permit; a batch is not dispatched to a closed lane and
      leaves out what the table already holds. */
  ghost predicate Enabled(cap: nat, w: World, s: Step) {
    match s
    case Claim(id, _) => id !in w.lane && |w.lane| < cap
    case DrainOne(id) => id in w.lane && !w.lane[id].pending && id !in w.members
    case Dispatch(b, orphans) =>
      cap > 0 && orphans.Keys !! w.lane.Keys && forall id :: id in w.members ==> w.members[id].batch != b
    case TakeTurn(id) =>
      id in w.members && !w.members[id].holding && |Holding(w.members, w.members[id].batch)| < cap
    case Finish(id) => id in w.members && w.members[id].holding
    case CancelWaiting(id) => id in w.members && !w.members[id].holding
    case CancelUnstarted(id) => id in w.members && !w.members[id].holding
  }

  function Joined(w: World, id: TaskId, task: Execution): World {
    w.(lane := w.lane[id := Occupant(task, false)])
  }

  function Left(w: World, id: TaskId): World {
    w.(lane := w.lane - {id}, members := w.members - {id})
  }

  function Lined(w: World, b: BatchId, orphans: map<TaskId, Execution>): World {
    World(w.lane + map id | id in orphans :: Occupant(orphans[id], true),
          w.members + map id | id in orphans :: Member(b, false), w.leaked)
  }

  function Turned(w: World, id: TaskId): World
    requires id in w.members
  {
    w.(lane := if id in w.lane then w.lane[id := w.lane[id].(pending := false)] else w.lane,
       members := w.members[id := w.members[id].(holding := true)])
  }

  function Lost(w: World, id: TaskId): World {
    w.(members := w.members - {id}, leaked := w.leaked + {id})
  }

  /** A step that cannot be taken changes nothing. */
  ghost function Next(cap: nat, w: World, s: Step): World {
    if !Enabled(cap, w, s) then w else
    match s
    case Claim(id, task) => Joined(w, id, task)
    case DrainOne(id) => Left(w, id)
    case Dispatch(b, orphans) => Lined(w, b, orphans)
    case TakeTurn(id) => Turned(w, id)
    case Finish(id) => Left(w, id)
    case CancelWaiting(id) => Left(w, id)
    case CancelUnstarted(id) => Lost(w, id)
  }

  ghost function Run(cap: nat, w: World, steps: seq<Step>): World {
    if |steps| == 0 then w else Next(cap, Run(cap, w, steps[..|steps| - 1]), steps[|steps| - 1])
  }

  /** Slots of claimed tasks: neither resumed nor leaked. */
  ghost function ClaimedIds(w: World): set<TaskId> {
    w.lane.Keys - w.members.Keys - w.leaked
  }

  // ---------- the invariant ----------

  /** A member's slot waits exactly while the member does; a leaked slot waits although nobody does; every other slot
      is in use. */
  ghost predicate PhasesAgree(w: World) {
    && (forall id :: id in w.members ==> id in w.lane && (w.lane[id].pending <==> !w.members[id].holding))
    && (forall id :: id in w.leaked ==> id in w.lane && w.lane[id].pending && id !in w.members)
    && (forall id :: id in w.lane && w.lane[id].pending ==> id in w.members || id in w.leaked)
  }

  ghost predicate PermitsKept(cap: nat, members: map<TaskId, Member>) {
    forall b :: |Holding(members, b)| <= cap
  }

  ghost predicate Inv(cap: nat, w: World) {
    PhasesAgree(w) && PermitsKept(cap, w.members) && |ClaimedIds(w)| <= cap
  }

  lemma {:induction false} SubsetCard<T>(a: set<T>, b: set<T>)
    requires a <= b
    ensures |a| <= |b|
  {
    assert b == a + (b - a);
  }

  lemma JoinKeepsPhases(w: World, id: TaskId, task: Execution)
    requires PhasesAgree(w) && id !in w.lane
    ensures PhasesAgree(Joined(w, id, task))
    ensures ClaimedIds(Joined(w, id, task)) == ClaimedIds(w) + {id}
  {
  }

  lemma LeavingKeepsPhases(w: World, id: TaskId)
    requires PhasesAgree(w) && id in w.lane && (w.lane[id].pending ==> id in w.members)
    ensures PhasesAgree(Left(w, id)) && ClaimedIds(Left(w, id)) <= ClaimedIds(w)
  {
  }

  lemma LineKeepsPhases(w: World, b: BatchId, orphans: map<TaskId, Execution>)
    requires PhasesAgree(w) && orphans.Keys !! w.lane.Keys
    ensures PhasesAgree(Lined(w, b, orphans)) && ClaimedIds(Lined(w, b, orphans)) <= ClaimedIds(w)
  {
  }

  lemma TurnKeepsPhases(w: World, id: TaskId)
    requires PhasesAgree(w) && id in w.members && !w.members[id].holding
    ensures PhasesAgree(Turned(w, id)) && ClaimedIds(Turned(w, id)) <= ClaimedIds(w)
  {
  }

  lemma LosingKeepsPhases(w: World, id: TaskId)
    requires PhasesAgree(w) && id in w.members && !w.members[id].holding
    ensures PhasesAgree(Lost(w, id)) && ClaimedIds(Lost(w, id)) <= ClaimedIds(w)
  {
  }

  lemma StepKeepsPhases(cap: nat, w: World, s: Step)
    requires PhasesAgree(w)
    ensures PhasesAgree(Next(cap, w, s))
    ensures var w' := Next(cap, w, s);
            if s.Claim? && Enabled(cap, w, s) then ClaimedIds(w') == ClaimedIds(w) + {s.id}
            else ClaimedIds(w') <= ClaimedIds(w)
  {
    hide Holding, Joined, Left, Lined, Turned, Lost, ClaimedIds;
    if Enabled(cap, w, s) {
      match s
      case Claim(id, task) => JoinKeepsPhases(w, id, task);
      case DrainOne(id) => LeavingKeepsPhases(w, id);
      case Dispatch(b, orphans) => LineKeepsPhases(w, b, orphans);
      case TakeTurn(id) => TurnKeepsPhases(w, id);
      case Finish(id) => LeavingKeepsPhases(w, id);
      case CancelWaiting(id) => LeavingKeepsPhases(w, id);
      case CancelUnstarted(id) => LosingKeepsPhases(w, id);
    }
  }

  lemma StepKeepsPermits(cap: nat, w: World, s: Step)
    requires PermitsKept(cap, w.members)
    ensures PermitsKept(cap, Next(cap, w, s).members)
  {
    var m, m' := w.members, Next(cap, w, s).members;
    forall b ensures |Holding(m', b)| <= cap {
      assert |Holding(m, b)| <= cap;
      if s.TakeTurn? && Enabled(cap, w, s) && m[s.id].batch == b {
        assert Holding(m', b) == Holding(m, b) + {s.id};
      } else {
        assert Holding(m', b) <= Holding(m, b);
        SubsetCard(Holding(m', b), Holding(m, b));
      }
    }
  }

  lemma StepKeepsClaims(cap: nat, w: World, s: Step)
    requires PhasesAgree(w) && |ClaimedIds(w)| <= cap
    ensures |ClaimedIds(Next(cap, w, s))| <= cap
  {
    hide Holding, Next, PhasesAgree;
    StepKeepsPhases(cap, w, s);
    if s.Claim? && Enabled(cap, w, s) {
      SubsetCard(ClaimedIds(w), w.lane.Keys);
      assert |w.lane.Keys| == |w.lane|;
    } else {
      SubsetCard(ClaimedIds(Next(cap, w, s)), ClaimedIds(w));
    }
  }

  lemma {:induction false} RunKeepsInv(cap: nat, steps: seq<Step>)
    ensures Inv(cap, Run(cap, EMPTY, steps))
  {
    hide Next, PhasesAgree, PermitsKept, ClaimedIds;
    if |steps| == 0 {
      EmptyIsGood(cap);
    } else {
      var front, last := steps[..|steps| - 1], steps[|steps| - 1];
      RunKeepsInv(cap, front);
      StepKeepsPhases(cap, Run(cap, EMPTY, front), last);
      StepKeepsPermits(cap, Run(cap, EMPTY, front), last);
      StepKeepsClaims(cap, Run(cap, EMPTY, front), last);
    }
  }

  lemma EmptyIsGood(cap: nat)
    ensures Inv(cap, EMPTY)
  {
    forall b ensures Holding(EMPTY.members, b) == {} {
    }
    assert ClaimedIds(EMPTY) == {};
  }

  /** The slots of a batch that have had their turn. */
  ghost function PromotedOf(w: World, b: BatchId): set<TaskId> {
    set id | id in w.members && w.members[id].batch == b && id in w.lane && !w.lane[id].pending
  }

  /** Lane capacity over whole runs: a claim only enters while the whole occupancy, waiting orphans included, is below
      the limit and never lifts it above; claimed tasks never exceed the limit, nor do the promoted members of any one
      batch. */
  lemma LaneCapacity(cap: nat, steps: seq<Step>, id: TaskId, task: Execution, b: BatchId)
    ensures var w := Run(cap, EMPTY, steps);
            var w' := Next(cap, w, Claim(id, task));
            && |ClaimedIds(w)| <= cap
            && |PromotedOf(w, b)| <= cap
            && (w' != w ==> |w'.lane| == |w.lane| + 1 <= cap)
            && (|w.lane| >= cap ==> w' == w)
  {
    hide Run;
    RunKeepsInv(cap, steps);
    CapacityHolds(cap, Run(cap, EMPTY, steps), id, task, b);
  }

  lemma CapacityHolds(cap: nat, w: World, id: TaskId, task: Execution, b: BatchId)
    requires Inv(cap, w)
    ensures |ClaimedIds(w)| <= cap && |PromotedOf(w, b)| <= cap
    ensures var w' := Next(cap, w, Claim(id, task));
            (w' != w ==> |w'.lane| == |w.lane| + 1 <= cap) && (|w.lane| >= cap ==> w' == w)
  {
    assert PromotedOf(w, b) == Holding(w.members, b);
    if id !in w.lane {
      OneMore(w.lane, id, Occupant(task, false));
    }
  }

  lemma OneMore(lane: Bucket, id: TaskId, o: Occupant)
    requires id !in lane
    ensures |lane[id := o]| == |lane| + 1
  {
    assert lane[id := o].Keys == lane.Keys + {id};
    assert |lane[id := o]| == |lane[id := o].Keys| && |lane| == |lane.Keys|;
  }

  /** The limit of a lane does not bound what runs in it: a batch brings permits of its own. `LaneLimits` says when
      it does. */
  lemma ClaimsAndTurnsAddUp(a: TaskId, b: TaskId, x: Execution, y: Execution)
    requires a != b
    ensures var w := Run(1, EMPTY, [Claim(a, x), Dispatch(BatchId(0), map[b := y]), TakeTurn(b)]);
            w.lane == map[a := Occupant(x, false), b := Occupant(y, false)]
  {
    hide Next;
    var s := [Claim(a, x), Dispatch(BatchId(0), map[b := y]), TakeTurn(b)];
    assert s[..2] == [s[0], s[1]] && [s[0], s[1]][..1] == [s[0]] && [s[0]][..0] == [];
    assert Run(1, EMPTY, [s[0]]) == Next(1, Run(1, EMPTY, []), s[0]);
    ClaimStep(a, x);
    DispatchStep(a, b, x, y);
    TurnStep(a, b, x, y);
  }

  /** One claimed task. */
  function OneRuns(a: TaskId, x: Execution): World {
    World(map[a := Occupant(x, false)], map[], {})
  }

  /** One claimed task, and one orphan that waits. */
  function OneWaits(a: TaskId, b: TaskId, x: Execution, y: Execution): World {
    World(map[a := Occupant(x, false), b := Occupant(y, true)], map[b := Member(BatchId(0), false)], {})
  }

  lemma ClaimStep(a: TaskId, x: Execution)
    ensures Next(1, EMPTY, Claim(a, x)) == OneRuns(a, x)
  {
    hide Lined, Turned, Left, Lost, Holding;
  }

  lemma DispatchStep(a: TaskId, b: TaskId, x: Execution, y: Execution)
    requires a != b
    ensures Next(1, OneRuns(a, x), Dispatch(BatchId(0), map[b := y])) == OneWaits(a, b, x, y)
  {
    hide Joined, Turned, Left, Lost, Holding;
  }

  lemma TurnStep(a: TaskId, b: TaskId, x: Execution, y: Execution)
    requires a != b
    ensures Next(1, OneWaits(a, b, x, y), TakeTurn(b)).lane == map[a := Occupant(x, false), b := Occupant(y, false)]
  {
    hide Joined, Lined, Left, Lost;
    assert Holding(map[b := Member(BatchId(0), false)], BatchId(0)) == {};
  }

  // ---------- slots nobody gives back ----------

  /** A slot whose member was cancelled before its first step is never given back: the member's own clean-up did not
      run, and the drain leaves waiting slots alone. */
  lemma {:induction false} LeakedForGood(cap: nat, before: seq<Step>, after: seq<Step>, id: TaskId)
    requires id in Run(cap, EMPTY, before).leaked
    ensures var w := Run(cap, EMPTY, before + after); id in w.leaked && id in w.lane
  {
    hide Next, Holding, PermitsKept, ClaimedIds;
    if |after| == 0 {
      assert before + after == before;
      RunKeepsInv(cap, before);
    } else {
      var front, last := after[..|after| - 1], after[|after| - 1];
      LeakedForGood(cap, before, front, id);
      assert (before + after)[..|before + after| - 1] == before + front;
      RunKeepsInv(cap, before + front);
      LeakStays(cap, Run(cap, EMPTY, before + front), last, id);
    }
  }

  lemma LeakStays(cap: nat, w: World, s: Step, id: TaskId)
    requires PhasesAgree(w) && id in w.leaked
    ensures id in Next(cap, w, s).leaked && id in Next(cap, w, s).lane
  {
    hide Holding;
  }

  /** How many members have been cancelled before their first step. */
  ghost function Leaks(cap: nat, steps: seq<Step>): nat {
    if |steps| == 0 then 0
    else
      var front, last := steps[..|steps| - 1], steps[|steps| - 1];
      Leaks(cap, front) + if last.CancelUnstarted? && Enabled(cap, Run(cap, EMPTY, front), last) then 1 else 0
  }

  lemma StepLeaks(cap: nat, w: World, s: Step)
    requires PhasesAgree(w)
    ensures |Next(cap, w, s).leaked| == |w.leaked| + if s.CancelUnstarted? && Enabled(cap, w, s) then 1 else 0
  {
    hide Holding;
  }

  /** Every such cancellation costs one slot for good, and nothing else does. */
  lemma {:induction false} LeakedSlotsAreCounted(cap: nat, steps: seq<Step>)
    ensures |Run(cap, EMPTY, steps).leaked| == Leaks(cap, steps)
  {
    hide Next, PhasesAgree, PermitsKept, Enabled;
    if |steps| > 0 {
      LeakedSlotsAreCounted(cap, steps[..|steps| - 1]);
      RunKeepsInv(cap, steps[..|steps| - 1]);
      StepLeaks(cap, Run(cap, EMPTY, steps[..|steps| - 1]), steps[|steps| - 1]);
    }
  }

  lemma {:induction false} LeaksGrow(cap: nat, before: seq<Step>, after: seq<Step>)
    ensures Leaks(cap, before) <= Leaks(cap, before + after)
  {
    hide Enabled;
    if |after| == 0 {
      assert before + after == before;
    } else {
      LeaksGrow(cap, before, after[..|after| - 1]);
      assert (before + after)[..|before + after| - 1] == before + after[..|after| - 1];
    }
  }

  /** A run that leaks: in an open lane, the only member of a batch is cancelled before its first step. */
  lemma UnstartedMemberLeaks(cap: nat, id: TaskId, task: Execution)
    requires cap > 0
    ensures var steps := [Dispatch(BatchId(0), map[id := task]), CancelUnstarted(id)];
            Leaks(cap, steps) == 1 && Run(cap, EMPTY, steps).leaked == {id}
  {
    hide Next, Enabled;
    var steps := [Dispatch(BatchId(0), map[id := task]), CancelUnstarted(id)];
    assert steps[..1] == [steps[0]] && [steps[0]][..0] == [];
    assert Run(cap, EMPTY, [steps[0]]) == Next(cap, Run(cap, EMPTY, []), steps[0]);
    assert Leaks(cap, [steps[0]]) == Leaks(cap, []);
    LeakingSteps(cap, id, task);
  }

  lemma LeakingSteps(cap: nat, id: TaskId, task: Execution)
    requires cap > 0
    ensures var w := World(map[id := Occupant(task, true)], map[id := Member(BatchId(0), false)], {});
            && Next(cap, EMPTY, Dispatch(BatchId(0), map[id := task])) == w
            && Enabled(cap, w, CancelUnstarted(id)) && Next(cap, w, CancelUnstarted(id)).leaked == {id}
  {
  }

  lemma {:induction false} RunSplits(cap: nat, w: World, a: seq<Step>, b: seq<Step>)
    ensures Run(cap, w, a + b) == Run(cap, Run(cap, w, a), b)
  {
    hide Next;
    if |b| == 0 {
      assert a + b == a;
    } else {
      RunSplits(cap, w, a, b[..|b| - 1]);
      assert (a + b)[..|a + b| - 1] == a + b[..|b| - 1];
    }
  }

  /** The step that makes a slot free again. */
  function Leave(w: World, id: TaskId): Step {
    if id !in w.members then DrainOne(id) else if w.members[id].holding then Finish(id) else CancelWaiting(id)
  }

  lemma LeavingLeaves(cap: nat, w: World, id: TaskId)
    requires Inv(cap, w) && id in w.lane && id !in w.leaked
    ensures var v := Next(cap, w, Leave(w, id)); v == Left(w, id) && Inv(cap, v)
  {
    hide PhasesAgree, PermitsKept, ClaimedIds;
    assert Enabled(cap, w, Leave(w, id)) by { SlotCanLeave(w, id); }
    StepKeepsPhases(cap, w, Leave(w, id));
    StepKeepsPermits(cap, w, Leave(w, id));
    StepKeepsClaims(cap, w, Leave(w, id));
  }

  lemma SlotCanLeave(w: World, id: TaskId)
    requires PhasesAgree(w) && id in w.lane && id !in w.leaked
    ensures id !in w.members ==> !w.lane[id].pending
  {
  }

  /** Everything but the leaked slots can be given back. */
  lemma {:induction false} EmptyOut(cap: nat, w: World) returns (more: seq<Step>)
    requires Inv(cap, w)
    ensures var v := Run(cap, w, more); Inv(cap, v) && v.leaked == w.leaked && v.lane.Keys == w.leaked
    decreases |w.lane.Keys - w.leaked|
  {
    hide Next, PhasesAgree, PermitsKept, ClaimedIds;
    if w.lane.Keys - w.leaked == {} {
      more := [];
      LeakedAreInLane(w);
    } else {
      var id :| id in w.lane.Keys - w.leaked;
      var s := Leave(w, id);
      LeavingLeaves(cap, w, id);
      assert Left(w, id).lane.Keys - w.leaked == (w.lane.Keys - w.leaked) - {id};
      var rest := EmptyOut(cap, Next(cap, w, s));
      more := [s] + rest;
      RunSplits(cap, w, [s], rest);
      assert [s][..0] == [] && Run(cap, w, []) == w;
    }
  }

  lemma LeakedAreInLane(w: World)
    requires PhasesAgree(w)
    ensures w.leaked <= w.lane.Keys
  {
  }

  /** A lane can ever take a task again if and only if fewer members than its limit have been cancelled before their
      first step. After that many, no claim is possible at any later point of the run. */
  lemma {:induction false} LaneRecovers(cap: nat, steps: seq<Step>, id: TaskId, task: Execution)
    requires id !in Run(cap, EMPTY, steps).leaked
    ensures (exists more :: Enabled(cap, Run(cap, EMPTY, steps + more), Claim(id, task))) <==> Leaks(cap, steps) < cap
  {
    hide Next, PhasesAgree, PermitsKept, ClaimedIds, Run, Leaks;
    forall more | Enabled(cap, Run(cap, EMPTY, steps + more), Claim(id, task)) ensures Leaks(cap, steps) < cap {
      var v := Run(cap, EMPTY, steps + more);
      RunKeepsInv(cap, steps + more);
      LeakedSlotsAreCounted(cap, steps + more);
      LeaksGrow(cap, steps, more);
      LeakedAreInLane(v);
      SubsetCard(v.leaked, v.lane.Keys);
      assert |v.lane.Keys| == |v.lane|;
    }
    if Leaks(cap, steps) < cap {
      RunKeepsInv(cap, steps);
      LeakedSlotsAreCounted(cap, steps);
      var more := EmptyOut(cap, Run(cap, EMPTY, steps));
      RunSplits(cap, EMPTY, steps, more);
      var v := Run(cap, EMPTY, steps + more);
      assert |v.lane| == |v.lane.Keys|;
      assert Enabled(cap, v, Claim(id, task));
    }
  }
}
