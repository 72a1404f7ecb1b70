/** When the limit of a lane bounds what runs in it. Every batch of resumed orphans takes turns behind a semaphore of
    its own, so the answer depends on how much the lane holds when a batch is dispatched. */
module LaneLimits {
  import opened Slots
  import opened LaneRuns

  /** The tasks that occupy a slot and do not wait. */
  ghost function Running(w: World): set<TaskId> {
    set id | id in w.lane && !w.lane[id].pending
  }

  /** The batches that still have members. */
  ghost function LiveBatches(members: map<TaskId, Member>): set<BatchId> {
    set id | id in members :: members[id].batch
  }

  // ---------- a bound for all runs ----------

  ghost function HeldIn(members: map<TaskId, Member>, bs: set<BatchId>): set<TaskId> {
    set id | id in members && members[id].holding && members[id].batch in bs
  }

  lemma {:induction false} HeldIsBounded(cap: nat, members: map<TaskId, Member>, bs: set<BatchId>)
    requires PermitsKept(cap, members)
    ensures |HeldIn(members, bs)| <= cap * |bs|
    decreases |bs|
  {
    hide PermitsKept;
    if bs == {} {
      assert HeldIn(members, bs) == {};
    } else {
      var b :| b in bs;
      var rest := bs - {b};
      HeldIsBounded(cap, members, rest);
      assert |Holding(members, b)| <= cap by { OneBatch(cap, members, b); }
      assert HeldIn(members, bs) == HeldIn(members, rest) + Holding(members, b);
      assert |bs| == |rest| + 1;
      Distribute(cap, |rest|);
    }
  }

  lemma OneBatch(cap: nat, members: map<TaskId, Member>, b: BatchId)
    requires PermitsKept(cap, members)
    ensures |Holding(members, b)| <= cap
  {
  }

  lemma Distribute(a: nat, b: nat)
    ensures a * (b + 1) == a * b + a
  {
  }

  lemma RunningIsClaimedOrHeld(w: World)
    requires PhasesAgree(w)
    ensures Running(w) <= ClaimedIds(w) + HeldIn(w.members, LiveBatches(w.members))
  {
  }

  /** What can run at once, in every run: the limit once for claimed tasks, and once more for every batch that still
      has members. */
  lemma RunningIsBounded(cap: nat, steps: seq<Step>)
    ensures var w := Run(cap, EMPTY, steps); |Running(w)| <= cap * (1 + |LiveBatches(w.members)|)
  {
    hide Run, PhasesAgree, PermitsKept, Running, ClaimedIds, HeldIn, LiveBatches;
    var w := Run(cap, EMPTY, steps);
    RunKeepsInv(cap, steps);
    var live := LiveBatches(w.members);
    RunningIsClaimedOrHeld(w);
    HeldIsBounded(cap, w.members, live);
    SubsetCard(Running(w), ClaimedIds(w) + HeldIn(w.members, live));
    UnionCard(ClaimedIds(w), HeldIn(w.members, live));
    Distribute(cap, |live|);
  }

  lemma UnionCard<T>(a: set<T>, b: set<T>)
    ensures |a + b| <= |a| + |b|
  {
    assert a + b == a + (b - a);
    SubsetCard(b - a, b);
  }

  // ---------- dispatches that keep the limit ----------

  function Min(a: nat, b: nat): nat {
    if a < b then a else b
  }

  /** What a dispatch can check beforehand: the tasks that will occupy the lane anyway, and the turns the batch can
      take at once, fit into the limit together. */
  ghost predicate Careful(cap: nat, w: World, s: Step) {
    s.Dispatch? && Enabled(cap, w, s) && |s.orphans| > 0 ==> |w.lane.Keys - w.leaked| + Min(|s.orphans|, cap) <= cap
  }

  ghost predicate CarefulFrom(cap: nat, w: World, steps: seq<Step>) {
    forall i :: 0 <= i < |steps| ==> Careful(cap, Run(cap, w, steps[..i]), steps[i])
  }

  ghost predicate Waits(members: map<TaskId, Member>, id: TaskId) {
    id in members && !members[id].holding
  }

  /** The members of one batch among some tasks. */
  ghost function Part(members: map<TaskId, Member>, s: set<TaskId>, b: BatchId): set<TaskId> {
    set id | id in s && id in members && members[id].batch == b
  }

  /** Waiting members that could all have their turn at once. */
  ghost predicate Admissible(cap: nat, members: map<TaskId, Member>, s: set<TaskId>) {
    && (forall id :: id in s ==> Waits(members, id))
    && (forall b :: |Part(members, s, b)| + |Holding(members, b)| <= cap)
  }

  /** Whoever could have a turn at once fits into the limit together with everything that runs. */
  ghost predicate RoomForTurns(cap: nat, w: World) {
    forall s :: Admissible(cap, w.members, s) ==> |Running(w) + s| <= cap
  }

  lemma FitsInLane(w: World, s: set<TaskId>)
    requires PhasesAgree(w) && forall id :: id in s ==> Waits(w.members, id)
    ensures Running(w) + s <= w.lane.Keys - w.leaked
  {
  }

  lemma JoinKeepsRoom(cap: nat, w: World, id: TaskId, task: Execution)
    requires PhasesAgree(w) && Enabled(cap, w, Claim(id, task))
    ensures RoomForTurns(cap, Joined(w, id, task))
  {
    hide PhasesAgree, Running, Admissible;
    var v := Joined(w, id, task);
    JoinKeepsPhases(w, id, task);
    OneMore(w.lane, id, Occupant(task, false));
    forall s | Admissible(cap, v.members, s) ensures |Running(v) + s| <= cap {
      AdmissibleWaits(cap, v.members, s);
      FitsInLane(v, s);
      SubsetCard(Running(v) + s, v.lane.Keys);
      assert |v.lane.Keys| == |v.lane|;
    }
  }

  lemma AdmissibleWaits(cap: nat, members: map<TaskId, Member>, s: set<TaskId>)
    requires Admissible(cap, members, s)
    ensures forall id :: id in s ==> Waits(members, id)
    ensures forall b :: |Part(members, s, b)| + |Holding(members, b)| <= cap
  {
  }

  lemma LinedWithin(cap: nat, w: World, b: BatchId, orphans: map<TaskId, Execution>, s: set<TaskId>)
    requires PhasesAgree(w) && Enabled(cap, w, Dispatch(b, orphans))
    requires forall id :: id in s ==> Waits(Lined(w, b, orphans).members, id)
    ensures var v := Lined(w, b, orphans);
            var turns := Part(v.members, s, b);
            Running(v) + s <= (w.lane.Keys - w.leaked) + turns && turns <= orphans.Keys
  {
    hide PhasesAgree, Running, Lined;
    var v := Lined(w, b, orphans);
    LineKeepsPhases(w, b, orphans);
    LineShape(w, b, orphans);
    FitsInLane(v, s);
    FitsInLane(w, {});
  }

  /** A careful dispatch leaves room whatever the run was like before. */
  lemma LineKeepsRoom(cap: nat, w: World, b: BatchId, orphans: map<TaskId, Execution>)
    requires PhasesAgree(w) && Enabled(cap, w, Dispatch(b, orphans)) && |orphans| > 0
    requires Careful(cap, w, Dispatch(b, orphans))
    ensures RoomForTurns(cap, Lined(w, b, orphans))
  {
    hide PhasesAgree, Running, Lined, Admissible, Part, Waits, Enabled;
    var v := Lined(w, b, orphans);
    forall s | Admissible(cap, v.members, s) ensures |Running(v) + s| <= cap {
      var turns := Part(v.members, s, b);
      AdmissibleWaits(cap, v.members, s);
      LinedWithin(cap, w, b, orphans, s);
      assert |turns| <= cap by { assert |turns| + |Holding(v.members, b)| <= cap; }
      SubsetCard(turns, orphans.Keys);
      assert |orphans.Keys| == |orphans|;
      SubsetCard(Running(v) + s, (w.lane.Keys - w.leaked) + turns);
      UnionCard(w.lane.Keys - w.leaked, turns);
    }
  }

  lemma LineShape(w: World, b: BatchId, orphans: map<TaskId, Execution>)
    requires PhasesAgree(w) && orphans.Keys !! w.lane.Keys && forall id :: id in w.members ==> w.members[id].batch != b
    ensures var v := Lined(w, b, orphans);
            && Running(v) == Running(w) && v.leaked == w.leaked
            && v.lane.Keys == w.lane.Keys + orphans.Keys
            && v.lane.Keys - v.leaked == (w.lane.Keys - w.leaked) + orphans.Keys
            && (forall id :: id in v.members && v.members[id].batch == b <==> id in orphans)
            && (forall id :: id in orphans ==> v.members[id] == Member(b, false))
            && (forall id :: id in w.members ==> id in v.members && v.members[id] == w.members[id])
  {
  }

  lemma TurnKeepsRoom(cap: nat, w: World, id: TaskId)
    requires PhasesAgree(w) && RoomForTurns(cap, w) && Waits(w.members, id)
    ensures RoomForTurns(cap, Turned(w, id))
  {
    hide PhasesAgree, Admissible;
    var v, b := Turned(w, id), w.members[id].batch;
    TurnShape(w, id);
    forall s | Admissible(cap, v.members, s) ensures |Running(v) + s| <= cap {
      BeforeTheTurn(cap, w, id, s);
      assert Running(v) + s == Running(w) + (s + {id});
    }
  }

  lemma TurnShape(w: World, id: TaskId)
    requires PhasesAgree(w) && Waits(w.members, id)
    ensures Running(Turned(w, id)) == Running(w) + {id}
  {
  }

  lemma BeforeTheTurn(cap: nat, w: World, id: TaskId, s: set<TaskId>)
    requires Waits(w.members, id) && Admissible(cap, Turned(w, id).members, s)
    ensures Admissible(cap, w.members, s + {id})
  {
    var m, m' := w.members, Turned(w, id).members;
    forall x | x in s + {id} ensures Waits(m, x) {
      assert x != id ==> Waits(m', x);
    }
    assert id !in s by { assert !Waits(m', id); }
    forall b ensures |Part(m, s + {id}, b)| + |Holding(m, b)| <= cap {
      assert |Part(m', s, b)| + |Holding(m', b)| <= cap;
      if b == m[id].batch {
        assert Part(m, s + {id}, b) == Part(m', s, b) + {id};
        assert Holding(m', b) == Holding(m, b) + {id};
      } else {
        assert Part(m, s + {id}, b) == Part(m', s, b);
        assert Holding(m', b) == Holding(m, b);
      }
    }
  }

  lemma LeavingKeepsRoom(cap: nat, w: World, id: TaskId)
    requires PhasesAgree(w) && PermitsKept(cap, w.members) && RoomForTurns(cap, w) && id in w.lane
    ensures RoomForTurns(cap, Left(w, id))
  {
    hide PhasesAgree, Admissible, PermitsKept;
    var v := Left(w, id);
    forall s | Admissible(cap, v.members, s) ensures |Running(v) + s| <= cap {
      AdmissibleWaits(cap, v.members, s);
      assert id !in s by { assert !Waits(v.members, id); }
      RunningShrinks(w, id);
      if Admissible(cap, w.members, s) {
        SubsetCard(Running(v) + s, Running(w) + s);
      } else {
        var x := OneTooMany(cap, w, id, s);
        HoldingRuns(w, id);
        OneSwapped(Running(w) + (s - {x}), Running(v) + s, id, x);
      }
    }
  }

  lemma RunningShrinks(w: World, id: TaskId)
    ensures Running(Left(w, id)) <= Running(w)
  {
  }

  lemma OneSwapped<T>(a: set<T>, b: set<T>, gone: T, come: T)
    requires gone in a && b <= (a - {gone}) + {come}
    ensures |b| <= |a|
  {
    SubsetCard(b, (a - {gone}) + {come});
    UnionCard(a - {gone}, {come});
  }

  lemma HoldingRuns(w: World, id: TaskId)
    requires PhasesAgree(w) && id in w.members && w.members[id].holding
    ensures id in Running(w) && Running(Left(w, id)) == Running(w) - {id}
  {
  }

  lemma PermitReturns(w: World, id: TaskId, b: BatchId)
    ensures Holding(Left(w, id).members, b) ==
            if id in w.members && w.members[id] == Member(b, true) then Holding(w.members, b) - {id}
            else Holding(w.members, b)
  {
  }

  /** A set that only became admissible because a permit came back is one member too large before. */
  lemma OneTooMany(cap: nat, w: World, id: TaskId, s: set<TaskId>) returns (x: TaskId)
    requires Admissible(cap, Left(w, id).members, s) && !Admissible(cap, w.members, s) && id !in s
    requires PermitsKept(cap, w.members)
    ensures x in s && Admissible(cap, w.members, s - {x}) && id in w.members && w.members[id].holding
  {
    var m, m' := w.members, Left(w, id).members;
    forall y | y in s ensures Waits(m, y) {
      assert Waits(m', y);
    }
    var b :| |Part(m, s, b)| + |Holding(m, b)| > cap;
    assert |Part(m', s, b)| + |Holding(m', b)| <= cap;
    assert Part(m', s, b) == Part(m, s, b);
    PermitReturns(w, id, b);
    assert |Holding(m, b)| <= cap;
    x :| x in Part(m, s, b);
    forall c ensures |Part(m, s - {x}, c)| + |Holding(m, c)| <= cap {
      assert |Part(m', s, c)| + |Holding(m', c)| <= cap;
      if c == b {
        assert Part(m, s - {x}, c) == Part(m, s, c) - {x};
      } else {
        assert Part(m, s - {x}, c) == Part(m', s, c);
        assert Holding(m', c) == Holding(m, c);
      }
    }
  }

  lemma LosingKeepsRoom(cap: nat, w: World, id: TaskId)
    requires RoomForTurns(cap, w) && Waits(w.members, id)
    ensures RoomForTurns(cap, Lost(w, id))
  {
    var v := Lost(w, id);
    forall s | Admissible(cap, v.members, s) ensures |Running(v) + s| <= cap {
      assert id !in s by { assert !Waits(v.members, id); }
      forall y | y in s ensures Waits(w.members, y) {
        assert Waits(v.members, y);
      }
      forall b ensures |Part(w.members, s, b)| + |Holding(w.members, b)| <= cap {
        assert |Part(v.members, s, b)| + |Holding(v.members, b)| <= cap;
        assert Part(w.members, s, b) == Part(v.members, s, b);
        assert Holding(w.members, b) == Holding(v.members, b);
      }
      assert Running(v) == Running(w);
    }
  }

  lemma StepKeepsRoom(cap: nat, w: World, s: Step)
    requires Inv(cap, w) && RoomForTurns(cap, w) && Careful(cap, w, s)
    ensures RoomForTurns(cap, Next(cap, w, s))
  {
    hide PhasesAgree, PermitsKept, RoomForTurns, ClaimedIds, Holding, Joined, Left, Turned, Lost, Lined, Running;
    if Enabled(cap, w, s) {
      match s
      case Claim(id, task) => JoinKeepsRoom(cap, w, id, task);
      case DrainOne(id) => LeavingKeepsRoom(cap, w, id);
      case Dispatch(b, orphans) =>
        if |orphans| > 0 {
          LineKeepsRoom(cap, w, b, orphans);
        } else {
          NobodyLined(w, b, orphans);
        }
      case TakeTurn(id) => TurnKeepsRoom(cap, w, id);
      case Finish(id) => MemberInLane(w, id); LeavingKeepsRoom(cap, w, id);
      case CancelWaiting(id) => MemberInLane(w, id); LeavingKeepsRoom(cap, w, id);
      case CancelUnstarted(id) => LosingKeepsRoom(cap, w, id);
    }
  }

  lemma NobodyLined(w: World, b: BatchId, orphans: map<TaskId, Execution>)
    requires |orphans| == 0
    ensures Lined(w, b, orphans) == w
  {
    assert orphans == map[];
    assert w.lane + map[] == w.lane && w.members + map[] == w.members;
    assert (map id | id in orphans :: Member(b, false)) == map[];
  }

  lemma MemberInLane(w: World, id: TaskId)
    requires PhasesAgree(w) && id in w.members
    ensures id in w.lane
  {
  }

  lemma RoomNow(cap: nat, w: World)
    requires PermitsKept(cap, w.members) && RoomForTurns(cap, w)
    ensures |Running(w)| <= cap
  {
    forall b ensures Part(w.members, {}, b) == {} {
    }
    assert Admissible(cap, w.members, {});
    assert Running(w) + {} == Running(w);
  }

  lemma NobodyAtFirst(cap: nat)
    ensures RoomForTurns(cap, EMPTY)
  {
    forall s | Admissible(cap, EMPTY.members, s) ensures s == {} {
      AdmissibleWaits(cap, EMPTY.members, s);
    }
    assert Running(EMPTY) == {};
  }

  lemma {:induction false} CarefulKeepsRoom(cap: nat, before: seq<Step>, steps: seq<Step>)
    requires RoomForTurns(cap, Run(cap, EMPTY, before)) && CarefulFrom(cap, Run(cap, EMPTY, before), steps)
    ensures RoomForTurns(cap, Run(cap, Run(cap, EMPTY, before), steps))
  {
    hide RoomForTurns, Careful, Next, Inv;
    if |steps| > 0 {
      var w, front := Run(cap, EMPTY, before), steps[..|steps| - 1];
      FrontIsCareful(cap, w, steps);
      CarefulKeepsRoom(cap, before, front);
      RunSplits(cap, EMPTY, before, front);
      RunKeepsInv(cap, before + front);
      StepKeepsRoom(cap, Run(cap, w, front), steps[|steps| - 1]);
    }
  }

  lemma FrontIsCareful(cap: nat, w: World, steps: seq<Step>)
    requires |steps| > 0 && CarefulFrom(cap, w, steps)
    ensures CarefulFrom(cap, w, steps[..|steps| - 1])
    ensures Careful(cap, Run(cap, w, steps[..|steps| - 1]), steps[|steps| - 1])
  {
    hide Careful, Run;
    var front := steps[..|steps| - 1];
    forall i | 0 <= i < |front| ensures Careful(cap, Run(cap, w, front[..i]), front[i]) {
      assert front[..i] == steps[..i];
      assert Careful(cap, Run(cap, w, steps[..i]), steps[i]);
    }
  }

  /** A run whose dispatches are all careful never has more tasks running than the limit of the lane. */
  lemma CarefulRunsStayWithin(cap: nat, steps: seq<Step>)
    requires CarefulFrom(cap, EMPTY, steps)
    ensures |Running(Run(cap, EMPTY, steps))| <= cap
  {
    hide RoomForTurns, CarefulFrom, Running;
    NobodyAtFirst(cap);
    assert Run(cap, EMPTY, []) == EMPTY;
    CarefulKeepsRoom(cap, [], steps);
    RunKeepsInv(cap, steps);
    RoomNow(cap, Run(cap, EMPTY, steps));
  }

  // ---------- a careless dispatch ----------

  ghost predicate SamePlaces(w: World, v: World) {
    && v.lane.Keys == w.lane.Keys && v.leaked == w.leaked && v.members.Keys == w.members.Keys
    && forall id :: id in w.members ==> v.members[id].batch == w.members[id].batch
  }

  /** Everybody who still waits is behind a batch without a free permit. */
  ghost predicate AllTurnsTaken(cap: nat, w: World) {
    forall id :: Waits(w.members, id) ==> |Holding(w.members, w.members[id].batch)| >= cap
  }

  ghost function Waiting(members: map<TaskId, Member>): set<TaskId> {
    set id | id in members && !members[id].holding
  }

  lemma TurnMovesOn(w: World, id: TaskId)
    requires PhasesAgree(w) && Waits(w.members, id)
    ensures SamePlaces(w, Turned(w, id)) && Waiting(Turned(w, id).members) == Waiting(w.members) - {id}
  {
  }

  /** Let the members of all batches take their turns until none can. */
  lemma {:induction false} LetThemTurn(cap: nat, w: World) returns (more: seq<Step>)
    requires Inv(cap, w)
    ensures CarefulFrom(cap, w, more)
    ensures var u := Run(cap, w, more); Inv(cap, u) && SamePlaces(w, u) && AllTurnsTaken(cap, u)
    decreases |Waiting(w.members)|
  {
    hide Inv, PhasesAgree, Turned, Holding, Run;
    if AllTurnsTaken(cap, w) {
      more := [];
      assert Run(cap, w, more) == w by { NoStep(cap, w); }
    } else {
      var id :| Waits(w.members, id) && |Holding(w.members, w.members[id].batch)| < cap;
      InvParts(cap, w);
      TurnMovesOn(w, id);
      assert id in Waiting(w.members);
      StepKeepsInv(cap, w, TakeTurn(id));
      var rest := LetThemTurn(cap, Turned(w, id));
      more := [TakeTurn(id)] + rest;
      OneFirst(cap, w, TakeTurn(id), rest);
    }
  }

  lemma NoStep(cap: nat, w: World)
    ensures Run(cap, w, []) == w
  {
  }

  lemma InvParts(cap: nat, w: World)
    requires Inv(cap, w)
    ensures PhasesAgree(w) && PermitsKept(cap, w.members)
  {
  }

  lemma StepKeepsInv(cap: nat, w: World, s: Step)
    requires Inv(cap, w)
    ensures Inv(cap, Next(cap, w, s))
  {
    hide Next, PhasesAgree, PermitsKept, ClaimedIds;
    StepKeepsPhases(cap, w, s);
    StepKeepsPermits(cap, w, s);
    StepKeepsClaims(cap, w, s);
  }

  lemma OneFirst(cap: nat, w: World, s: Step, rest: seq<Step>)
    requires CarefulFrom(cap, Next(cap, w, s), rest) && Careful(cap, w, s)
    ensures CarefulFrom(cap, w, [s] + rest) && Run(cap, w, [s] + rest) == Run(cap, Next(cap, w, s), rest)
  {
    hide Next, Careful;
    var steps := [s] + rest;
    assert [s][..0] == [] && Run(cap, w, [s]) == Next(cap, w, s);
    RunSplits(cap, w, [s], rest);
    forall i | 0 <= i < |steps| ensures Careful(cap, Run(cap, w, steps[..i]), steps[i]) {
      if i > 0 {
        RunSplits(cap, w, [s], rest[..i - 1]);
        assert steps[..i] == [s] + rest[..i - 1] && steps[i] == rest[i - 1];
      }
    }
  }

  lemma SomebodyHolds(cap: nat, u: World, id: TaskId) returns (y: TaskId)
    requires PhasesAgree(u) && AllTurnsTaken(cap, u) && id in u.members && cap > 0
    ensures y in Running(u) && y in u.members && u.members[y] == Member(u.members[id].batch, true)
  {
    var held := Holding(u.members, u.members[id].batch);
    if u.members[id].holding {
      y := id;
    } else {
      assert Waits(u.members, id);
      assert held != {};
      y :| y in held;
    }
  }

  lemma SlotRunsOrWaits(u: World, id: TaskId)
    requires PhasesAgree(u) && id in u.lane && id !in u.leaked && id !in u.members
    ensures id in Running(u)
  {
  }

  lemma PlacesAfter(w: World, b: BatchId, orphans: map<TaskId, Execution>, u: World)
    requires PhasesAgree(w) && orphans.Keys !! w.lane.Keys && forall id :: id in w.members ==> w.members[id].batch != b
    requires SamePlaces(Lined(w, b, orphans), u)
    ensures u.lane.Keys - u.leaked == (w.lane.Keys - w.leaked) + orphans.Keys
    ensures forall id :: id in u.members && u.members[id].batch == b <==> id in orphans
  {
    hide PhasesAgree, Lined;
    LineShape(w, b, orphans);
  }

  /** Besides the holders of one batch, something else runs. */
  lemma Outsider(cap: nat, w: World, b: BatchId, orphans: map<TaskId, Execution>, u: World, c: BatchId)
    returns (y: TaskId)
    requires PhasesAgree(w) && Enabled(cap, w, Dispatch(b, orphans)) && |orphans| > 0
    requires !Careful(cap, w, Dispatch(b, orphans))
    requires PhasesAgree(u) && SamePlaces(Lined(w, b, orphans), u) && AllTurnsTaken(cap, u)
    ensures y in Running(u) && y !in Holding(u.members, c)
  {
    hide PhasesAgree, Running, Lined, AllTurnsTaken, SamePlaces;
    PlacesAfter(w, b, orphans, u);
    if c != b {
      assert orphans.Keys != {};
      var o :| o in orphans;
      y := SomebodyHolds(cap, u, o);
    } else {
      assert w.lane.Keys - w.leaked != {};
      var x :| x in w.lane.Keys - w.leaked;
      assert x in u.lane.Keys - u.leaked;
      if x in u.members {
        y := SomebodyHolds(cap, u, x);
      } else {
        SlotRunsOrWaits(u, x);
        y := x;
      }
    }
  }

  lemma HoldersRun(u: World, c: BatchId)
    requires PhasesAgree(u)
    ensures Holding(u.members, c) <= Running(u)
  {
  }

  lemma EverybodyRuns(u: World)
    requires PhasesAgree(u) && Waiting(u.members) == {}
    ensures Running(u) == u.lane.Keys - u.leaked
  {
    forall id | id in u.members ensures u.members[id].holding {
      assert id !in Waiting(u.members);
    }
  }

  /** After a careless dispatch and all the turns it allows, too many tasks run. */
  lemma TooManyRun(cap: nat, w: World, b: BatchId, orphans: map<TaskId, Execution>, u: World)
    requires PhasesAgree(w) && Enabled(cap, w, Dispatch(b, orphans)) && |orphans| > 0
    requires !Careful(cap, w, Dispatch(b, orphans))
    requires PhasesAgree(u) && SamePlaces(Lined(w, b, orphans), u) && AllTurnsTaken(cap, u)
    ensures |Running(u)| > cap
  {
    hide PhasesAgree, Running, Lined, AllTurnsTaken, Holding, SamePlaces;
    if Waiting(u.members) == {} {
      EverybodyRuns(u);
      PlacesAfter(w, b, orphans, u);
      var was := w.lane.Keys - w.leaked;
      assert |was + orphans.Keys| == |was| + |orphans.Keys|;
      assert |orphans.Keys| == |orphans|;
    } else {
      var id :| id in Waiting(u.members);
      var c := u.members[id].batch;
      HoldersRun(u, c);
      FullBatch(cap, u, id);
      var y := Outsider(cap, w, b, orphans, u, c);
      SubsetCard(Holding(u.members, c) + {y}, Running(u));
    }
  }

  lemma FullBatch(cap: nat, u: World, id: TaskId)
    requires AllTurnsTaken(cap, u) && Waits(u.members, id)
    ensures |Holding(u.members, u.members[id].batch)| >= cap
  {
  }

  /** The exact condition, for every reachable state and every batch: however the run goes on with careful
      dispatches, no more tasks than the limit ever run, if and only if the tasks that already occupy the lane and
      the turns the new batch can take at once fit into the limit together. */
  lemma DispatchIsSafeExactlyWhenCareful(cap: nat, steps: seq<Step>, b: BatchId, orphans: map<TaskId, Execution>)
    requires Enabled(cap, Run(cap, EMPTY, steps), Dispatch(b, orphans)) && |orphans| > 0
    ensures var w := Run(cap, EMPTY, steps);
            var v := Run(cap, EMPTY, steps + [Dispatch(b, orphans)]);
            (forall more :: CarefulFrom(cap, v, more) ==> |Running(Run(cap, v, more))| <= cap)
            <==> |w.lane.Keys - w.leaked| + Min(|orphans|, cap) <= cap
  {
    hide Run, CarefulFrom, Running, Inv, RoomForTurns, PhasesAgree, PermitsKept, Lined, AllTurnsTaken, SamePlaces, Min;
    var w := Run(cap, EMPTY, steps);
    var before := steps + [Dispatch(b, orphans)];
    var v := Run(cap, EMPTY, before);
    RunKeepsInv(cap, steps);
    InvParts(cap, w);
    RunKeepsInv(cap, before);
    OneMoreStep(cap, EMPTY, steps, Dispatch(b, orphans));
    assert v == Lined(w, b, orphans);
    if Careful(cap, w, Dispatch(b, orphans)) {
      LineKeepsRoom(cap, w, b, orphans);
      forall more | CarefulFrom(cap, v, more) ensures |Running(Run(cap, v, more))| <= cap {
        CarefulKeepsRoom(cap, before, more);
        RunSplits(cap, EMPTY, before, more);
        RunKeepsInv(cap, before + more);
        InvParts(cap, Run(cap, v, more));
        RoomNow(cap, Run(cap, v, more));
      }
    } else {
      var more := LetThemTurn(cap, v);
      InvParts(cap, Run(cap, v, more));
      TooManyRun(cap, w, b, orphans, Run(cap, v, more));
      assert CarefulFrom(cap, v, more) && |Running(Run(cap, v, more))| > cap;
    }
  }

  lemma OneMoreStep(cap: nat, w: World, steps: seq<Step>, s: Step)
    ensures Run(cap, w, steps + [s]) == Next(cap, Run(cap, w, steps), s)
  {
    hide Next;
    assert (steps + [s])[..|steps + [s]| - 1] == steps;
  }
}
