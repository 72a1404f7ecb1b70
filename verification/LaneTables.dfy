/** The slot table as the worker uses it (lib/generation_worker.py, `_claim_tasks`, `_dispatch_provider_bucket`,
    `_run_one`, `_drain_finished_tasks`): every use of the table is a step of `LaneRuns`, and leaves the other lanes
    alone. */
module LaneTables {
  import opened Slots
  import opened LaneRuns

  /** The table shows the lane of `w`, and the other lanes are as in `before`. */
  ghost predicate Shows(table: SlotTable, lane: Lane, w: World, before: map<Lane, Bucket>)
    reads table
  {
    && table.Valid() && table.Of(lane) == w.lane
    && forall l :: l != lane ==> table.Of(l) == BucketOf(before, l)
  }

  method Join(table: SlotTable, lane: Lane, id: TaskId, task: Execution, ghost w: World)
    requires Shows(table, lane, w, table.slots)
    modifies table
    ensures Shows(table, lane, Joined(w, id, task), old(table.slots))
  {
    table.Register(lane, id, task, false);
  }

  /** The slots of some members of a batch, all waiting. */
  function WaitingSlots(orphans: map<TaskId, Execution>, ids: set<TaskId>): Bucket {
    map id | id in ids && id in orphans :: Occupant(orphans[id], true)
  }

  lemma OneMoreWaits(b: Bucket, orphans: map<TaskId, Execution>, ids: set<TaskId>, id: TaskId)
    requires id in orphans
    ensures (b + WaitingSlots(orphans, ids))[id := Occupant(orphans[id], true)] == b + WaitingSlots(orphans, ids + {id})
  {
  }

  lemma AllWait(w: World, b: BatchId, orphans: map<TaskId, Execution>)
    ensures w.lane + WaitingSlots(orphans, {}) == w.lane
    ensures w.lane + WaitingSlots(orphans, orphans.Keys) == Lined(w, b, orphans).lane
  {
  }

  /** The members of a batch are registered one by one, all of them waiting, before any of them runs. */
  method LineUp(table: SlotTable, lane: Lane, orphans: map<TaskId, Execution>, ghost w: World, ghost b: BatchId)
    requires Shows(table, lane, w, table.slots)
    modifies table
    ensures Shows(table, lane, Lined(w, b, orphans), old(table.slots))
  {
    hide WaitingSlots, Lined;
    AllWait(w, b, orphans);
    ghost var before := table.slots;
    ghost var done: set<TaskId> := {};
    var rest := orphans.Keys;
    while rest != {}
      invariant done + rest == orphans.Keys && table.Valid()
      invariant forall l :: l != lane ==> table.Of(l) == BucketOf(before, l)
      invariant table.Of(lane) == w.lane + WaitingSlots(orphans, done)
      decreases rest
    {
      var id :| id in rest;
      OneMoreWaits(w.lane, orphans, done, id);
      table.Register(lane, id, orphans[id], true);
      rest, done := rest - {id}, done + {id};
    }
    assert done == orphans.Keys;
  }

  method PromoteMember(table: SlotTable, lane: Lane, id: TaskId, ghost w: World)
    requires Shows(table, lane, w, table.slots) && id in w.members
    modifies table
    ensures Shows(table, lane, Turned(w, id), old(table.slots))
  {
    table.Promote(lane, id);
  }

  method GiveUp(table: SlotTable, lane: Lane, id: TaskId, ghost w: World)
    requires Shows(table, lane, w, table.slots)
    modifies table
    ensures Shows(table, lane, Left(w, id), old(table.slots))
  {
    table.Release(lane, id);
  }

  /** The members of the lane's batches give their slots up before they are done. */
  ghost predicate MembersRun(w: World, done: set<Execution>) {
    forall id :: id in w.members && id in w.lane && !w.lane[id].pending ==> w.lane[id].task !in done
  }

  /** What one drain takes out of a lane. */
  function Gone(lane: Bucket, done: set<Execution>): set<TaskId> {
    lane.Keys - Undone(lane, done).Keys
  }

  lemma LastDrained(cap: nat, w: World, gone: set<TaskId>, id: TaskId)
    requires id in gone && id in w.lane && !w.lane[id].pending && id !in w.members
    ensures Next(cap, w.(lane := w.lane - (gone - {id})), DrainOne(id)) == w.(lane := w.lane - gone)
  {
    hide Holding;
    assert (w.lane - (gone - {id})) - {id} == w.lane - gone;
    assert w.members - {id} == w.members;
  }

  lemma {:induction false} DrainInSteps(cap: nat, w: World, gone: set<TaskId>) returns (steps: seq<Step>)
    requires forall id :: id in gone ==> id in w.lane && !w.lane[id].pending && id !in w.members
    ensures forall s :: s in steps ==> s.DrainOne?
    ensures Run(cap, w, steps) == w.(lane := w.lane - gone)
    decreases |gone|
  {
    hide Next;
    if gone == {} {
      steps := [];
      assert w.lane - {} == w.lane;
    } else {
      var id :| id in gone;
      var front := DrainInSteps(cap, w, gone - {id});
      steps := front + [DrainOne(id)];
      assert steps[..|steps| - 1] == front;
      LastDrained(cap, w, gone, id);
    }
  }

  /** One drain of the table is a row of the lane's drain steps. */
  method Drain(table: SlotTable, lane: Lane, done: set<Execution>, ghost cap: nat, ghost w: World)
    returns (finished: set<(TaskId, Execution)>, ghost steps: seq<Step>)
    requires Shows(table, lane, w, table.slots) && MembersRun(w, done)
    modifies table
    ensures forall s :: s in steps ==> s.DrainOne?
    ensures table.Valid() && table.Of(lane) == Run(cap, w, steps).lane
    ensures Run(cap, w, steps).members == w.members && Run(cap, w, steps).leaked == w.leaked
  {
    finished := table.DrainFinished(done);
    steps := DrainInSteps(cap, w, Gone(w.lane, done));
    assert Undone(w.lane, done) == w.lane - Gone(w.lane, done);
  }
}
