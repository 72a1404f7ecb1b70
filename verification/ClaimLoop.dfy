/** One claim cycle (lib/generation_worker.py, `_pool_full_providers`, `_claim_tasks`) over the task table
    (lib/db/repositories/task_repo.py, `claim_next`). */
module ClaimLoop {
  import opened Options
  import opened Slots
  import opened TaskProtocol

  /** What claiming looks at. `stored` is the provider on record, `derived` the one the worker resolves; `ready` says
      that the task's dependency, if any, has succeeded. */
  datatype Row = Row(media: Media, stored: Option<Provider>, derived: Provider, ready: bool, queuedAt: int)

  function LaneOf(row: Row): Lane {
    Lane(row.derived, row.media)
  }

  /** Queued, of this media, dependency met, and not on record for a full provider. */
  predicate Eligible(rows: map<TaskId, Row>, status: map<TaskId, Status>, id: TaskId, media: Media,
                     full: set<Provider>) {
    && id in rows && id in status && status[id].Queued? && rows[id].media == media && rows[id].ready
    && (rows[id].stored.None? || rows[id].stored.value !in full)
  }

  ghost predicate FirstInLine(rows: map<TaskId, Row>, status: map<TaskId, Status>, id: TaskId, media: Media,
                              full: set<Provider>) {
    && Eligible(rows, status, id, media, full)
    && forall k :: Eligible(rows, status, k, media, full) ==> rows[id].queuedAt <= rows[k].queuedAt
  }

  class TaskTable {
    const rows: map<TaskId, Row>
    var status: map<TaskId, Status>

    ghost predicate Valid()
      reads this
    {
      status.Keys == rows.Keys
    }

    constructor (rows: map<TaskId, Row>, status: map<TaskId, Status>)
      requires status.Keys == rows.Keys
      ensures Valid() && this.rows == rows && this.status == status
    {
      this.rows, this.status := rows, status;
    }

    /** Takes the first eligible task in line and sets it running. */
    method ClaimNext(media: Media, full: set<Provider>) returns (id: Option<TaskId>)
      requires Valid()
      modifies this
      ensures Valid()
      ensures id.None? ==> status == old(status) && forall k :: !Eligible(rows, status, k, media, full)
      ensures id.Some? ==>
                FirstInLine(rows, old(status), id.value, media, full) && status == old(status)[id.value := Running]
    {
      var ids := rows.Keys;
      id := None;
      while ids != {}
        invariant ids <= rows.Keys
        invariant id.Some? ==> Eligible(rows, status, id.value, media, full)
        invariant forall k :: k in rows && k !in ids && Eligible(rows, status, k, media, full) ==>
                    id.Some? && rows[id.value].queuedAt <= rows[k].queuedAt
        decreases ids
      {
        var k :| k in ids;
        if Eligible(rows, status, k, media, full) && (id.None? || rows[k].queuedAt < rows[id.value].queuedAt) {
          id := Some(k);
        }
        ids := ids - {k};
      }
      if id.Some? {
        status := status[id.value := Running];
      }
    }

    method MarkFailed(id: TaskId)
      requires Valid() && id in rows
      modifies this
      ensures Valid() && status == old(status)[id := Land(old(status)[id], TaskProtocol.MarkFailed)]
    {
      status := status[id := Land(status[id], TaskProtocol.MarkFailed)];
    }

    /** Puts a claimed task back in line; its place in line is kept. */
    method Requeue(id: TaskId)
      requires Valid() && id in rows
      modifies this
      ensures Valid() && status == if old(status)[id].Running? then old(status)[id := Queued] else old(status)
    {
      if status[id].Running? {
        status := status[id := Queued];
      }
    }
  }

  /** No room although the lane is open. */
  ghost predicate Full(limits: CapacityTable, slots: map<Lane, Bucket>, lane: Lane)
    reads limits
  {
    limits.Cap(lane) > 0 && |BucketOf(slots, lane)| >= limits.Cap(lane)
  }

  /** The lane is closed: a known provider has no positive limit for it on record, an unknown one no positive
      default. */
  ghost predicate Closed(limits: CapacityTable, provider: Provider, media: Media)
    reads limits
  {
    if provider in limits.limits then media !in limits.limits[provider] || limits.limits[provider][media] <= 0
    else media !in limits.defaults || limits.defaults[media] <= 0
  }

  /** What a cycle may do to one task: leave it; or, once its dependency is met, start it in a lane with room, or
      fail it when its lane is closed. */
  ghost predicate Settled(limits: CapacityTable, row: Row, id: TaskId, was: Status, now: Status,
                          slots: map<Lane, Bucket>)
    reads limits
  {
    || now == was
    || (was.Queued? && row.ready && now.Failed? && Closed(limits, row.derived, row.media))
    || (was.Queued? && row.ready && now.Running? && id in BucketOf(slots, LaneOf(row))
        && !BucketOf(slots, LaneOf(row))[id].pending)
  }

  /** No occupant leaves its lane or goes back to waiting, and a lane that changed is within its limit. */
  ghost predicate WithinLimits(limits: CapacityTable, was: map<Lane, Bucket>, now: map<Lane, Bucket>)
    reads limits
  {
    forall lane :: LaneWithin(limits.Cap(lane), BucketOf(was, lane), BucketOf(now, lane))
  }

  ghost predicate LaneWithin(cap: int, was: Bucket, now: Bucket) {
    && (forall id :: id in was ==> id in now && (now[id].pending ==> was[id].pending))
    && (was == now || |now| <= cap)
  }

  lemma LaneWithinAdds(cap: int, was: Bucket, id: TaskId, task: Execution)
    requires |was| < cap
    ensures LaneWithin(cap, was, was[id := Occupant(task, false)])
  {
    var now := was[id := Occupant(task, false)];
    assert now.Keys == was.Keys + {id};
    assert |now| == |now.Keys| && |was| == |was.Keys|;
  }

  lemma WithinLimitsAdds(limits: CapacityTable, slots: map<Lane, Bucket>, lane: Lane, id: TaskId, task: Execution)
    requires |BucketOf(slots, lane)| < limits.Cap(lane)
    ensures WithinLimits(limits, slots, With(slots, lane, BucketOf(slots, lane)[id := Occupant(task, false)]))
  {
    LaneWithinAdds(limits.Cap(lane), BucketOf(slots, lane), id, task);
  }

  /** `a` left the line while `b`, queued earlier for the same provider and media and free to run, is still in it. */
  ghost predicate Overtakes(rows: map<TaskId, Row>, was: map<TaskId, Status>, now: map<TaskId, Status>, a: TaskId,
                            b: TaskId)
    requires was.Keys == now.Keys == rows.Keys && a in rows && b in rows
  {
    && rows[a].media == rows[b].media && rows[a].stored == rows[b].stored && rows[b].ready
    && was[a].Queued? && !now[a].Queued? && was[b].Queued? && now[b].Queued?
    && rows[b].queuedAt < rows[a].queuedAt
  }

  ghost predicate InTurn(rows: map<TaskId, Row>, was: map<TaskId, Status>, now: map<TaskId, Status>)
    requires was.Keys == now.Keys == rows.Keys
  {
    forall a, b :: a in rows && b in rows ==> !Overtakes(rows, was, now, a, b)
  }

  /** What a cycle, or a part of it, does to lanes and tasks. */
  ghost predicate Effect(limits: CapacityTable, rows: map<TaskId, Row>, was: map<TaskId, Status>,
                         now: map<TaskId, Status>, before: map<Lane, Bucket>, after: map<Lane, Bucket>)
    requires was.Keys == now.Keys == rows.Keys
    reads limits
  {
    && WithinLimits(limits, before, after) && InTurn(rows, was, now)
    && forall id :: id in rows ==> Settled(limits, rows[id], id, was[id], now[id], after)
  }

  lemma InTurnChains(limits: CapacityTable, rows: map<TaskId, Row>,
                     s0: map<TaskId, Status>, s1: map<TaskId, Status>, s2: map<TaskId, Status>,
                     slots: map<Lane, Bucket>)
    requires s0.Keys == s1.Keys == s2.Keys == rows.Keys && InTurn(rows, s0, s1) && InTurn(rows, s1, s2)
    requires forall id :: id in rows ==> Settled(limits, rows[id], id, s1[id], s2[id], slots)
    ensures InTurn(rows, s0, s2)
  {
    hide Slots.CapacityTable.Cap;
    forall a, b | a in rows && b in rows ensures !Overtakes(rows, s0, s2, a, b) {
      assert !Overtakes(rows, s0, s1, a, b) && !Overtakes(rows, s1, s2, a, b);
      assert Settled(limits, rows[b], b, s1[b], s2[b], slots);
    }
  }

  lemma Compose(limits: CapacityTable, rows: map<TaskId, Row>,
                s0: map<TaskId, Status>, s1: map<TaskId, Status>, s2: map<TaskId, Status>,
                b0: map<Lane, Bucket>, b1: map<Lane, Bucket>, b2: map<Lane, Bucket>)
    requires s0.Keys == s1.Keys == s2.Keys == rows.Keys
    requires Effect(limits, rows, s0, s1, b0, b1) && Effect(limits, rows, s1, s2, b1, b2)
    ensures Effect(limits, rows, s0, s2, b0, b2)
  {
    hide Slots.CapacityTable.Cap, InTurn;
    InTurnChains(limits, rows, s0, s1, s2, b2);
    forall lane ensures LaneWithin(limits.Cap(lane), BucketOf(b0, lane), BucketOf(b2, lane)) {
      assert LaneWithin(limits.Cap(lane), BucketOf(b0, lane), BucketOf(b1, lane));
      assert LaneWithin(limits.Cap(lane), BucketOf(b1, lane), BucketOf(b2, lane));
    }
    forall id | id in rows ensures Settled(limits, rows[id], id, s0[id], s2[id], b2) {
      assert Settled(limits, rows[id], id, s0[id], s1[id], b1) && Settled(limits, rows[id], id, s1[id], s2[id], b2);
      assert LaneWithin(limits.Cap(LaneOf(rows[id])), BucketOf(b1, LaneOf(rows[id])), BucketOf(b2, LaneOf(rows[id])));
    }
  }

  /** What holds of all tasks after some rounds of the loop of one media type. */
  ghost predicate Progress(limits: CapacityTable, rows: map<TaskId, Row>, media: Media, was: map<TaskId, Status>,
                           now: map<TaskId, Status>, before: map<Lane, Bucket>, after: map<Lane, Bucket>)
    requires was.Keys == now.Keys == rows.Keys
    reads limits
  {
    && Effect(limits, rows, was, now, before, after)
    && (forall lane: Lane :: lane.media != media ==> BucketOf(after, lane) == BucketOf(before, lane))
    && (forall id :: id in rows && rows[id].media != media ==> now[id] == was[id])
  }

  lemma ProgressChains(limits: CapacityTable, rows: map<TaskId, Row>, media: Media,
                       s0: map<TaskId, Status>, s1: map<TaskId, Status>, s2: map<TaskId, Status>,
                       b0: map<Lane, Bucket>, b1: map<Lane, Bucket>, b2: map<Lane, Bucket>)
    requires s0.Keys == s1.Keys == s2.Keys == rows.Keys
    requires Progress(limits, rows, media, s0, s1, b0, b1) && Progress(limits, rows, media, s1, s2, b1, b2)
    ensures Progress(limits, rows, media, s0, s2, b0, b2)
  {
    hide Effect;
    Compose(limits, rows, s0, s1, s2, b0, b1, b2);
  }

  /** Whoever is first in line overtakes nobody. */
  lemma FirstIsInTurn(rows: map<TaskId, Row>, media: Media, was: map<TaskId, Status>, id: TaskId, full: set<Provider>,
                      s: Status)
    requires was.Keys == rows.Keys && FirstInLine(rows, was, id, media, full)
    ensures InTurn(rows, was, was[id := s])
  {
    forall a, b | a in rows && b in rows ensures !Overtakes(rows, was, was[id := s], a, b) {
      if Overtakes(rows, was, was[id := s], a, b) {
        assert a == id && Eligible(rows, was, b, media, full);
      }
    }
  }

  /** The first in line of this media type fails because its lane is closed, or starts because its lane has room. */
  lemma OneSettles(limits: CapacityTable, rows: map<TaskId, Row>, media: Media, was: map<TaskId, Status>,
                   slots: map<Lane, Bucket>, id: TaskId, task: Execution, full: set<Provider>)
    requires was.Keys == rows.Keys && FirstInLine(rows, was, id, media, full)
    ensures limits.Cap(LaneOf(rows[id])) <= 0 ==> Progress(limits, rows, media, was, was[id := Failed], slots, slots)
    ensures |BucketOf(slots, LaneOf(rows[id]))| < limits.Cap(LaneOf(rows[id])) ==>
              Progress(limits, rows, media, was, was[id := Running], slots,
                       With(slots, LaneOf(rows[id]), BucketOf(slots, LaneOf(rows[id]))[id := Occupant(task, false)]))
  {
    hide InTurn;
    FirstIsInTurn(rows, media, was, id, full, Failed);
    FirstIsInTurn(rows, media, was, id, full, Running);
    assert Eligible(rows, was, id, media, full);
    if |BucketOf(slots, LaneOf(rows[id]))| < limits.Cap(LaneOf(rows[id])) {
      WithinLimitsAdds(limits, slots, LaneOf(rows[id]), id, task);
    }
  }

  class Worker {
    const limits: CapacityTable
    const slots: SlotTable
    const tasks: TaskTable
    var executions: nat

    constructor (limits: CapacityTable, slots: SlotTable, tasks: TaskTable)
      ensures this.limits == limits && this.slots == slots && this.tasks == tasks
    {
      this.limits, this.slots, this.tasks := limits, slots, tasks;
      executions := 0;
    }

    ghost predicate Valid()
      reads this, slots, tasks
    {
      slots.Valid() && tasks.Valid()
    }

    /** The blacklist of a claim. It only looks at occupied lanes, yet names exactly the providers that are full. */
    method PoolFullProviders(media: Media) returns (full: set<Provider>)
      requires Valid()
      ensures forall p :: p in full <==> Full(limits, slots.slots, Lane(p, media))
    {
      var occupied := slots.OccupiedProviders(media);
      full := set p: Provider | p in occupied && limits.Cap(Lane(p, media)) > 0
          && |slots.Of(Lane(p, media))| >= limits.Cap(Lane(p, media));
    }

    /** One round of the loop: claim the first in line, then fail it, start it, or put it back and stop. */
    method ClaimOne(media: Media) returns (stop: bool, claimed: bool)
      requires Valid()
      modifies this, slots, tasks
      ensures Valid()
      ensures stop ==>
                && tasks.status == old(tasks.status) && slots.slots == old(slots.slots)
                && Stuck(limits, tasks.rows, tasks.status, slots.slots, media)
      ensures !stop ==>
                && Progress(limits, tasks.rows, media, old(tasks.status), tasks.status, old(slots.slots), slots.slots)
                && InLine(tasks.rows, tasks.status) < InLine(tasks.rows, old(tasks.status))
      ensures claimed == !stop
    {
      hide Slots.CapacityTable.Cap, Progress, Stuck, InLine, With;
      var full := PoolFullProviders(media);
      var next := tasks.ClaimNext(media, full);
      if next.None? {
        StuckWith(limits, tasks.rows, tasks.status, slots.slots, media, full);
        return true, false;
      }
      var id := next.value;
      var lane := LaneOf(tasks.rows[id]);
      var cap := limits.Cap(lane);
      OneSettles(limits, tasks.rows, media, old(tasks.status), slots.slots, id, Execution(executions), full);
      InLineShrinks(tasks.rows, old(tasks.status), id, Failed);
      InLineShrinks(tasks.rows, old(tasks.status), id, Running);
      if cap <= 0 {
        tasks.MarkFailed(id);
        assert tasks.status == old(tasks.status)[id := Failed];
        return false, true;
      }
      var room := slots.HasRoom(lane, cap);
      if !room {
        tasks.Requeue(id);
        assert tasks.status == old(tasks.status);
        StuckWith(limits, tasks.rows, tasks.status, slots.slots, media, full);
        return true, false;
      }
      slots.Register(lane, id, Execution(executions), false);
      executions := executions + 1;
      return false, true;
    }

    /** The loop of one media type. */
    method ClaimMedia(media: Media) returns (claimed: bool)
      requires Valid()
      modifies this, slots, tasks
      ensures Valid()
      ensures Progress(limits, tasks.rows, media, old(tasks.status), tasks.status, old(slots.slots), slots.slots)
      ensures Stuck(limits, tasks.rows, tasks.status, slots.slots, media)
      ensures claimed || (tasks.status == old(tasks.status) && slots.slots == old(slots.slots))
    {
      hide Progress, Stuck;
      claimed := false;
      ghost var slots0, status0 := slots.slots, tasks.status;
      NoProgress(limits, tasks.rows, media, status0, slots0);
      while true
        invariant Valid() && status0.Keys == tasks.rows.Keys
        invariant Progress(limits, tasks.rows, media, status0, tasks.status, slots0, slots.slots)
        invariant claimed || (tasks.status == status0 && slots.slots == slots0)
        decreases InLine(tasks.rows, tasks.status)
      {
        ghost var slots1, status1 := slots.slots, tasks.status;
        var stop, one := ClaimOne(media);
        if stop {
          break;
        }
        claimed := true;
        ProgressChains(limits, tasks.rows, media, status0, status1, tasks.status, slots0, slots1, slots.slots);
      }
    }

    /** One cycle: all media types in turn. */
    method ClaimTasks() returns (claimed: bool)
      requires Valid()
      modifies this, slots, tasks
      ensures Valid()
      // A claim never takes a lane's occupancy above its limit, and evicts nobody.
      ensures WithinLimits(limits, old(slots.slots), slots.slots)
      // A claimed task is running in a lane that had room, or has failed because its lane is closed; no other changes.
      ensures forall id :: id in tasks.rows ==>
                Settled(limits, tasks.rows[id], id, old(tasks.status)[id], tasks.status[id], slots.slots)
      // Among the tasks on record for one provider and media, those free to run leave the line in the order they came.
      ensures InTurn(tasks.rows, old(tasks.status), tasks.status)
      // Nothing that could run is left behind the head of a line.
      ensures forall media :: Stuck(limits, tasks.rows, tasks.status, slots.slots, media)
      ensures claimed || (tasks.status == old(tasks.status) && slots.slots == old(slots.slots))
    {
      hide Stuck, Progress;
      var image := ClaimMedia(Image);
      ghost var slots1, status1 := slots.slots, tasks.status;
      var video := ClaimMedia(Video);
      ghost var slots2, status2 := slots.slots, tasks.status;
      var audio := ClaimMedia(Audio);
      claimed := image || video || audio;
      StuckStays(limits, tasks.rows, Video, status1, status2, slots1, slots2, Image);
      StuckStays(limits, tasks.rows, Audio, status2, tasks.status, slots2, slots.slots, Image);
      StuckStays(limits, tasks.rows, Audio, status2, tasks.status, slots2, slots.slots, Video);
      EffectChains(limits, tasks.rows, Image, Video, old(tasks.status), status1, status2, old(slots.slots), slots1,
                   slots2);
      EffectOf(limits, tasks.rows, Audio, status2, tasks.status, slots2, slots.slots);
      Compose(limits, tasks.rows, old(tasks.status), status2, tasks.status, old(slots.slots), slots2, slots.slots);
      forall media ensures Stuck(limits, tasks.rows, tasks.status, slots.slots, media) {
        assert media == Image || media == Video || media == Audio;
      }
    }
  }

  lemma EffectOf(limits: CapacityTable, rows: map<TaskId, Row>, media: Media, was: map<TaskId, Status>,
                 now: map<TaskId, Status>, before: map<Lane, Bucket>, after: map<Lane, Bucket>)
    requires was.Keys == now.Keys == rows.Keys && Progress(limits, rows, media, was, now, before, after)
    ensures Effect(limits, rows, was, now, before, after)
  {
  }

  lemma EffectChains(limits: CapacityTable, rows: map<TaskId, Row>, m: Media, n: Media,
                     s0: map<TaskId, Status>, s1: map<TaskId, Status>, s2: map<TaskId, Status>,
                     b0: map<Lane, Bucket>, b1: map<Lane, Bucket>, b2: map<Lane, Bucket>)
    requires s0.Keys == s1.Keys == s2.Keys == rows.Keys
    requires Progress(limits, rows, m, s0, s1, b0, b1) && Progress(limits, rows, n, s1, s2, b1, b2)
    ensures Effect(limits, rows, s0, s2, b0, b2)
  {
    hide Progress, Effect;
    EffectOf(limits, rows, m, s0, s1, b0, b1);
    EffectOf(limits, rows, n, s1, s2, b1, b2);
    Compose(limits, rows, s0, s1, s2, b0, b1, b2);
  }

  ghost predicate IsBlacklist(limits: CapacityTable, slots: map<Lane, Bucket>, media: Media, full: set<Provider>)
    reads limits
  {
    forall p :: p in full <==> Full(limits, slots, Lane(p, media))
  }

  /** Nobody eligible is in line, or whoever is first finds no room in the lane its task resolves to. */
  ghost predicate HeadBlocked(limits: CapacityTable, rows: map<TaskId, Row>, status: map<TaskId, Status>,
                              slots: map<Lane, Bucket>, media: Media, full: set<Provider>)
    reads limits
  {
    || (forall id :: !Eligible(rows, status, id, media, full))
    || (exists id :: FirstInLine(rows, status, id, media, full) && Full(limits, slots, LaneOf(rows[id])))
  }

  ghost predicate Stuck(limits: CapacityTable, rows: map<TaskId, Row>, status: map<TaskId, Status>,
                        slots: map<Lane, Bucket>, media: Media)
    reads limits
  {
    forall full :: IsBlacklist(limits, slots, media, full) ==> HeadBlocked(limits, rows, status, slots, media, full)
  }

  /** The lane's limit on record is reached: of a known provider the listed one, of an unknown one the default. */
  ghost predicate AtLimit(limits: CapacityTable, slots: map<Lane, Bucket>, provider: Provider, media: Media)
    reads limits
  {
    var n := |BucketOf(slots, Lane(provider, media))|;
    if provider in limits.limits then media in limits.limits[provider] && 0 < limits.limits[provider][media] <= n
    else media in limits.defaults && 0 < limits.defaults[media] <= n
  }

  /** Why a task that is free to run is still in line after a cycle: the provider on its record is at its limit, or
      somebody no later in line has a record that does not name its provider, and that one is at its limit. */
  lemma LeftInLine(limits: CapacityTable, rows: map<TaskId, Row>, status: map<TaskId, Status>, slots: map<Lane, Bucket>,
                   media: Media, id: TaskId)
    requires Stuck(limits, rows, status, slots, media) && status.Keys == rows.Keys
    requires id in rows && rows[id].media == media && rows[id].ready && status[id].Queued?
    ensures || (rows[id].stored.Some? && AtLimit(limits, slots, rows[id].stored.value, media))
            || exists h :: h in rows && rows[h].media == media && rows[h].ready && status[h].Queued?
                           && rows[h].queuedAt <= rows[id].queuedAt && rows[h].stored != Some(rows[h].derived)
                           && AtLimit(limits, slots, rows[h].derived, media)
  {
    var lanes := set l | l in slots && l.media == media && Full(limits, slots, l);
    var full := set l | l in lanes :: l.provider;
    forall p ensures p in full <==> Full(limits, slots, Lane(p, media)) {
      if Full(limits, slots, Lane(p, media)) {
        assert Lane(p, media) in lanes;
      }
    }
    assert HeadBlocked(limits, rows, status, slots, media, full);
    if Eligible(rows, status, id, media, full) {
      var h :| FirstInLine(rows, status, h, media, full) && Full(limits, slots, LaneOf(rows[h]));
      assert LaneOf(rows[h]) == Lane(rows[h].derived, media);
      assert AtLimit(limits, slots, rows[h].derived, media);
    }
  }

  lemma StuckWith(limits: CapacityTable, rows: map<TaskId, Row>, status: map<TaskId, Status>, slots: map<Lane, Bucket>,
                  media: Media, full: set<Provider>)
    requires IsBlacklist(limits, slots, media, full) && HeadBlocked(limits, rows, status, slots, media, full)
    ensures Stuck(limits, rows, status, slots, media)
  {
    forall blacklist | IsBlacklist(limits, slots, media, blacklist)
      ensures HeadBlocked(limits, rows, status, slots, media, blacklist)
    {
      assert blacklist == full;
    }
  }

  /** Work on another media type changes nothing about who is stuck. */
  lemma StuckStays(limits: CapacityTable, rows: map<TaskId, Row>, other: Media, was: map<TaskId, Status>,
                   now: map<TaskId, Status>, before: map<Lane, Bucket>, after: map<Lane, Bucket>, media: Media)
    requires was.Keys == now.Keys == rows.Keys && media != other
    requires Progress(limits, rows, other, was, now, before, after) && Stuck(limits, rows, was, before, media)
    ensures Stuck(limits, rows, now, after, media)
  {
    hide Slots.CapacityTable.Cap;
    forall full | IsBlacklist(limits, after, media, full) ensures HeadBlocked(limits, rows, now, after, media, full) {
      forall p ensures Full(limits, before, Lane(p, media)) <==> Full(limits, after, Lane(p, media)) {
        assert BucketOf(after, Lane(p, media)) == BucketOf(before, Lane(p, media));
      }
      assert HeadBlocked(limits, rows, was, before, media, full);
      assert forall k :: Eligible(rows, was, k, media, full) <==> Eligible(rows, now, k, media, full);
      if id :| FirstInLine(rows, was, id, media, full) && Full(limits, before, LaneOf(rows[id])) {
        assert FirstInLine(rows, now, id, media, full);
        assert LaneOf(rows[id]).media == media;
      }
    }
  }

  lemma NoProgress(limits: CapacityTable, rows: map<TaskId, Row>, media: Media, status: map<TaskId, Status>,
                   slots: map<Lane, Bucket>)
    requires status.Keys == rows.Keys
    ensures Progress(limits, rows, media, status, status, slots, slots)
  {
  }

  lemma InLineShrinks(rows: map<TaskId, Row>, status: map<TaskId, Status>, id: TaskId, s: Status)
    requires status.Keys == rows.Keys && id in rows && status[id].Queued? && !s.Queued?
    ensures InLine(rows, status[id := s]) < InLine(rows, status)
  {
    assert id in InLine(rows, status) && id !in InLine(rows, status[id := s]);
  }

  ghost function InLine(rows: map<TaskId, Row>, status: map<TaskId, Status>): set<TaskId>
    requires status.Keys == rows.Keys
  {
    set id | id in rows && status[id].Queued?
  }
}
