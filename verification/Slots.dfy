/** Who occupies which lane (lib/generation_worker.py, `SlotTable`), and how many may (`CapacityTable`). */
module Slots {
  import opened Options

  datatype Provider = Provider(id: string)
  datatype Media = Image | Video | Audio
  datatype Lane = Lane(provider: Provider, media: Media)

  datatype TaskId = TaskId(id: string)

  /** A running coroutine. */
  datatype Execution = Execution(id: nat)

  /** An execution and whether it still waits for its turn. */
  datatype Occupant = Occupant(task: Execution, pending: bool)

  type Bucket = map<TaskId, Occupant>

  /** A lane's occupants; lanes without any have no bucket. */
  function BucketOf(slots: map<Lane, Bucket>, lane: Lane): Bucket {
    if lane in slots then slots[lane] else map[]
  }

  function With(slots: map<Lane, Bucket>, lane: Lane, b: Bucket): (r: map<Lane, Bucket>)
    ensures forall l :: BucketOf(r, l) == if l == lane then b else BucketOf(slots, l)
    ensures NoEmptyBucket(slots) ==> NoEmptyBucket(r)
  {
    if b == map[] then slots - {lane} else slots[lane := b]
  }

  predicate NoEmptyBucket(slots: map<Lane, Bucket>) {
    forall l :: l in slots ==> slots[l] != map[]
  }

  /** Occupants that stay when the finished ones are drained: waiting or not yet done. */
  function Undone(b: Bucket, done: set<Execution>): Bucket {
    map id | id in b && (b[id].pending || b[id].task !in done) :: b[id]
  }

  class SlotTable {
    var slots: map<Lane, Bucket>

    ghost predicate Valid()
      reads this
    {
      NoEmptyBucket(slots)
    }

    /** The occupants of a lane. */
    function Of(lane: Lane): Bucket
      reads this
    {
      BucketOf(slots, lane)
    }

    constructor ()
      ensures Valid() && slots == map[]
    {
      slots := map[];
    }

    method Register(lane: Lane, id: TaskId, task: Execution, pending: bool)
      requires Valid()
      modifies this
      ensures Valid() && slots == With(old(slots), lane, BucketOf(old(slots), lane)[id := Occupant(task, pending)])
    {
      if lane !in slots {
        slots := slots[lane := map[]];
      }
      slots := slots[lane := slots[lane][id := Occupant(task, pending)]];
      assert id in slots[lane];
    }

    /** Ends the wait; unknown lanes and tasks are ignored. */
    method Promote(lane: Lane, id: TaskId)
      requires Valid()
      modifies this
      ensures Valid()
      ensures var b := BucketOf(old(slots), lane);
              slots == if id in b then With(old(slots), lane, b[id := b[id].(pending := false)]) else old(slots)
    {
      if lane in slots && id in slots[lane] {
        var occ := slots[lane][id];
        slots := slots[lane := slots[lane][id := occ.(pending := false)]];
        assert id in slots[lane];
      }
    }

    /** Gives the slot up, waiting or not; unknown lanes and tasks are ignored. */
    method Release(lane: Lane, id: TaskId)
      requires Valid()
      modifies this
      ensures Valid() && slots == With(old(slots), lane, BucketOf(old(slots), lane) - {id})
    {
      if lane !in slots {
        assert slots - {lane} == slots;
        return;
      }
      var bucket := slots[lane] - {id};
      if bucket == map[] {
        slots := slots - {lane};
      } else {
        slots := slots[lane := bucket];
      }
    }

    method HasRoom(lane: Lane, capacity: int) returns (room: bool)
      ensures room <==> capacity > 0 && |Of(lane)| < capacity
    {
      if capacity <= 0 {
        return false;
      }
      return (if lane in slots then |slots[lane]| else 0) < capacity;
    }

    method OccupiedProviders(media: Media) returns (r: set<Provider>)
      requires Valid()
      ensures forall p :: p in r <==> Of(Lane(p, media)) != map[]
    {
      r := set l | l in slots && l.media == media && slots[l] != map[] :: l.provider;
      forall p ensures p in r <==> Of(Lane(p, media)) != map[] {
        if Of(Lane(p, media)) != map[] {
          assert Lane(p, media) in slots;
        }
      }
    }

    /** Looks a task up in every lane. */
    method FindByTask(id: TaskId) returns (task: Option<Execution>)
      ensures task.Some? ==> exists l :: id in Of(l) && Of(l)[id].task == task.value
      ensures task.None? ==> forall l :: id !in Of(l)
    {
      var lanes := slots.Keys;
      while lanes != {}
        invariant lanes <= slots.Keys
        invariant forall l :: l in slots && l !in lanes ==> id !in slots[l]
        decreases lanes
      {
        var l :| l in lanes;
        if id in slots[l] {
          assert id in Of(l);
          return Some(slots[l][id].task);
        }
        lanes := lanes - {l};
      }
      return None;
    }

    /** Removes and returns the finished occupants that had had their turn. `done` names the finished executions. */
    method DrainFinished(done: set<Execution>) returns (finished: set<(TaskId, Execution)>)
      requires Valid()
      modifies this
      ensures Valid()
      ensures forall l :: Of(l) == Undone(BucketOf(old(slots), l), done)
      ensures Drained(old(slots), old(slots).Keys, done, finished)
    {
      hide Undone, Drained, DoneIn;
      finished := {};
      NothingDrained(slots, done);
      var lanes := slots.Keys;
      ghost var all := slots;
      while lanes != {}
        invariant lanes <= all.Keys && Valid()
        invariant forall l ::
          BucketOf(slots, l) == if l in lanes then BucketOf(all, l) else Undone(BucketOf(all, l), done)
        invariant Drained(all, all.Keys - lanes, done, finished)
        decreases lanes
      {
        var l :| l in lanes;
        assert BucketOf(slots, l) == all[l];
        var bucket := slots[l];
        DrainedNext(all, all.Keys - lanes, done, finished, l);
        finished := finished + DoneIn(bucket, done);
        bucket := Undone(bucket, done);
        if bucket == map[] {
          slots := slots - {l};
        } else {
          slots := slots[l := bucket];
        }
        assert (all.Keys - lanes) + {l} == all.Keys - (lanes - {l});
        lanes := lanes - {l};
      }
      assert all.Keys - lanes == all.Keys;
    }
  }

  /** The finished occupants of one lane that had had their turn. */
  function DoneIn(b: Bucket, done: set<Execution>): set<(TaskId, Execution)> {
    set id | id in b && !b[id].pending && b[id].task in done :: (id, b[id].task)
  }

  /** `finished` lists what the lanes visited so far had to give up. */
  ghost predicate Drained(all: map<Lane, Bucket>, visited: set<Lane>, done: set<Execution>,
                          finished: set<(TaskId, Execution)>) {
    forall id, t :: (id, t) in finished <==>
      exists l :: l in visited && l in all && (id, t) in DoneIn(all[l], done)
  }

  lemma NothingDrained(all: map<Lane, Bucket>, done: set<Execution>)
    ensures Drained(all, all.Keys - all.Keys, done, {}) && Undone(map[], done) == map[]
  {
  }

  lemma DrainedNext(all: map<Lane, Bucket>, visited: set<Lane>, done: set<Execution>,
                    finished: set<(TaskId, Execution)>, l: Lane)
    requires Drained(all, visited, done, finished) && l in all
    ensures Drained(all, visited + {l}, done, finished + DoneIn(all[l], done))
  {
    hide DoneIn;
    forall id, t
      ensures (id, t) in finished + DoneIn(all[l], done) <==>
                exists k :: k in visited + {l} && k in all && (id, t) in DoneIn(all[k], done)
    {
      if (id, t) in finished {
        var k :| k in visited && k in all && (id, t) in DoneIn(all[k], done);
        assert k in visited + {l};
      }
      if (id, t) in DoneIn(all[l], done) {
        assert l in visited + {l};
      }
    }
  }

  /** Per-provider limits and the defaults for providers the table does not know. */
  class CapacityTable {
    var limits: map<Provider, map<Media, int>>
    const defaults: map<Media, int>

    constructor (limits: map<Provider, map<Media, int>>, defaults: map<Media, int>)
      ensures this.limits == limits && this.defaults == defaults
    {
      this.limits, this.defaults := limits, defaults;
    }

    /** A known provider has the limit on record, 0 when the lane is not listed; an unknown one has the default. */
    function Cap(lane: Lane): int
      reads this
    {
      if lane.provider !in limits then (if lane.media in defaults then defaults[lane.media] else 0)
      else if lane.media in limits[lane.provider] then limits[lane.provider][lane.media] else 0
    }

    method Replace(newLimits: map<Provider, map<Media, int>>)
      modifies this
      ensures limits == newLimits
    {
      limits := newLimits;
    }
  }
}
