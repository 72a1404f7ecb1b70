/** Which final status an execution leaves, read off the events that reached it (lib/generation_worker.py,
    `_process_task`, `_process_resume_task`). */
module TaskOutcome {
  import opened TaskProtocol

  /** How far the work itself has come: `Over` is work that was cancelled, or stopped by a shutdown, before it was
      done. */
  datatype Course = Ahead | InLine | Resolving | Busy | Done | Broken | Over

  /** What one event does to the work. Writes to the task table, and cancellations while one is under way, change
      nothing about it. */
  function Follow(kind: Kind, c: Course, v: Event): Course {
    match c
    case Ahead => if v.Start? then (if kind.Resume? then InLine else Resolving) else if v.Cancel? then Over else c
    case InLine =>
      if v == Acquire(false) then Resolving else if v == Acquire(true) || v.Cancel? then Over else c
    case Resolving => if v.Extracted? then Busy else if v.Cancel? then Over else c
    case Busy => if v.Returns? then Done else if v.Raises? then Broken else if v.Cancel? then Over else c
    case _ => c
  }

  function CourseOf(kind: Kind, events: seq<Event>): Course {
    if |events| == 0 then Ahead
    else Follow(kind, CourseOf(kind, events[..|events| - 1]), events[|events| - 1])
  }

  /** The work is done exactly if a `Returns` has met it under way, and broken exactly if a `Raises` has. */
  lemma {:induction false} EndedBy(kind: Kind, events: seq<Event>)
    ensures CourseOf(kind, events).Done? <==> exists i :: EndsWork(kind, events, i, Returns)
    ensures CourseOf(kind, events).Broken? <==> exists i :: EndsWork(kind, events, i, Raises)
  {
    hide EndsWork;
    WorkEnded(kind, events);
    forall i | EndsWork(kind, events, i, Returns) ensures CourseOf(kind, events).Done? {
      WorkStaysEnded(kind, events, i, Returns);
    }
    forall i | EndsWork(kind, events, i, Raises) ensures CourseOf(kind, events).Broken? {
      WorkStaysEnded(kind, events, i, Raises);
    }
  }

  lemma {:induction false} WorkStaysEnded(kind: Kind, events: seq<Event>, i: int, v: Event)
    requires EndsWork(kind, events, i, v) && (v.Returns? || v.Raises?)
    ensures CourseOf(kind, events) == if v.Returns? then Done else Broken
  {
    var front := events[..|events| - 1];
    if i < |front| {
      assert front[..i] == events[..i];
      WorkStaysEnded(kind, front, i, v);
    }
  }

  lemma {:induction false} WorkEnded(kind: Kind, events: seq<Event>)
    ensures CourseOf(kind, events).Done? ==> exists i :: EndsWork(kind, events, i, Returns)
    ensures CourseOf(kind, events).Broken? ==> exists i :: EndsWork(kind, events, i, Raises)
  {
    if |events| > 0 {
      var front, last := events[..|events| - 1], events[|events| - 1];
      WorkEnded(kind, front);
      var c := CourseOf(kind, front);
      if c.Busy? {
        assert EndsWork(kind, events, |events| - 1, last);
      } else if c.Done? {
        var i :| EndsWork(kind, front, i, Returns);
        LaterEvents(kind, events, i, Returns);
      } else if c.Broken? {
        var i :| EndsWork(kind, front, i, Raises);
        LaterEvents(kind, events, i, Raises);
      }
    }
  }

  /** Event `i` is `v` and meets the work while it is under way. */
  ghost predicate EndsWork(kind: Kind, events: seq<Event>, i: int, v: Event) {
    0 <= i < |events| && events[i] == v && CourseOf(kind, events[..i]).Busy?
  }

  lemma LaterEvents(kind: Kind, events: seq<Event>, i: int, v: Event)
    requires |events| > 0 && EndsWork(kind, events[..|events| - 1], i, v)
    ensures EndsWork(kind, events, i, v)
  {
    assert events[..|events| - 1][..i] == events[..i];
  }

  // ---------- a success needs a result, a failure an error ----------

  /** What the place, the writes on their way and the status owe to the course of the work. */
  ghost predicate Owes(e: Exec, c: Course) {
    && (e.place.NotStarted? <==> c.Ahead?) && (e.place.Waiting? <==> c.InLine?)
    && (e.place.Extracting? <==> c.Resolving?) && (e.place.Executing? <==> c.Busy?)
    && (e.place.Saving? && e.place.write.MarkSucceeded? ==> c.Done?)
    && (e.place.Saving? && e.place.write.MarkFailed? ==> c.Broken?)
    && (MarkSucceeded in e.loose || e.status.Succeeded? ==> c.Done?)
    && (MarkFailed in e.loose || e.status.Failed? ==> c.Broken?)
  }

  lemma OwesDeliver(e: Exec, c: Course)
    requires Owes(e, c) && (c.InLine? ==> e.kind.Resume?)
    ensures Owes(Deliver(e), Follow(e.kind, c, Cancel))
  {
  }

  lemma OwesLanded(e: Exec, c: Course)
    requires Owes(e, c)
    ensures Owes(Landed(e), Follow(e.kind, c, WriteLands))
  {
  }

  lemma OwesLoose(e: Exec, c: Course, w: Write)
    requires Owes(e, c) && w in e.loose
    ensures Owes(e.(status := Land(e.status, w), loose := e.loose - multiset{w}), c)
  {
  }

  lemma OwesWork(e: Exec, c: Course, v: Event)
    requires Owes(e, c) && (c.InLine? ==> e.kind.Resume?)
    requires v.Start? || v.Acquire? || v.Extracted? || v.Returns? || v.Raises?
    ensures Owes(Step(e, v), Follow(e.kind, c, v))
  {
    hide Deliver, Landed, Rows, Land, ApiCancel;
  }

  lemma OwesLost(e: Exec, c: Course, v: Event)
    requires Owes(e, c) && (v.WriteFails? || v.LooseFails?)
    ensures Owes(Step(e, v), Follow(e.kind, c, v))
  {
    hide Deliver, Landed, Rows, Land, ApiCancel;
  }

  lemma OwesStatus(e: Exec, c: Course, v: Event)
    requires Owes(e, c) && (v.CancelCall? || v.Drain?)
    ensures Owes(Step(e, v), Follow(e.kind, c, v))
  {
    hide Deliver, Landed, Rows;
    var s := Step(e, v).status;
    assert s.Succeeded? || s.Failed? ==> s == e.status;
  }

  lemma OwesStep(e: Exec, c: Course, v: Event)
    requires Owes(e, c) && (c.InLine? ==> e.kind.Resume?)
    ensures Owes(Step(e, v), Follow(e.kind, c, v))
  {
    hide Owes, Deliver, Landed, Rows, Land, ApiCancel;
    match v
    case Cancel => OwesDeliver(e, c);
    case WriteLands => OwesLanded(e, c);
    case LooseLands(w) => if w in e.loose { OwesLoose(e, c, w); }
    case WriteFails => OwesLost(e, c, v);
    case LooseFails(_) => OwesLost(e, c, v);
    case CancelCall => OwesStatus(e, c, v);
    case Drain(_) => OwesStatus(e, c, v);
    case _ => OwesWork(e, c, v);
  }

  lemma {:induction false} OnlyResumptionsWait(kind: Kind, events: seq<Event>)
    ensures CourseOf(kind, events).InLine? ==> kind.Resume?
  {
    if |events| > 0 {
      OnlyResumptionsWait(kind, events[..|events| - 1]);
    }
  }

  lemma {:induction false} RunOwes(kind: Kind, status: Status, events: seq<Event>)
    requires !status.Succeeded? && !status.Failed?
    ensures Owes(Run(Begin(kind, status), events), CourseOf(kind, events))
  {
    hide Step, Owes, Follow;
    if |events| == 0 {
      OwesNothing(kind, status);
    } else {
      var front := events[..|events| - 1];
      RunOwes(kind, status, front);
      RunKeepsInv(kind, status, front);
      OnlyResumptionsWait(kind, front);
      OwesStep(Run(Begin(kind, status), front), CourseOf(kind, front), events[|events| - 1]);
    }
  }

  lemma OwesNothing(kind: Kind, status: Status)
    requires !status.Succeeded? && !status.Failed?
    ensures Owes(Begin(kind, status), Ahead)
  {
  }

  /** At every point of every execution, whatever is cancelled, lost or late: a task that had no result before is
      succeeded only if its work has returned one, and failed only if its work has raised an error. */
  lemma OutcomeIsEarned(kind: Kind, status: Status, events: seq<Event>)
    requires !status.Succeeded? && !status.Failed?
    ensures var e := Run(Begin(kind, status), events);
            && (e.status.Succeeded? ==> exists i :: EndsWork(kind, events, i, Returns))
            && (e.status.Failed? ==> exists i :: EndsWork(kind, events, i, Raises))
  {
    hide Run, CourseOf, EndsWork;
    RunOwes(kind, status, events);
    EndedBy(kind, events);
  }

  // ---------- without a cancellation ----------

  ghost predicate Undisturbed(events: seq<Event>) {
    forall i :: 0 <= i < |events| ==> !events[i].Cancel? && !events[i].CancelCall?
  }

  /** What holds of an execution of a running task that nobody cancels. */
  ghost predicate Calm(e: Exec, c: Course) {
    && e.loose == multiset{}
    && (e.place.Saving? ==> e.status.Running? && !e.place.reraise && !e.place.write.MarkCancelled?)
    && !e.place.Leaving? && e.place != Finished(Unwound) && e.place != Finished(Unstarted)
    && (e.place == Finished(Stopped) ==> e.kind.Resume? && c.Over? && e.status.Running?)
    && (!e.place.Finished? ==> e.status.Running?)
    && (e.status.Running? || e.status.Succeeded? || e.status.Failed?)
    && (e.place == Finished(Returned) ==> c.Done? || c.Broken?)
    && (e.place == Finished(Returned) && !e.dbFailed ==> e.status == if c.Done? then Succeeded else Failed)
  }

  lemma CalmStep(e: Exec, c: Course, v: Event)
    requires Calm(e, c) && Owes(e, c) && !v.Cancel? && !v.CancelCall? && (e.place.Waiting? ==> e.kind.Resume?)
    ensures Calm(Step(e, v), Follow(e.kind, c, v))
  {
  }

  lemma {:induction false} CalmRun(kind: Kind, events: seq<Event>)
    requires Undisturbed(events)
    ensures Calm(Run(Begin(kind, Running), events), CourseOf(kind, events))
  {
    hide Step, Calm, Follow;
    if |events| == 0 {
      CalmAtFirst(kind);
    } else {
      var front := events[..|events| - 1];
      CalmRun(kind, front);
      RunOwes(kind, Running, front);
      RunKeepsInv(kind, Running, front);
      WaitingIsResumed(Run(Begin(kind, Running), front), CourseOf(kind, front), kind, front);
      CalmStep(Run(Begin(kind, Running), front), CourseOf(kind, front), events[|events| - 1]);
    }
  }

  lemma CalmAtFirst(kind: Kind)
    ensures Calm(Begin(kind, Running), Ahead)
  {
  }

  lemma WaitingIsResumed(e: Exec, c: Course, kind: Kind, events: seq<Event>)
    requires Owes(e, c) && c == CourseOf(kind, events) && e.kind == kind
    ensures e.place.Waiting? ==> e.kind.Resume?
  {
    hide CourseOf;
    OnlyResumptionsWait(kind, events);
  }

  lemma CalmMeans(e: Exec, c: Course)
    requires Calm(e, c) && e.place.Finished? && !e.dbFailed
    ensures (e.status.Succeeded? <==> c.Done?) && (e.status.Failed? <==> c.Broken?)
    ensures e.status.Running? <==> e.place.exit.Stopped?
    ensures e.status.Running? || e.status.Succeeded? || e.status.Failed?
  {
    assert e.place == Finished(e.place.exit);
    match e.place.exit
    case Returned =>
    case Stopped =>
    case Unwound =>
    case Unstarted =>
  }

  /** Nobody cancels a running task. Once its execution has finished, and no write has failed, the task is succeeded
      exactly if the work has returned a result, failed exactly if it has raised an error, and one of the two, unless a
      resumption gave way to a shutdown; then it is running still. */
  lemma CalmOutcome(kind: Kind, events: seq<Event>)
    requires Undisturbed(events)
    ensures var e := Run(Begin(kind, Running), events);
            e.place.Finished? && !e.dbFailed ==>
              && (e.status.Succeeded? <==> exists i :: EndsWork(kind, events, i, Returns))
              && (e.status.Failed? <==> exists i :: EndsWork(kind, events, i, Raises))
              && (e.status.Running? <==> e.place.exit.Stopped?)
              && (e.status.Running? || e.status.Succeeded? || e.status.Failed?)
  {
    hide Run, CourseOf, Calm, EndsWork;
    CalmRun(kind, events);
    EndedBy(kind, events);
    var e := Run(Begin(kind, Running), events);
    if e.place.Finished? && !e.dbFailed {
      CalmMeans(e, CourseOf(kind, events));
    }
  }

  /** So a running task is only ever cancelled after somebody has asked for it, or has stopped its execution. */
  lemma CancelledOnlyIfAsked(kind: Kind, events: seq<Event>)
    requires Run(Begin(kind, Running), events).status.Cancelled?
    ensures exists i :: 0 <= i < |events| && (events[i].Cancel? || events[i].CancelCall?)
  {
    hide Run;
    if Undisturbed(events) {
      CalmRun(kind, events);
    }
  }
}
