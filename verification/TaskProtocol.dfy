/** How one generation task finishes (lib/generation_worker.py, `_process_task`, `_process_resume_task`, `_run_one`,
    `_drain_finished_tasks`) against the status guards of the task table (lib/db/repositories/task_repo.py).
    A cancellation may arrive at every await. Writes are shielded: a write whose awaiter is cancelled goes on alone
    and lands at some later time. */
module TaskProtocol {

  datatype Status = Queued | Running | Cancelling | Succeeded | Failed | Cancelled {
    predicate Terminal() {
      Succeeded? || Failed? || Cancelled?
    }
  }

  datatype Write = MarkSucceeded | MarkFailed | MarkCancelled

  /** The guarded updates: success and failure only land on a running task, cancellation on any that is not final. */
  function Land(s: Status, w: Write): Status {
    match w
    case MarkSucceeded => if s.Running? then Succeeded else s
    case MarkFailed => if s.Running? then Failed else s
    case MarkCancelled => if s.Terminal() then s else Cancelled
  }

  /** Rows the update affects. */
  function Rows(s: Status, w: Write): nat {
    match w
    case MarkSucceeded => if s.Running? then 1 else 0
    case MarkFailed => if s.Running? then 1 else 0
    case MarkCancelled => if s.Terminal() then 0 else 1
  }

  /** The cancel call of the API: a queued task is cancelled at once, a running one is only asked to stop. */
  function ApiCancel(s: Status): Status {
    if s.Queued? then Cancelled else if s.Running? then Cancelling else s
  }

  /** A fresh execution, or the resumption of an orphan found after a restart. */
  datatype Kind = Normal | Resume

  /** How an execution was left. `Unstarted` was cancelled before its first step, `Stopped` saw the worker shut down
      once it had its turn, `Unwound` ended in a cancellation, `Returned` did not. */
  datatype Exit = Unstarted | Stopped | Unwound | Returned

  /** Where an execution stands. `Saving` awaits a shielded write; `reraise` says whether the cancellation that led
      there goes on afterwards. `Leaving` is the outer handler of a resumption, which marks the task once more. */
  datatype Place =
    | NotStarted
    | Waiting
    | Extracting
    | Executing
    | Saving(write: Write, reraise: bool)
    | Leaving
    | Finished(exit: Exit)

  /** One execution, its task's status, the writes that have lost their awaiter, whether the main loop has drained it,
      and whether some write has failed. */
  datatype Exec = Exec(kind: Kind, place: Place, status: Status, loose: multiset<Write>, drained: bool, dbFailed: bool)

  datatype Event =
    | Start
    | Acquire(stopping: bool)
    | Extracted
    | Returns
    | Raises
    | Cancel
    | WriteLands
    | WriteFails
    | LooseLands(late: Write)
    | LooseFails(lost: Write)
    | CancelCall
    | Drain(fails: bool)

  function Begin(kind: Kind, status: Status): Exec {
    Exec(kind, NotStarted, status, multiset{}, false, false)
  }

  /** A cancellation that no inner handler stops any more. */
  function Unwind(e: Exec): Place {
    if e.kind.Resume? then Leaving else Finished(Unwound)
  }

  /** A cancellation delivered at the await the execution stands at. */
  function Deliver(e: Exec): Exec {
    match e.place
    case NotStarted => e.(place := Finished(Unstarted))
    case Waiting => e.(place := Leaving)
    case Extracting => e.(place := Unwind(e))
    case Executing => e.(place := Saving(MarkCancelled, true))
    case Saving(w, _) =>
      e.(loose := e.loose + multiset{w}, place := if w.MarkSucceeded? then Saving(MarkCancelled, true) else Unwind(e))
    case Leaving => e.(loose := e.loose + multiset{MarkCancelled}, place := Finished(Unwound))
    case Finished(_) => e
  }

  /** The awaited write has landed: no rows means that the task was cancelled meanwhile. */
  function Landed(e: Exec): Exec {
    match e.place
    case Saving(w, reraise) =>
      var place :=
        if !w.MarkCancelled? && Rows(e.status, w) == 0 then Saving(MarkCancelled, false)
        else if reraise then Unwind(e)
        else Finished(Returned);
      e.(status := Land(e.status, w), place := place)
    case Leaving => e.(status := Land(e.status, MarkCancelled), place := Finished(Unwound))
    case _ => e
  }

  function Step(e: Exec, v: Event): Exec {
    match v
    case Start => if e.place.NotStarted? then e.(place := if e.kind.Resume? then Waiting else Extracting) else e
    case Acquire(stopping) =>
      if e.place.Waiting? then e.(place := if stopping then Finished(Stopped) else Extracting) else e
    case Extracted => if e.place.Extracting? then e.(place := Executing) else e
    case Returns => if e.place.Executing? then e.(place := Saving(MarkSucceeded, false)) else e
    case Raises => if e.place.Executing? then e.(place := Saving(MarkFailed, false)) else e
    case Cancel => Deliver(e)
    case WriteLands => Landed(e)
    case WriteFails =>
      if e.place.Saving? then e.(place := Finished(Returned), dbFailed := true)
      else if e.place.Leaving? then e.(place := Finished(Unwound), dbFailed := true)
      else e
    case LooseLands(w) => if w in e.loose then e.(status := Land(e.status, w), loose := e.loose - multiset{w}) else e
    case LooseFails(w) => if w in e.loose then e.(loose := e.loose - multiset{w}, dbFailed := true) else e
    case CancelCall => e.(status := ApiCancel(e.status))
    case Drain(fails) =>
      // A resumption gives up its slot itself and is never drained.
      if e.kind.Resume? || !e.place.Finished? || e.drained then e
      else if e.place.exit.Returned? then e.(drained := true)
      else if fails then e.(drained := true, dbFailed := true)
      else e.(drained := true, status := Land(e.status, MarkCancelled))
  }

  function Run(e: Exec, events: seq<Event>): Exec {
    if |events| == 0 then e else Step(Run(e, events[..|events| - 1]), events[|events| - 1])
  }

  // ---------- statuses ----------

  /** Statuses only move on: final ones stay, and a task asked to stop can only end as cancelled. */
  ghost predicate MovesOn(s: Status, s': Status) {
    (s.Terminal() ==> s' == s) && (s.Cancelling? ==> s'.Cancelling? || s'.Cancelled?)
  }

  /** Everything that updates the status of a row: the writes of an execution, a cancel call (for the task itself or
      for one it depends on), the bulk cancellation of queued tasks, a worker's claim, the failure of a dependency,
      and the rescue that puts running tasks back into the queue. */
  datatype Update = Written(write: Write) | AskedToCancel | QueueCleared | ClaimedByWorker | DependencyFailed | Requeued

  function Apply(s: Status, u: Update): Status {
    match u
    case Written(w) => Land(s, w)
    case AskedToCancel => ApiCancel(s)
    case QueueCleared => if s.Queued? then Cancelled else s
    case ClaimedByWorker => if s.Queued? then Running else s
    case DependencyFailed => if s.Queued? then Failed else s
    case Requeued => if s.Running? then Queued else s
  }

  function History(s: Status, updates: seq<Update>): Status {
    if |updates| == 0 then s
    else Apply(History(s, updates[..|updates| - 1]), updates[|updates| - 1])
  }

  /** Every update only takes a row from the statuses it is meant for. */
  lemma UpdatesAreGuarded(s: Status, u: Update)
    requires Apply(s, u) != s
    ensures Apply(s, u).Succeeded? <==> s.Running? && u == Written(MarkSucceeded)
    ensures Apply(s, u).Failed? <==> (s.Running? && u == Written(MarkFailed)) || (s.Queued? && u.DependencyFailed?)
    ensures Apply(s, u).Running? <==> s.Queued? && u.ClaimedByWorker?
    ensures Apply(s, u).Queued? <==> s.Running? && u.Requeued?
    ensures Apply(s, u).Cancelling? <==> s.Running? && u.AskedToCancel?
    ensures Apply(s, u).Cancelled? <==>
              (!s.Terminal() && u == Written(MarkCancelled)) || (s.Queued? && (u.AskedToCancel? || u.QueueCleared?))
  {
  }

  lemma UpdateMovesOn(s: Status, u: Update)
    ensures MovesOn(s, Apply(s, u))
  {
  }

  /** Over every history of a row, whatever workers, users and operators do to it: of all final statuses it reaches at
      most one, and after a request to cancel a running task neither success nor failure lands any more, nor does the
      task go back into the queue. */
  lemma {:induction false} FinalStatusIsFinal(s: Status, before: seq<Update>, after: seq<Update>)
    ensures MovesOn(History(s, before), History(s, before + after))
  {
    hide Apply;
    if |after| == 0 {
      assert before + after == before;
    } else {
      var front, last := after[..|after| - 1], after[|after| - 1];
      FinalStatusIsFinal(s, before, front);
      assert (before + after)[..|before + after| - 1] == before + front;
      UpdateMovesOn(History(s, before + front), last);
    }
  }

  lemma LandMovesOn(s: Status, w: Write)
    ensures MovesOn(s, Land(s, w)) && Land(s, MarkCancelled).Terminal()
    ensures Rows(s, w) > 0 || w.MarkCancelled? ==> Land(s, w).Terminal()
  {
  }

  /** What a step of an execution does to the status: at most one update. */
  lemma StepStatus(e: Exec, v: Event) returns (u: Update)
    ensures Step(e, v).status == e.status || Step(e, v).status == Apply(e.status, u)
  {
    hide Land, ApiCancel, Rows, Deliver;
    u := match v
      case WriteLands => Written(if e.place.Saving? then e.place.write else MarkCancelled)
      case LooseLands(w) => Written(w)
      case CancelCall => AskedToCancel
      case _ => Written(MarkCancelled);
    if v.Cancel? {
      DeliverKeepsStatus(e);
    }
  }

  lemma DeliverKeepsStatus(e: Exec)
    ensures Deliver(e).status == e.status
  {
  }

  lemma StatusOnlyMovesOn(e: Exec, v: Event)
    ensures MovesOn(e.status, Step(e, v).status)
  {
    hide Step, Apply;
    var u := StepStatus(e, v);
    UpdateMovesOn(e.status, u);
  }

  /** The same over the runs of one execution. */
  lemma {:induction false} RunMovesOn(e: Exec, before: seq<Event>, after: seq<Event>)
    ensures MovesOn(Run(e, before).status, Run(e, before + after).status)
  {
    hide Step;
    if |after| == 0 {
      assert before + after == before;
    } else {
      var front, last := after[..|after| - 1], after[|after| - 1];
      RunMovesOn(e, before, front);
      assert (before + after)[..|before + after| - 1] == before + front;
      StatusOnlyMovesOn(Run(e, before + front), last);
    }
  }

  // ---------- every execution ends in a final status ----------

  /** What holds of an execution of a task that was not final when it began, as long as no write has failed. */
  ghost predicate Inv(e: Exec) {
    e.dbFailed || (PlaceInv(e) && (e.drained ==> e.kind.Normal? && e.place.Finished? && e.status.Terminal()))
  }

  ghost predicate PlaceInv(e: Exec) {
    match e.place
    case NotStarted => e.loose == multiset{}
    case Waiting => e.kind.Resume? && e.loose == multiset{}
    case Leaving => e.kind.Resume?
    // Left after a write that landed, or after one whose refusal or loss another mark makes up for.
    case Finished(Returned) => e.status.Terminal()
    case Finished(Unwound) => e.kind.Normal? || e.status.Terminal() || MarkCancelled in e.loose
    case Finished(Unstarted) => e.loose == multiset{}
    case Finished(Stopped) => e.kind.Resume? && e.loose == multiset{}
    case _ => true
  }

  lemma DeliverKeepsInv(e: Exec)
    requires Inv(e)
    ensures Inv(Deliver(e))
  {
  }

  lemma LandedKeepsInv(e: Exec)
    requires Inv(e)
    ensures Inv(Landed(e))
  {
    LandMovesOn(e.status, if e.place.Saving? then e.place.write else MarkCancelled);
  }

  /** A status that moves on, with or without a loose write less, keeps the invariant. */
  lemma MovingOnKeepsInv(e: Exec, s: Status, loose: multiset<Write>)
    requires Inv(e) && MovesOn(e.status, s) && loose <= e.loose
    requires MarkCancelled in e.loose && MarkCancelled !in loose ==> s.Terminal()
    ensures Inv(e.(status := s, loose := loose))
  {
    if e.loose == multiset{} {
      assert loose == multiset{};
    }
  }

  lemma LooseKeepsInv(e: Exec, w: Write)
    requires Inv(e) && w in e.loose
    ensures Inv(e.(status := Land(e.status, w), loose := e.loose - multiset{w}))
  {
    LandMovesOn(e.status, w);
    MovingOnKeepsInv(e, Land(e.status, w), e.loose - multiset{w});
  }

  lemma DrainKeepsInv(e: Exec, fails: bool)
    requires Inv(e)
    ensures Inv(Step(e, Drain(fails)))
  {
    LandMovesOn(e.status, MarkCancelled);
    MovingOnKeepsInv(e, Land(e.status, MarkCancelled), e.loose);
  }

  lemma StepKeepsInv(e: Exec, v: Event)
    requires Inv(e)
    ensures Inv(Step(e, v))
  {
    hide Deliver, Landed, Land;
    match v
    case Cancel => DeliverKeepsInv(e);
    case WriteLands => LandedKeepsInv(e);
    case LooseLands(w) => if w in e.loose { LooseKeepsInv(e, w); }
    case CancelCall => MovingOnKeepsInv(e, ApiCancel(e.status), e.loose);
    case Drain(fails) => DrainKeepsInv(e, fails);
    case _ =>
  }

  lemma {:induction false} RunKeepsInv(kind: Kind, status: Status, events: seq<Event>)
    ensures Inv(Run(Begin(kind, status), events))
    ensures Run(Begin(kind, status), events).kind == kind
  {
    hide Step, PlaceInv;
    if |events| == 0 {
      BeginIsGood(kind, status);
    } else {
      var front, last := events[..|events| - 1], events[|events| - 1];
      RunKeepsInv(kind, status, front);
      StepKeepsInv(Run(Begin(kind, status), front), last);
      StepKeepsKind(Run(Begin(kind, status), front), last);
    }
  }

  lemma BeginIsGood(kind: Kind, status: Status)
    ensures Inv(Begin(kind, status)) && Begin(kind, status).kind == kind
  {
  }

  lemma StepKeepsKind(e: Exec, v: Event)
    ensures Step(e, v).kind == e.kind
  {
    hide Land, Rows;
  }

  /** The finishing protocol. Whatever the task's status when its execution begins, wherever cancellations arrive, and
      in whatever order loose writes land: once the execution has finished and been drained, and no write has failed,
      the task has its one final status, even while writes are still on their way. */
  lemma {:induction false} DrainedMeansFinal(status: Status, events: seq<Event>, later: seq<Event>)
    ensures var e := Run(Begin(Normal, status), events);
            e.drained && !e.dbFailed ==>
              e.status.Terminal() && Run(Begin(Normal, status), events + later).status == e.status
  {
    RunKeepsInv(Normal, status, events);
    RunMovesOn(Begin(Normal, status), events, later);
  }

  // ---------- resumed orphans ----------

  /** A resumption that was never started, or was stopped by a shutdown, has written nothing. */
  ghost predicate Untouched(e: Exec) {
    e.place.NotStarted? || e.place.Waiting? || e.place == Finished(Unstarted) || e.place == Finished(Stopped)
  }

  ghost predicate StillOpen(e: Exec) {
    Untouched(e) ==> e.loose == multiset{} && (e.status.Running? || e.status.Cancelling?)
  }

  lemma UntouchedStep(e: Exec, v: Event)
    requires e.kind.Resume? && StillOpen(e)
    ensures StillOpen(Step(e, v))
  {
    hide Land, Rows, Deliver, Landed;
    match v
    case LooseLands(w) => UntouchedLoose(e, w);
    case LooseFails(w) => UntouchedLoose(e, w);
    case Cancel => UntouchedDeliver(e);
    case WriteLands => UntouchedLanded(e);
    case _ =>
  }

  lemma UntouchedLoose(e: Exec, w: Write)
    requires StillOpen(e)
    ensures StillOpen(Step(e, LooseLands(w))) && StillOpen(Step(e, LooseFails(w)))
  {
    hide Land;
    if Untouched(e) {
      assert w !in e.loose;
    } else {
      assert !Untouched(Step(e, LooseLands(w))) && !Untouched(Step(e, LooseFails(w)));
    }
  }

  lemma UntouchedDeliver(e: Exec)
    requires e.kind.Resume?
    ensures var d := Deliver(e); Untouched(d) ==> Untouched(e) && d.loose == e.loose && d.status == e.status
  {
  }

  lemma UntouchedLanded(e: Exec)
    requires e.kind.Resume?
    ensures var d := Landed(e); Untouched(d) ==> d == e
  {
    hide Land, Rows;
  }

  lemma {:induction false} UntouchedRun(status: Status, events: seq<Event>)
    requires status.Running? || status.Cancelling?
    ensures StillOpen(Run(Begin(Resume, status), events))
  {
    hide Step, StillOpen;
    if |events| == 0 {
      BeginIsOpen(status);
    } else {
      var front := events[..|events| - 1];
      UntouchedRun(status, front);
      RunKeepsInv(Resume, status, front);
      UntouchedStep(Run(Begin(Resume, status), front), events[|events| - 1]);
    }
  }

  lemma BeginIsOpen(status: Status)
    requires status.Running? || status.Cancelling?
    ensures StillOpen(Begin(Resume, status))
  {
  }

  lemma {:induction false} OpenExactlyWhenUntouched(status: Status, events: seq<Event>)
    requires status.Running? || status.Cancelling?
    ensures var e := Run(Begin(Resume, status), events);
            e.place.Finished? && e.loose == multiset{} && !e.dbFailed ==>
              (!e.status.Terminal() <==> e.place.exit.Unstarted? || e.place.exit.Stopped?)
  {
    RunKeepsInv(Resume, status, events);
    UntouchedRun(status, events);
  }

  /** Nothing has reached the execution yet. */
  ghost predicate Quiet(events: seq<Event>) {
    forall j :: 0 <= j < |events| ==> !events[j].Start? && !events[j].Cancel?
  }

  /** A cancellation arrives before the execution starts. */
  ghost predicate CancelledFirst(events: seq<Event>) {
    exists i :: 0 <= i < |events| && events[i].Cancel? && Quiet(events[..i])
  }

  /** The execution starts at `i` and has neither had its turn nor been cancelled when `k` comes. */
  ghost predicate AwaitsTurn(events: seq<Event>, i: nat, k: nat) {
    && i < k <= |events| && events[i].Start? && Quiet(events[..i])
    && forall j :: i < j < k ==> !events[j].Acquire? && !events[j].Cancel?
  }

  /** The execution has its turn, and the worker is shutting down by then. */
  ghost predicate StoppedFirst(events: seq<Event>) {
    exists i, k :: 0 <= k < |events| && AwaitsTurn(events, i, k) && events[k] == Acquire(true)
  }

  ghost predicate StillAwaitsTurn(events: seq<Event>) {
    exists i :: AwaitsTurn(events, i, |events|)
  }

  lemma QuietGrows(front: seq<Event>, last: Event)
    ensures Quiet(front + [last]) <==> Quiet(front) && !last.Start? && !last.Cancel?
  {
    assert forall j :: 0 <= j < |front| ==> (front + [last])[j] == front[j];
    assert (front + [last])[|front|] == last;
  }

  lemma CancelledFirstGrows(front: seq<Event>, last: Event)
    ensures CancelledFirst(front + [last]) <==> CancelledFirst(front) || (Quiet(front) && last.Cancel?)
  {
    hide Quiet;
    var events := front + [last];
    assert forall i :: 0 <= i <= |front| ==> events[..i] == front[..i];
    assert forall i :: 0 <= i < |front| ==> events[i] == front[i];
    assert front[..|front|] == front && events[|front|] == last;
  }

  lemma AwaitsTurnGrows(front: seq<Event>, last: Event, i: nat, k: nat)
    requires k <= |front|
    ensures AwaitsTurn(front + [last], i, k) <==> AwaitsTurn(front, i, k)
  {
    hide Quiet;
    var events := front + [last];
    assert forall j :: 0 <= j < |front| ==> events[j] == front[j];
    if i < k {
      assert events[..i] == front[..i];
    }
  }

  lemma StoppedFirstGrows(front: seq<Event>, last: Event)
    ensures StoppedFirst(front + [last]) <==> StoppedFirst(front) || (StillAwaitsTurn(front) && last == Acquire(true))
  {
    hide AwaitsTurn;
    var events := front + [last];
    forall i: nat, k: nat | k <= |front| ensures AwaitsTurn(events, i, k) <==> AwaitsTurn(front, i, k) {
      AwaitsTurnGrows(front, last, i, k);
    }
    assert forall j :: 0 <= j < |front| ==> events[j] == front[j];
    assert events[|front|] == last;
  }

  lemma StillAwaitsTurnGrows(front: seq<Event>, last: Event)
    ensures StillAwaitsTurn(front + [last]) <==>
            (StillAwaitsTurn(front) && !last.Acquire? && !last.Cancel?) || (Quiet(front) && last.Start?)
  {
    hide Quiet;
    var events := front + [last];
    assert forall j :: 0 <= j < |front| ==> events[j] == front[j];
    assert forall i :: 0 <= i <= |front| ==> events[..i] == front[..i];
    assert front[..|front|] == front && events[|front|] == last;
    if Quiet(front) && last.Start? {
      assert AwaitsTurn(events, |front|, |events|);
    }
    forall i: nat | AwaitsTurn(front, i, |front|) && !last.Acquire? && !last.Cancel?
      ensures AwaitsTurn(events, i, |events|)
    {
    }
    forall i: nat | AwaitsTurn(events, i, |events|) && i < |front| ensures AwaitsTurn(front, i, |front|) {
    }
  }

  /** Where the untouched places of a resumption come from, read off the events alone. */
  ghost predicate Placed(e: Exec, events: seq<Event>) {
    && (e.place.NotStarted? <==> Quiet(events))
    && (e.place.Waiting? <==> StillAwaitsTurn(events))
    && (e.place == Finished(Unstarted) <==> CancelledFirst(events))
    && (e.place == Finished(Stopped) <==> StoppedFirst(events))
  }

  lemma DeliveredPlaces(e: Exec)
    requires e.kind.Resume?
    ensures var p := Deliver(e).place;
            && !p.NotStarted? && !p.Waiting?
            && (p == Finished(Unstarted) <==> e.place.NotStarted? || e.place == Finished(Unstarted))
            && (p == Finished(Stopped) <==> e.place == Finished(Stopped))
  {
  }

  lemma LandedPlaces(e: Exec)
    requires e.kind.Resume?
    ensures var p := Landed(e).place;
            && (p.NotStarted? <==> e.place.NotStarted?) && (p.Waiting? <==> e.place.Waiting?)
            && (p == Finished(Unstarted) <==> e.place == Finished(Unstarted))
            && (p == Finished(Stopped) <==> e.place == Finished(Stopped))
  {
    hide Land, Rows;
  }

  /** How the untouched places follow each other. */
  lemma UntouchedPlaces(e: Exec, v: Event)
    requires e.kind.Resume?
    ensures var p := Step(e, v).place;
            && (p.NotStarted? <==> e.place.NotStarted? && !v.Start? && !v.Cancel?)
            && (p.Waiting? <==>
                  (e.place.Waiting? && !v.Acquire? && !v.Cancel?) || (e.place.NotStarted? && v.Start?))
            && (p == Finished(Unstarted) <==>
                  e.place == Finished(Unstarted) || (e.place.NotStarted? && v.Cancel?))
            && (p == Finished(Stopped) <==>
                  e.place == Finished(Stopped) || (e.place.Waiting? && v == Acquire(true)))
  {
    hide Land, Rows, Deliver, Landed, ApiCancel;
    DeliveredPlaces(e);
    LandedPlaces(e);
    match v
    case Start =>
    case Acquire(_) =>
    case _ =>
  }

  lemma {:induction false} PlacesFollowEvents(status: Status, events: seq<Event>)
    ensures Placed(Run(Begin(Resume, status), events), events)
  {
    hide Step, Quiet, CancelledFirst, AwaitsTurn, StoppedFirst, StillAwaitsTurn;
    if |events| == 0 {
      NothingYet();
    } else {
      var front, last := events[..|events| - 1], events[|events| - 1];
      PlacesFollowEvents(status, front);
      RunKeepsInv(Resume, status, front);
      UntouchedPlaces(Run(Begin(Resume, status), front), last);
      assert events == front + [last];
      QuietGrows(front, last);
      CancelledFirstGrows(front, last);
      StoppedFirstGrows(front, last);
      StillAwaitsTurnGrows(front, last);
    }
  }

  lemma NothingYet()
    ensures Quiet([]) && !CancelledFirst([]) && !StoppedFirst([]) && !StillAwaitsTurn([])
  {
  }

  /** A resumed orphan has no drain behind it. Once it has finished and every write has landed, its task is left
      without a final status exactly when a cancellation came before it started, or the worker was shutting down when
      its turn came. Both are read off the events. */
  lemma ResumeEndsFinalUnlessUntouched(status: Status, events: seq<Event>)
    requires status.Running? || status.Cancelling?
    ensures var e := Run(Begin(Resume, status), events);
            e.place.Finished? && e.loose == multiset{} && !e.dbFailed ==>
              (!e.status.Terminal() <==> CancelledFirst(events) || StoppedFirst(events))
  {
    hide Run, CancelledFirst, StoppedFirst, StillAwaitsTurn, Quiet;
    OpenExactlyWhenUntouched(status, events);
    PlacesFollowEvents(status, events);
  }

  /** A run in which the first case happens: the request to cancel reaches a resumption that is registered but has not
      run yet. The task stays `cancelling`. */
  lemma UnstartedResumeIsLeftCancelling()
    ensures var e := Run(Begin(Resume, Running), [CancelCall, Cancel]);
            e.place == Finished(Unstarted) && e.status == Cancelling && e.loose == multiset{} && !e.dbFailed
  {
    assert [CancelCall, Cancel][..1] == [CancelCall];
    assert Run(Begin(Resume, Running), [CancelCall]) == Step(Run(Begin(Resume, Running), []), CancelCall);
  }
}
