/** Safety of the controller over whole runs, whatever the workers send. */
module ScheduleSafety {
  import opened ScheduleSpace
  import opened ScheduleController

  // ----- Admission -----

  ghost predicate NamesDistinct(actors: seq<Actor>) {
    forall i, j :: 0 <= i < j < |actors| ==> actors[i].name != actors[j].name
  }

  predicate Named(names: seq<string>, name: string) {
    exists i :: 0 <= i < |names| && names[i] == name
  }

  /** No actor has a step after its completion. */
  ghost predicate NothingAfterCompletion(steps: seq<Step>) {
    forall i, j :: 0 <= i < j < |steps| && steps[i].checkpoint == COMPLETION ==> steps[j].actor != steps[i].actor
  }

  predicate Completes(steps: seq<Step>, name: string) {
    exists k :: 0 <= k < |steps| && steps[k] == Step(name, COMPLETION)
  }

  /** The step sequences the controller admits for these actors. */
  ghost predicate AdmitsSteps(names: seq<string>, vocabulary: set<string>, steps: seq<Step>) {
    && (forall k :: 0 <= k < |steps| ==> Named(names, steps[k].actor))
    && (forall k :: 0 <= k < |steps| ==> steps[k].checkpoint == COMPLETION || steps[k].checkpoint in vocabulary)
    && NothingAfterCompletion(steps)
    && (forall i :: 0 <= i < |names| ==> Completes(steps, names[i]))
  }

  function NamesOf(actors: seq<Actor>): (r: seq<string>)
    ensures |r| == |actors| && forall i :: 0 <= i < |r| ==> r[i] == actors[i].name
  {
    seq(|actors|, i requires 0 <= i < |actors| => actors[i].name)
  }

  ghost predicate Admitted(e: Execution) {
    && e.actors != [] && NamesDistinct(e.actors)
    && AdmitsSteps(NamesOf(e.actors), e.plan.vocabulary, e.plan.steps)
    && forall c :: c in e.plan.vocabulary ==> Identifier(c)
  }

  // ----- What a receipt must show -----

  /** Two events per step, in order: the permit and the matching arrival. */
  ghost predicate EventPair(events: seq<Event>, steps: seq<Step>, k: nat)
    requires k < |steps| && 2 * k + 1 < |events|
  {
    var p, a := events[2 * k], events[2 * k + 1];
    && p.ordinal == 2 * k && a.ordinal == 2 * k + 1
    && p.kind == PermitEvent && a.kind == ArrivalEvent
    && p.step == k && a.step == k
    && p.actor == steps[k].actor && a.actor == steps[k].actor
    && a.checkpoint == steps[k].checkpoint
  }

  ghost predicate EventsFor(events: seq<Event>, steps: seq<Step>, n: nat) {
    n <= |steps| && 2 * n <= |events| && forall k :: 0 <= k < n ==> EventPair(events, steps, k)
  }

  ghost predicate ObservationsUpTo(observations: seq<Observation>, n: nat) {
    |observations| == n + 1 && forall k :: 0 <= k <= n ==> observations[k].afterSteps == k
  }

  /** The explorer's acceptance of a completed execution. */
  ghost predicate ValidSuccess(e: Execution) {
    && e.scheduleCompleted && e.outcome == Completed
    && |e.events| == 2 * |e.plan.steps| && EventsFor(e.events, e.plan.steps, |e.plan.steps|)
    && |e.observations| == |e.plan.steps| + 1
  }

  predicate Passed(e: Execution) {
    e.outcome == Completed && e.scheduleCompleted && e.cleanup == Confirmed
  }

  // ----- Invariants -----

  /** At most one actor is inside a permitted interval. */
  ghost predicate OneRunning(e: Execution) {
    forall i, j ::
      (0 <= i < |e.actors| && 0 <= j < |e.actors| && e.actors[i].phase == Running && e.actors[j].phase == Running)
      ==> i == j
  }

  /** While nothing has failed, an actor's checkpoint tells whether it is done. */
  ghost predicate Orderly(a: Actor) {
    && (a.phase == Finished <==> a.exited)
    && (a.checkpoint == COMPLETION <==> a.phase in {Finishing, Finished})
    && (a.exited ==> a.reportedFinish)
  }

  ghost predicate DoneUpTo(e: Execution, n: nat)
    requires n <= |e.plan.steps|
  {
    forall k, i ::
      (0 <= k < n && 0 <= i < |e.actors| && e.plan.steps[k] == Step(e.actors[i].name, COMPLETION))
      ==> e.actors[i].exited
  }

  /** The account of a run in which nothing has failed yet. */
  ghost predicate Progress(e: Execution)
    requires Shaped(e)
  {
    && e.outcome == Completed && e.cleanup == NotStarted && !e.closed && !e.scheduleCompleted
    && e.next <= |e.plan.steps|
    && EventsFor(e.events, e.plan.steps, e.next)
    && DoneUpTo(e, e.next)
    && (forall i :: 0 <= i < |e.actors| ==> Orderly(e.actors[i]))
    && (e.waiting.AtStart? || e.waiting.Idle? || e.waiting.ForArrival?)
    && (e.waiting.AtStart? ==> e.next == 0 && e.events == [] && e.observations == [])
    && (e.waiting.Idle? ==> e.next < |e.plan.steps| && |e.events| == 2 * e.next && ObservationsUpTo(e.observations, e.next))
    && (e.waiting.ForArrival? ==>
          && e.next < |e.plan.steps| && |e.events| == 2 * e.next + 1 && ObservationsUpTo(e.observations, e.next)
          && e.plan.steps[e.next].actor == e.actors[e.waiting.actor].name
          && PermitRow(e.events[2 * e.next], e, e.waiting.actor))
    && (forall i :: 0 <= i < |e.actors| && e.actors[i].phase == Running ==> e.waiting == ForArrival(i))
  }

  ghost predicate PermitRow(row: Event, e: Execution, i: nat)
    requires i < |e.actors|
  {
    row.ordinal == 2 * e.next && row.kind == PermitEvent && row.step == e.next && row.actor == e.actors[i].name
  }

  /** The account of a run whose every step was taken. */
  ghost predicate Complete(e: Execution) {
    && e.next == |e.plan.steps|
    && |e.events| == 2 * |e.plan.steps| && EventsFor(e.events, e.plan.steps, |e.plan.steps|)
    && ObservationsUpTo(e.observations, |e.plan.steps|)
    && (forall i :: 0 <= i < |e.actors| ==> e.actors[i].exited && e.actors[i].reportedFinish)
  }

  ghost predicate Inv(e: Execution) {
    && Shaped(e) && Admitted(e) && OneRunning(e)
    && (!e.stopped ==> Progress(e))
    && (e.outcome != Completed ==> e.stopped)
    && (e.scheduleCompleted ==> Complete(e))
    && (e.closed ==> e.stopped)
    && (e.waiting in {ForExit, ForTeardown} ==> e.stopped)
    && (e.cleanup == Confirmed ==> e.stopped)
  }

  // ----- What never changes back -----

  /** From one moment to any later one. */
  ghost predicate Later(e: Execution, f: Execution) {
    && f.plan == e.plan && |f.actors| == |e.actors| && NamesOf(f.actors) == NamesOf(e.actors)
    && (e.outcome != Completed ==> f.outcome == e.outcome)
    && (e.stopped ==> f.stopped)
    && (e.stopped ==> f.events == e.events && f.observations == e.observations && f.next == e.next
                      && f.scheduleCompleted == e.scheduleCompleted)
    && (e.closed ==> f.closed)
    && (forall i :: 0 <= i < |e.actors| && e.actors[i].exited ==> f.actors[i].exited)
    && (forall i :: 0 <= i < |e.actors| && e.actors[i].reportedFinish ==> f.actors[i].reportedFinish)
  }

  /** What a handler may do to one actor's record. */
  ghost predicate ActorLater(a: Actor, b: Actor) {
    && b.name == a.name && (a.exited ==> b.exited) && (a.reportedFinish ==> b.reportedFinish)
    && (b.phase == Running ==> a.phase == Running)
  }

  ghost predicate ActorsLater(e: Execution, f: Execution) {
    |f.actors| == |e.actors| && forall i :: 0 <= i < |e.actors| ==> ActorLater(e.actors[i], f.actors[i])
  }

  /** A change that permits nobody and appends nothing to the record, ending stopped. */
  ghost predicate Stops(e: Execution, f: Execution) {
    && f.stopped && f.plan == e.plan && Shaped(f) && ActorsLater(e, f)
    && (e.outcome != Completed ==> f.outcome == e.outcome)
    && (e.closed ==> f.closed)
    && f.events == e.events && f.observations == e.observations && f.next == e.next
    && f.scheduleCompleted == e.scheduleCompleted
  }

  lemma {:induction false} StopsKeeps(e: Execution, f: Execution)
    requires Inv(e) && Stops(e, f)
    ensures Inv(f) && Later(e, f)
  {
    assert NamesOf(f.actors) == NamesOf(e.actors);
    assert forall i :: 0 <= i < |e.actors| ==> ActorLater(e.actors[i], f.actors[i]);
  }

  lemma {:induction false} LaterRefl(e: Execution)
    ensures Later(e, e)
  {
  }

  // ----- Messages, settlements and exits -----

  /** One actor's record changes while nothing has failed. */
  ghost predicate Continues(e: Execution, f: Execution, i: nat)
    requires i < |e.actors|
  {
    && !e.stopped && Shaped(f) && |f.actors| == |e.actors| && f.actors == e.actors[i := f.actors[i]]
    && f == e.(actors := f.actors, outbox := f.outbox, pendingRequests := f.pendingRequests)
    && ActorLater(e.actors[i], f.actors[i])
    && Orderly(f.actors[i])
  }

  lemma {:induction false} ContinuesKeeps(e: Execution, f: Execution, i: nat)
    requires Inv(e) && i < |e.actors| && Continues(e, f, i)
    ensures Inv(f) && Later(e, f)
  {
    assert NamesOf(f.actors) == NamesOf(e.actors);
    forall j | 0 <= j < |e.actors| ensures ActorLater(e.actors[j], f.actors[j]) && Orderly(f.actors[j]) {
      assert Orderly(e.actors[j]);
    }
  }

  lemma {:induction false} CompletionNotIdentifier()
    ensures !Identifier(COMPLETION)
  {
    assert COMPLETION[0] == '$';
  }

  /** A handler either stops the run soundly, or changes one actor's record soundly. */
  ghost predicate Sound(e: Execution, f: Execution, i: nat)
    requires i < |e.actors|
  {
    (f.stopped ==> Stops(e, f)) && (!f.stopped ==> Continues(e, f, i))
  }

  ghost predicate Handling(e: Execution, i: nat) {
    Shaped(e) && i < |e.actors| && (!e.stopped ==> Orderly(e.actors[i]))
  }

  lemma {:induction false} HandlerKeeps(e: Execution, f: Execution, i: nat)
    requires Inv(e) && i < |e.actors| && Sound(e, f, i)
    ensures Inv(f) && Later(e, f)
  {
    if f.stopped {
      StopsKeeps(e, f);
    } else {
      ContinuesKeeps(e, f, i);
    }
  }

  lemma {:induction false} ReadySound(e: Execution, i: nat, thread: int)
    requires Handling(e, i)
    ensures Sound(e, OnReady(e, i, thread), i)
  {
  }

  lemma {:induction false} ArrivalSound(e: Execution, i: nat, checkpoint: string)
    requires Handling(e, i)
    ensures Sound(e, OnArrival(e, i, checkpoint), i)
  {
    CompletionNotIdentifier();
  }

  lemma {:induction false} RequestSound(e: Execution, i: nat, id: int, sound: bool)
    requires Handling(e, i)
    ensures Sound(e, OnRequest(e, i, id, sound), i)
  {
  }

  lemma {:induction false} DoneSound(e: Execution, i: nat)
    requires Handling(e, i)
    ensures Sound(e, OnDone(e, i), i)
  {
  }

  lemma {:induction false} SettledSound(e: Execution, i: nat, failed: bool)
    requires Handling(e, i)
    ensures Sound(e, OnSettled(e, i, failed), i)
  {
  }

  lemma {:induction false} ExitSound(e: Execution, i: nat, code: int)
    requires Handling(e, i)
    ensures Sound(e, OnExit(e, i, code), i)
  {
  }

  lemma {:induction false} MessageKeeps(e: Execution, i: nat, m: Message)
    requires Inv(e) && i < |e.actors|
    ensures Inv(OnMessage(e, i, m)) && Later(e, OnMessage(e, i, m))
  {
    assert !e.stopped ==> Orderly(e.actors[i]);
    match m
    case Ready(thread) => ReadySound(e, i, thread); HandlerKeeps(e, OnMessage(e, i, m), i);
    case Arrival(checkpoint) => ArrivalSound(e, i, checkpoint); HandlerKeeps(e, OnMessage(e, i, m), i);
    case Request(id, sound) => RequestSound(e, i, id, sound); HandlerKeeps(e, OnMessage(e, i, m), i);
    case Done => DoneSound(e, i); HandlerKeeps(e, OnMessage(e, i, m), i);
    case Failure =>
      if !e.stopped {
        FailKeeps(e, ApplicationFailed);
      }
  }

  lemma {:induction false} SettledKeeps(e: Execution, i: nat, failed: bool)
    requires Inv(e) && i < |e.actors|
    ensures Inv(OnSettled(e, i, failed)) && Later(e, OnSettled(e, i, failed))
  {
    assert !e.stopped ==> Orderly(e.actors[i]);
    SettledSound(e, i, failed);
    HandlerKeeps(e, OnSettled(e, i, failed), i);
  }

  lemma {:induction false} ExitKeeps(e: Execution, i: nat, code: int)
    requires Inv(e) && i < |e.actors|
    ensures Inv(OnExit(e, i, code)) && Later(e, OnExit(e, i, code))
  {
    assert !e.stopped ==> Orderly(e.actors[i]);
    ExitSound(e, i, code);
    HandlerKeeps(e, OnExit(e, i, code), i);
  }

  // ----- Operations -----

  lemma {:induction false} CleanupKeeps(e: Execution)
    requires Inv(e) && e.stopped
    ensures Inv(BeginCleanup(e)) && Later(e, BeginCleanup(e)) && BeginCleanup(e).stopped
  {
    StopsKeeps(e, BeginCleanup(e));
  }

  lemma {:induction false} FailKeeps(e: Execution, o: Outcome)
    requires Inv(e)
    ensures Inv(Fail(e, o)) && Later(e, Fail(e, o)) && Fail(e, o).stopped
  {
    StopsKeeps(e, Fail(e, o));
  }

  lemma {:induction false} LaterTransitive(e: Execution, f: Execution, g: Execution)
    requires Later(e, f) && Later(f, g)
    ensures Later(e, g)
  {
    forall i | 0 <= i < |e.actors| ensures e.actors[i].exited ==> g.actors[i].exited {
      assert e.actors[i].exited ==> f.actors[i].exited;
    }
    forall i | 0 <= i < |e.actors| ensures e.actors[i].reportedFinish ==> g.actors[i].reportedFinish {
      assert e.actors[i].reportedFinish ==> f.actors[i].reportedFinish;
    }
  }

  lemma {:induction false} FailConcludes(e: Execution, o: Outcome)
    requires Inv(e)
    ensures Inv(Conclude(Fail(e, o))) && Later(e, Conclude(Fail(e, o)))
  {
    FailKeeps(e, o);
    CleanupKeeps(Fail(e, o));
    LaterTransitive(e, Fail(e, o), Conclude(Fail(e, o)));
  }

  /** An observation that stops the run adds nothing; one that succeeds adds its row. */
  lemma {:induction false} FailStops(e: Execution, o: Outcome)
    requires Shaped(e)
    ensures Stops(e, Fail(e, o))
  {
  }

  lemma {:induction false} CallStops(e: Execution, o: Observed)
    requires Shaped(e) && !e.stopped && ObserverCall(e, o).stopped
    ensures Stops(e, ObserverCall(e, o))
  {
  }

  lemma {:induction false} AnnounceStops(e: Execution, f: Execution)
    requires Stops(e, f)
    ensures Stops(e, Announce(f))
  {
    assert Announce(f).actors == f.actors;
  }

  lemma {:induction false} ObserveStops(e: Execution, o: Observed)
    requires Shaped(e) && !e.stopped && Observe(e, o).stopped
    ensures Stops(e, Observe(e, o))
  {
    if !Quiescent(e) {
      FailStops(e, ObservationFailed);
    } else {
      CallStops(e, o);
      AnnounceStops(e, ObserverCall(e, o));
    }
  }

  lemma {:induction false} ObserveAdds(e: Execution, o: Observed)
    requires Shaped(e) && !Observe(e, o).stopped
    ensures Quiescent(e)
    ensures Observe(e, o) == e.(evidenceBytes := e.evidenceBytes + o.bytes,
                                observations := e.observations + [Observation(e.next, o.state)])
  {
  }

  lemma {:induction false} StepsNonEmpty(e: Execution)
    requires Admitted(e)
    ensures e.plan.steps != []
  {
    assert Completes(e.plan.steps, NamesOf(e.actors)[0]);
  }

  lemma {:induction false} StartKeeps(e: Execution, o: Observed)
    requires Inv(e) && e.waiting == AtStart && !e.stopped
    ensures Inv(Handle(e, AllParked(o))) && Later(e, Handle(e, AllParked(o)))
  {
    var seen := Observe(e, o);
    if seen.stopped {
      ObserveStops(e, o);
      StopsKeeps(e, seen);
      CleanupKeeps(seen);
      LaterTransitive(e, seen, BeginCleanup(seen));
    } else {
      ObserveAdds(e, o);
      StepsNonEmpty(e);
    }
  }

  lemma {:induction false} IndexOfFinds(actors: seq<Actor>, name: string)
    requires Named(NamesOf(actors), name)
    ensures IndexOf(actors, name) < |actors|
  {
    if actors[0].name != name {
      var i :| 0 <= i < |actors| && NamesOf(actors)[i] == name;
      assert NamesOf(actors[1..])[i - 1] == name;
      IndexOfFinds(actors[1..], name);
    }
  }

  lemma {:induction false} AdvanceKeeps(e: Execution, step: Step, clock: Clock, bytes: nat)
    requires Inv(e) && e.waiting == Idle
    ensures Inv(Advance(e, step, clock, bytes)) && Later(e, Advance(e, step, clock, bytes))
  {
    if e.closed || e.stopped {
    } else if clock == Aborted {
      FailConcludes(e, Cancelled);
    } else if clock == Late {
      FailConcludes(e, TimedOut);
    } else if step != e.plan.steps[e.next] {
      FailConcludes(e, InvalidSchedule);
    } else {
      var i := IndexOf(e.actors, step.actor);
      IndexOfFinds(e.actors, step.actor);
      if e.actors[i].phase != Parked {
        FailConcludes(e, UnexpectedCheckpoint);
      } else {
        PermitKeeps(e, i, bytes);
      }
    }
  }

  lemma {:induction false} PermitKeeps(e: Execution, i: nat, bytes: nat)
    requires Inv(e) && e.waiting == Idle && !e.stopped && i < |e.actors| && e.actors[i].phase == Parked
    requires e.next < |e.plan.steps| && e.plan.steps[e.next].actor == e.actors[i].name
    ensures var recorded := Record(e, PermitEvent, i, bytes);
            var f := if recorded.stopped then Conclude(recorded)
                     else Post(SetActor(recorded, i, recorded.actors[i].(phase := Running)), i, Permit).(waiting := ForArrival(i));
            Inv(f) && Later(e, f)
  {
    var recorded := Record(e, PermitEvent, i, bytes);
    if recorded.stopped {
      StopsKeeps(e, recorded);
      CleanupKeeps(recorded);
      LaterTransitive(e, recorded, Conclude(recorded));
    } else {
      var f := Post(SetActor(recorded, i, recorded.actors[i].(phase := Running)), i, Permit).(waiting := ForArrival(i));
      PermittedKeeps(e, i, f);
    }
  }

  /** The state in which one parked actor has been permitted. */
  ghost predicate Permitted(e: Execution, i: nat, f: Execution)
    requires i < |e.actors|
  {
    && Shaped(f)
    && f.actors == e.actors[i := e.actors[i].(phase := Running)]
    && f.events == e.events + [Event(|e.events|, PermitEvent, e.next, e.actors[i].name, e.actors[i].operation, e.actors[i].checkpoint)]
    && f == e.(actors := f.actors, events := f.events, evidenceBytes := f.evidenceBytes, outbox := f.outbox, waiting := ForArrival(i))
  }

  lemma {:induction false} EventsExtend(events: seq<Event>, row: Event, steps: seq<Step>, n: nat)
    requires EventsFor(events, steps, n)
    ensures EventsFor(events + [row], steps, n)
  {
    forall k | 0 <= k < n ensures EventPair(events + [row], steps, k) {
      assert EventPair(events, steps, k);
    }
  }

  lemma {:induction false} PermittedKeeps(e: Execution, i: nat, f: Execution)
    requires Inv(e) && e.waiting == Idle && !e.stopped && i < |e.actors| && e.actors[i].phase == Parked
    requires e.next < |e.plan.steps| && e.plan.steps[e.next].actor == e.actors[i].name
    requires Permitted(e, i, f)
    ensures Inv(f) && Later(e, f)
  {
    assert NamesOf(f.actors) == NamesOf(e.actors);
    assert Orderly(e.actors[i]);
    EventsExtend(e.events, f.events[|e.events|], e.plan.steps, e.next);
    assert PermitRow(f.events[2 * f.next], f, i);
  }

  // ----- Arrivals -----

  /** The state just after a matching arrival was recorded and counted. */
  ghost predicate Counted(e: Execution, i: nat, f: Execution)
    requires i < |e.actors|
  {
    && f == e.(evidenceBytes := f.evidenceBytes, events := f.events, next := e.next + 1)
    && e.next < |e.plan.steps|
    && f.events == e.events + [Event(|e.events|, ArrivalEvent, e.next, e.actors[i].name, e.actors[i].operation, e.actors[i].checkpoint)]
    && e.actors[i].checkpoint == e.plan.steps[e.next].checkpoint
  }

  lemma {:induction false} ArrivedCounts(e: Execution, i: nat, f: Execution)
    requires Inv(e) && e.waiting == ForArrival(i) && !e.stopped && e.actors[i].phase in {Parked, Finished}
    requires Counted(e, i, f)
    ensures EventsFor(f.events, f.plan.steps, f.next) && |f.events| == 2 * f.next && DoneUpTo(f, f.next)
  {
    forall k | 0 <= k < f.next ensures EventPair(f.events, f.plan.steps, k) {
      if k < e.next {
        assert EventPair(e.events, e.plan.steps, k);
      } else {
        assert PermitRow(e.events[2 * e.next], e, i);
      }
    }
    forall k, j | 0 <= k < f.next && 0 <= j < |f.actors| && f.plan.steps[k] == Step(f.actors[j].name, COMPLETION)
      ensures f.actors[j].exited
    {
      if k == e.next {
        assert j == i;
        assert Orderly(e.actors[i]);
      }
    }
  }

  /** When the last step has been taken, every worker has left. */
  lemma {:induction false} AllDone(e: Execution)
    requires Shaped(e) && Admitted(e) && e.next == |e.plan.steps| && DoneUpTo(e, e.next)
    requires forall i :: 0 <= i < |e.actors| ==> Orderly(e.actors[i])
    ensures forall i :: 0 <= i < |e.actors| ==> e.actors[i].exited && e.actors[i].reportedFinish
  {
    forall i | 0 <= i < |e.actors| ensures e.actors[i].exited && e.actors[i].reportedFinish {
      assert Completes(e.plan.steps, NamesOf(e.actors)[i]);
      assert Orderly(e.actors[i]);
    }
  }

  lemma {:induction false} JudgeMeaning(e: Execution, i: nat, bytes: nat)
    requires Shaped(e) && i < |e.actors| && !e.stopped && e.next < |e.plan.steps|
    ensures var f := Judge(e, i, bytes);
      if f.stopped then EndsAt(e, f) else Counted(e, i, f.(next := e.next + 1))
  {
  }

  /** A stop in the middle of an arrival. */
  ghost predicate EndsAt(e: Execution, f: Execution) {
    f.stopped && f.plan == e.plan && Shaped(f) && f.actors == e.actors && f.scheduleCompleted == e.scheduleCompleted
  }

  lemma {:induction false} CountEnds(e: Execution, i: nat, judged: Execution, o: Observed)
    requires Shaped(e) && Shaped(judged) && i < |e.actors|
    requires if judged.stopped then EndsAt(e, judged) else Counted(e, i, judged.(next := e.next + 1)) && judged.next == e.next
    requires Count(judged, o).stopped
    ensures EndsAt(e, Count(judged, o))
  {
  }

  lemma {:induction false} ResumeKeeps(e: Execution, i: nat, bytes: nat, o: Observed)
    requires Inv(e) && e.waiting == ForArrival(i) && !e.stopped && e.actors[i].phase in {Parked, Finished}
    ensures Inv(Resume(e, i, bytes, o)) && Later(e, Resume(e, i, bytes, o))
  {
    var judged := Judge(e, i, bytes);
    JudgeMeaning(e, i, bytes);
    var f := Count(judged, o);
    if f.stopped {
      CountEnds(e, i, judged, o);
      StoppedArrival(e, i, f);
    } else {
      var counted := judged.(next := e.next + 1);
      ArrivedCounts(e, i, counted);
      ObserveAdds(counted, o);
      SteppedOn(e, i, counted, f);
    }
  }

  /** An arrival that ends the run: the record may be ahead of the account. */
  lemma {:induction false} StoppedArrival(e: Execution, i: nat, f: Execution)
    requires Inv(e) && !e.stopped && i < |e.actors|
    requires EndsAt(e, f)
    ensures Inv(Conclude(f)) && Later(e, Conclude(f))
  {
    assert Conclude(f).actors == e.actors;
  }

  /** An arrival that was counted and observed. */
  lemma {:induction false} SteppedOn(e: Execution, i: nat, counted: Execution, f: Execution)
    requires Inv(e) && e.waiting == ForArrival(i) && !e.stopped && e.actors[i].phase in {Parked, Finished}
    requires Counted(e, i, counted) && Quiescent(counted) && !f.stopped
    requires f == counted.(evidenceBytes := f.evidenceBytes, observations := f.observations)
    requires |f.observations| == |counted.observations| + 1
    requires f.observations[..|counted.observations|] == counted.observations
    requires f.observations[|counted.observations|].afterSteps == counted.next
    requires EventsFor(f.events, f.plan.steps, f.next) && |f.events| == 2 * f.next && DoneUpTo(f, f.next)
    ensures Inv(Conclude(f)) && Later(e, Conclude(f))
  {
    assert ObservationsUpTo(f.observations, f.next) by {
      forall k | 0 <= k <= f.next ensures f.observations[k].afterSteps == k {
        assert k < f.next ==> f.observations[k] == counted.observations[k];
      }
    }
    assert forall k :: 0 <= k < |f.actors| ==> Orderly(f.actors[k]);
    if f.next == |f.plan.steps| {
      AllDone(f);
    }
  }

  // ----- Every event, every run -----

  lemma {:induction false} WaitKeeps(e: Execution, threw: bool)
    requires Inv(e)
    ensures e.waiting == ForExit ==> Inv(EndWait(e)) && Later(e, EndWait(e))
    ensures e.waiting == ForTeardown ==> Inv(TeardownDone(e, threw)) && Later(e, TeardownDone(e, threw))
  {
    if e.waiting == ForExit {
      StopsKeeps(e, EndWait(e));
    }
    if e.waiting == ForTeardown {
      StopsKeeps(e, TeardownDone(e, threw));
    }
  }

  lemma {:induction false} CleanupCallKeeps(e: Execution)
    requires Inv(e) && e.waiting == Idle
    ensures Inv(BeginCleanup(e)) && Later(e, BeginCleanup(e))
  {
    if e.stopped {
      CleanupKeeps(e);
    } else {
      StopsKeeps(e, BeginCleanup(e));
    }
  }

  lemma {:induction false} FinishKeeps(e: Execution)
    requires Inv(e) && e.waiting == Idle
    ensures Inv(Handle(e, CallFinish)) && Later(e, Handle(e, CallFinish))
  {
    LaterRefl(e);
    if e.next != |e.plan.steps| {
      FailCleanupKeeps(e, InvalidSchedule);
    } else {
      CleanupCallKeeps(e);
    }
  }

  lemma {:induction false} FailCleanupKeeps(e: Execution, o: Outcome)
    requires Inv(e) && e.waiting == Idle
    ensures Inv(BeginCleanup(Fail(e, o))) && Later(e, BeginCleanup(Fail(e, o)))
  {
    FailKeeps(e, o);
    CleanupKeeps(Fail(e, o));
    LaterTransitive(e, Fail(e, o), BeginCleanup(Fail(e, o)));
  }

  lemma {:induction false} WorkerEventKeeps(e: Execution, s: Stimulus)
    requires Inv(e) && (s.FromWorker? || s.Settled? || s.Exits? || s.WorkerError?)
    ensures Inv(Handle(e, s)) && Later(e, Handle(e, s))
  {
    LaterRefl(e);
    if s.i < |e.actors| {
      match s
      case FromWorker(i, m) => MessageKeeps(e, i, m);
      case Settled(i, failed) => SettledKeeps(e, i, failed);
      case Exits(i, code) => ExitKeeps(e, i, code);
      case WorkerError(i) => FailKeeps(e, ApplicationFailed);
    }
  }

  lemma {:induction false} ArrivedKeeps(e: Execution, bytes: nat, o: Observed)
    requires Inv(e)
    ensures Inv(Handle(e, AllParked(o))) && Later(e, Handle(e, AllParked(o)))
    ensures Inv(Handle(e, Arrived(bytes, o))) && Later(e, Handle(e, Arrived(bytes, o)))
  {
    LaterRefl(e);
    if !e.stopped {
      if e.waiting == AtStart {
        StartKeeps(e, o);
      } else if e.waiting.ForArrival? && e.actors[e.waiting.actor].phase in {Parked, Finished} {
        ResumeKeeps(e, e.waiting.actor, bytes, o);
      }
    }
  }

  lemma {:induction false} ExpiredKeeps(e: Execution, outcome: Outcome)
    requires Inv(e)
    ensures Inv(Handle(e, Expired(outcome))) && Later(e, Handle(e, Expired(outcome)))
  {
    LaterRefl(e);
    GiveUpKeeps(e, outcome);
  }

  lemma {:induction false} GiveUpKeeps(e: Execution, outcome: Outcome)
    requires Inv(e)
    ensures Inv(GiveUp(e, outcome)) && Later(e, GiveUp(e, outcome))
  {
    if e.stopped {
      CleanupKeeps(e);
    } else {
      FailConcludes(e, outcome);
    }
  }

  /** Every event keeps the invariant and undoes nothing. */
  lemma {:induction false} HandleKeeps(e: Execution, s: Stimulus)
    requires Inv(e)
    ensures Inv(Handle(e, s)) && Later(e, Handle(e, s))
  {
    if s.FromWorker? || s.Settled? || s.Exits? || s.WorkerError? {
      WorkerEventKeeps(e, s);
    } else {
      match s
      case AllParked(o) => ArrivedKeeps(e, 0, o);
      case Arrived(bytes, o) => ArrivedKeeps(e, bytes, o);
      case Expired(outcome) => ExpiredKeeps(e, outcome);
      case _ => CallKeeps(e, s);
    }
  }

  lemma {:induction false} CallKeeps(e: Execution, s: Stimulus)
    requires Inv(e)
    requires s.Abort? || s.CallAdvance? || s.CallFinish? || s.CallCleanup? || s.WaitOver? || s.Teardown?
    ensures Inv(Handle(e, s)) && Later(e, Handle(e, s))
  {
    LaterRefl(e);
    match s
    case Abort => FailKeeps(e, Cancelled);
    case CallAdvance(step, clock, bytes) => if e.waiting == Idle { AdvanceKeeps(e, step, clock, bytes); }
    case CallFinish => if e.waiting == Idle { FinishKeeps(e); }
    case CallCleanup => if e.waiting == Idle { CleanupCallKeeps(e); }
    case WaitOver => WaitKeeps(e, false);
    case Teardown(threw) => WaitKeeps(e, threw);
  }

  function Run(e: Execution, events: seq<Stimulus>): (r: Execution)
    requires Shaped(e)
    ensures Shaped(r)
    decreases |events|
  {
    if events == [] then e else Run(Handle(e, events[0]), events[1..])
  }

  /** The admitted execution before any event: its workers have been created, all
      of them or, after a creation failure, none that matters. */
  ghost predicate Initial(e: Execution) {
    && Shaped(e) && Admitted(e)
    && (forall i :: 0 <= i < |e.actors| ==> Fresh(e.actors[i]))
    && e.waiting == AtStart && e.next == 0 && e.events == [] && e.observations == []
    && e.outcome == Completed && e.cleanup == NotStarted && !e.closed && !e.scheduleCompleted && !e.stopped
    && e.pendingRequests == 0
  }

  ghost predicate Fresh(a: Actor) {
    a.phase == Starting && a.checkpoint == "$start" && !a.exited && !a.reportedFinish && a.pending.None? && a.requestId == 0
  }

  lemma {:induction false} InitialInv(e: Execution)
    requires Initial(e)
    ensures Inv(e)
  {
    assert forall i :: 0 <= i < |e.actors| ==> Fresh(e.actors[i]) && Orderly(e.actors[i]);
  }

  lemma {:induction false} RunLater(e: Execution, events: seq<Stimulus>)
    requires Inv(e)
    ensures Inv(Run(e, events)) && Later(e, Run(e, events))
    decreases |events|
  {
    LaterRefl(e);
    if events != [] {
      HandleKeeps(e, events[0]);
      RunLater(Handle(e, events[0]), events[1..]);
      LaterTransitive(e, Handle(e, events[0]), Run(e, events));
    }
  }

  /** At every moment of every run at most one actor is running, and a receipt
      that says passed is one the explorer accepts, with every worker gone. */
  lemma {:induction false} RunSafe(e: Execution, events: seq<Stimulus>)
    requires Initial(e)
    ensures OneRunning(Run(e, events))
    ensures Passed(Run(e, events)) ==>
              ValidSuccess(Run(e, events))
              && forall i :: 0 <= i < |Run(e, events).actors| ==>
                   Run(e, events).actors[i].exited && Run(e, events).actors[i].reportedFinish
  {
    InitialInv(e);
    RunLater(e, events);
  }

  /** The first failure is the one reported, however the run goes on; and once
      stopped, neither the events nor the observations change any more. */
  lemma {:induction false} FirstFailureStays(e: Execution, events: seq<Stimulus>, more: seq<Stimulus>)
    requires Initial(e)
    ensures
      var f, g := Run(e, events), Run(Run(e, events), more);
      && (f.outcome != Completed ==> g.outcome == f.outcome)
      && (f.stopped ==> g.stopped && g.events == f.events && g.observations == f.observations)
      && (f.outcome != Completed ==> !Passed(g))
  {
    InitialInv(e);
    RunLater(e, events);
    RunLater(Run(e, events), more);
  }
}
