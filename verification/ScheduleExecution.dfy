/** The controller and the worker bootstrap as the objects they are: fields
    updated in place, each method tied to the transition it performs. */
module ScheduleObjects {
  import opened Wrappers
  import opened ScheduleSpace
  import opened ScheduleController
  import opened ScheduleSafety
  import opened ScheduleWorker

  class ScheduleExecution {
    const plan: Plan
    var actors: seq<Actor>
    var outbox: seq<seq<Command>>
    var outcome: Outcome
    var scheduleCompleted: bool
    var cleanup: Cleanup
    var remaining: seq<string>
    var events: seq<ScheduleController.Event>
    var observations: seq<Observation>
    var pendingRequests: int
    var observing: bool
    var next: nat
    var stopped: bool
    var closed: bool
    var evidenceBytes: nat
    var waiting: Waiting

    ghost predicate Formed()
      reads this
    {
      |outbox| == |actors| && (waiting.ForArrival? ==> waiting.actor < |actors|)
    }

    /** Between two events: at most one actor is running, nothing is passed over in the
        record, and a failure has stopped the run. */
    ghost predicate Valid()
      reads this
    {
      Formed() && !observing && Inv(View())
    }

    ghost function View(): (e: Execution)
      reads this
      ensures Formed() ==> Shaped(e)
    {
      Execution(plan, actors, outbox, outcome, scheduleCompleted, cleanup, remaining, events, observations,
                pendingRequests, next, stopped, closed, evidenceBytes, waiting)
    }

    constructor (plan: Plan, declared: seq<(string, string)>, threads: seq<Option<int>>)
      requires |declared| == |threads|
      ensures Formed() && !observing && View().plan == plan && |actors| == |declared|
      ensures forall i :: 0 <= i < |declared| ==>
        actors[i] == Actor(declared[i].0, declared[i].1, Starting, "$start", threads[i], false, false, None, 0)
      ensures Admitted(View()) ==> Initial(View()) && Valid()
    {
      this.plan := plan;
      actors := seq(|declared|, i requires 0 <= i < |declared| && |threads| == |declared| =>
        Actor(declared[i].0, declared[i].1, Starting, "$start", threads[i], false, false, None, 0));
      outbox := seq(|declared|, i => []);
      outcome, scheduleCompleted, cleanup, remaining := Completed, false, NotStarted, [];
      events, observations, pendingRequests, observing := [], [], 0, false;
      next, stopped, closed, evidenceBytes, waiting := 0, false, false, 0, AtStart;
      new;
      if Initial(View()) { InitialInv(View()); }
    }

    method PostTo(i: nat, c: Command)
      requires Formed() && i < |actors|
      modifies this`outbox
      ensures Formed() && View() == Post(old(View()), i, c)
    {
      if actors[i].thread.Some? && !actors[i].exited {
        outbox := outbox[i := outbox[i] + [c]];
      }
    }

    method PostToAll(c: Command)
      requires Formed()
      modifies this`outbox
      ensures Formed() && View() == PostAll(old(View()), c)
    {
      ghost var before := outbox;
      for i := 0 to |actors|
        invariant Formed()
        invariant forall k :: 0 <= k < i ==> outbox[k] == (if Open(actors[k]) then before[k] + [c] else before[k])
        invariant forall k :: i <= k < |actors| ==> outbox[k] == before[k]
      {
        PostTo(i, c);
      }
      assert outbox == PostAll(old(View()), c).outbox;
    }

    method Fail(o: Outcome)
      requires Formed()
      modifies this`outcome, this`stopped, this`outbox
      ensures Formed()
      ensures View() == if observing then Halt(old(View()), o) else ScheduleController.Fail(old(View()), o)
    {
      if outcome == Completed {
        outcome := o;
      }
      stopped := true;
      if !observing {
        PostToAll(Cancel);
      }
    }

    /** A worker's message, taken apart by kind. */
    method Message(i: nat, m: ScheduleController.Message)
      requires Formed() && !observing && i < |actors|
      modifies this
      ensures Formed() && !observing && View() == OnMessage(old(View()), i, m)
    {
      var actor := actors[i];
      match m {
        case Ready(thread) =>
          if actor.phase != Starting || actor.thread != Some(thread) {
            Fail(ApplicationFailed);
          } else {
            actors := actors[i := actor.(phase := Parked)];
          }
        case Arrival(checkpoint) =>
          if stopped { return; }
          if actor.phase != Running || actor.pending.Some? {
            Fail(UncontrolledActor);
          } else if !Identifier(checkpoint) || checkpoint !in plan.vocabulary {
            Fail(UnexpectedCheckpoint);
          } else {
            actors := actors[i := actor.(checkpoint := checkpoint, phase := Parked)];
          }
        case Done =>
          if !stopped && (actor.phase != Running || actor.pending.Some?) {
            Fail(ApplicationFailed);
          } else {
            PostTo(i, Acknowledge);
            actors := actors[i := actor.(reportedFinish := true, phase := Finishing, checkpoint := COMPLETION)];
          }
        case Failure =>
          if !stopped { Fail(ApplicationFailed); }
        case Request(id, sound) =>
          if stopped { return; }
          MessageRequest(i, id, sound);
      }
    }

    method MessageRequest(i: nat, id: int, sound: bool)
      requires Formed() && !observing && i < |actors| && !stopped
      modifies this
      ensures Formed() && !observing && View() == OnRequest(old(View()), i, id, sound)
    {
      var actor := actors[i];
      if actor.phase != Running || actor.pending.Some? {
        Fail(ApplicationFailed);
        return;
      }
      actors := actors[i := actor.(requestId := actor.requestId + 1)];
      if id != actor.requestId || !plan.answersRequests || !sound {
        Fail(ApplicationFailed);
        return;
      }
      actors := actors[i := actor.(requestId := actor.requestId + 1, pending := Some(actor.requestId))];
      pendingRequests := pendingRequests + 1;
    }

    /** The program's answer: a reply while running, then the bookkeeping. */
    method Settle(i: nat, failed: bool)
      requires Formed() && !observing && i < |actors| && actors[i].pending.Some?
      modifies this
      ensures Formed() && !observing && View() == OnSettled(old(View()), i, failed)
    {
      if !stopped {
        PostTo(i, Reply(actors[i].pending.value, failed));
        if failed {
          Fail(ApplicationFailed);
        }
      }
      actors := actors[i := actors[i].(pending := None)];
      pendingRequests := pendingRequests - 1;
    }

    method Exit(i: nat, code: int)
      requires Formed() && !observing && i < |actors| && Open(actors[i])
      modifies this
      ensures Formed() && !observing && View() == OnExit(old(View()), i, code)
    {
      actors := actors[i := actors[i].(exited := true)];
      if !stopped && (code != 0 || !actors[i].reportedFinish) {
        Fail(ApplicationFailed);
      }
      actors := actors[i := actors[i].(phase := Finished, checkpoint := COMPLETION)];
    }

    method RecordEvent(kind: EventKind, i: nat, bytes: nat)
      requires Formed() && !observing && i < |actors|
      modifies this
      ensures Formed() && !observing && View() == Record(old(View()), kind, i, bytes)
    {
      var row := Event(|events|, kind, next, actors[i].name, actors[i].operation, actors[i].checkpoint);
      evidenceBytes := evidenceBytes + bytes;
      if evidenceBytes > EVIDENCE_LIMIT {
        Fail(ResourceFailed);
      } else {
        events := events + [row];
      }
    }

    method IsQuiescent() returns (quiet: bool)
      requires Formed()
      ensures quiet <==> Quiescent(View())
    {
      quiet := pendingRequests == 0;
      for i := 0 to |actors|
        invariant quiet <==> pendingRequests == 0 && forall k :: 0 <= k < i ==> actors[k].phase in {Parked, Finished}
      {
        if actors[i].phase != Parked && actors[i].phase != Finished {
          quiet := false;
        }
      }
    }

    method TakeObservation(o: Observed)
      requires Formed() && !observing
      modifies this
      ensures Formed() && !observing && View() == Observe(old(View()), o)
    {
      if stopped { return; }
      var quiet := IsQuiescent();
      if !quiet {
        Fail(ObservationFailed);
        return;
      }
      observing := true;
      if o.abortedMeanwhile {
        Fail(Cancelled);
      }
      if o.threw {
        Fail(ObservationFailed);
      } else if !stopped {
        if o.late {
          Fail(TimedOut);
        } else if evidenceBytes + o.bytes > EVIDENCE_LIMIT {
          Fail(ObservationFailed);
        } else {
          evidenceBytes := evidenceBytes + o.bytes;
          observations := observations + [Observation(next, o.state)];
        }
      }
      observing := false;
      if stopped {
        PostToAll(Cancel);
      }
    }

    method StartCleanup()
      requires Formed() && !observing
      modifies this
      ensures Formed() && !observing && View() == BeginCleanup(old(View()))
    {
      if closed {
        waiting := Idle;
        return;
      }
      if outcome == Completed && !scheduleCompleted {
        Fail(Cancelled);
      }
      stopped := true;
      PostToAll(Cancel);
      waiting := ForExit;
    }

    method FinishOperation()
      requires Formed() && !observing
      modifies this
      ensures Formed() && !observing && View() == Conclude(old(View()))
    {
      if !stopped && next == |plan.steps| {
        scheduleCompleted := true;
      }
      if stopped || scheduleCompleted {
        StartCleanup();
      } else {
        waiting := Idle;
      }
    }

    method FindActor(name: string) returns (i: nat)
      requires Formed()
      ensures i == IndexOf(actors, name)
    {
      i := 0;
      assert actors[0..] == actors;
      while i < |actors| && actors[i].name != name
        invariant i <= |actors| && IndexOf(actors, name) == i + IndexOf(actors[i..], name)
      {
        assert actors[i..][1..] == actors[i + 1..];
        i := i + 1;
      }
    }

    /** Every scheduled step names a declared actor, as admission requires. */
    ghost predicate StepsKnown()
      reads this
    {
      forall k :: 0 <= k < |plan.steps| ==> IndexOf(actors, plan.steps[k].actor) < |actors|
    }

    /** `advance` up to its wait. */
    method BeginAdvance(step: Step, clock: Clock, bytes: nat)
      requires Formed() && !observing && StepsKnown()
      modifies this
      ensures Formed() && !observing && View() == Advance(old(View()), step, clock, bytes)
    {
      if closed || stopped { return; }
      if clock == Aborted {
        Fail(Cancelled);
      } else if clock == Late {
        Fail(TimedOut);
      } else if next >= |plan.steps| || step != plan.steps[next] {
        Fail(InvalidSchedule);
      } else {
        var i := FindActor(step.actor);
        if actors[i].phase == Parked {
          BeginInterval(i, bytes);
          return;
        }
        Fail(UnexpectedCheckpoint);
      }
      FinishOperation();
    }

    method BeginInterval(i: nat, bytes: nat)
      requires Formed() && !observing && i < |actors| && actors[i].phase == Parked
      modifies this
      ensures Formed() && !observing
      ensures var recorded := Record(old(View()), PermitEvent, i, bytes);
        View() == if recorded.stopped then Conclude(recorded)
                  else Post(SetActor(recorded, i, recorded.actors[i].(phase := Running)), i, Permit).(waiting := ForArrival(i))
    {
      RecordEvent(PermitEvent, i, bytes);
      if stopped {
        FinishOperation();
        return;
      }
      actors := actors[i := actors[i].(phase := Running)];
      PostTo(i, Permit);
      waiting := ForArrival(i);
    }

    method JudgeArrival(i: nat, bytes: nat)
      requires Formed() && !observing && i < |actors| && next < |plan.steps|
      modifies this
      ensures Formed() && !observing && View() == Judge(old(View()), i, bytes)
    {
      RecordEvent(ArrivalEvent, i, bytes);
      if actors[i].checkpoint != plan.steps[next].checkpoint {
        Fail(UnexpectedCheckpoint);
      }
    }

    method CountArrival(o: Observed)
      requires Formed() && !observing
      modifies this
      ensures Formed() && !observing && View() == Count(old(View()), o)
    {
      if !stopped {
        next := next + 1;
        TakeObservation(o);
      }
    }

    /** `advance` after its wait was satisfied. */
    method EndAdvance(i: nat, bytes: nat, o: Observed)
      requires Formed() && !observing && i < |actors| && next < |plan.steps|
      modifies this
      ensures Formed() && !observing && View() == Resume(old(View()), i, bytes, o)
    {
      JudgeArrival(i, bytes);
      CountArrival(o);
      FinishOperation();
    }

    method ListRemaining() returns (left: seq<string>)
      requires Formed()
      ensures left == Remaining(actors)
    {
      left := [];
      assert actors[0..] == actors;
      for i := 0 to |actors|
        invariant left + Remaining(actors[i..]) == Remaining(actors)
      {
        assert actors[i..][1..] == actors[i + 1..];
        if (actors[i].thread.Some? && !actors[i].exited) || actors[i].pending.Some? {
          left := left + [actors[i].name];
        }
      }
    }

    /** The cleanup wait is over, satisfied or not. */
    method EndCleanupWait()
      requires Formed() && !observing
      modifies this
      ensures Formed() && !observing && View() == EndWait(old(View()))
    {
      var left := ListRemaining();
      if left != [] || pendingRequests != 0 {
        cleanup, remaining, waiting := Incomplete, left, Idle;
      } else {
        closed, remaining, waiting := true, [], ForTeardown;
      }
    }

    /** The program's teardown, which may throw. */
    method EndTeardown(threw: bool)
      requires Formed() && !observing
      modifies this
      ensures Formed() && !observing && View() == TeardownDone(old(View()), threw)
    {
      cleanup := if threw then TeardownFailed else Confirmed;
      waiting := Idle;
    }

    method AllActorsIn(phases: set<Phase>) returns (all: bool)
      ensures all <==> forall i :: 0 <= i < |actors| ==> actors[i].phase in phases
    {
      all := true;
      for i := 0 to |actors|
        invariant all <==> forall k :: 0 <= k < i ==> actors[k].phase in phases
      {
        if actors[i].phase !in phases { all := false; }
      }
    }

    // ----- What the event loop calls -----

    /** The barrier of `start` is open: the first observation. */
    method OnAllParked(o: Observed)
      requires Formed() && !observing
      modifies this
      ensures Formed() && !observing && View() == Handle(old(View()), AllParked(o))
    {
      if waiting != AtStart || stopped { return; }
      var parked := AllActorsIn({Parked});
      if !parked { return; }
      TakeObservation(o);
      if stopped { StartCleanup(); } else { waiting := Idle; }
    }

    /** The wait of `advance` is satisfied. */
    method OnArrived(bytes: nat, o: Observed)
      requires Valid()
      modifies this
      ensures Formed() && !observing && View() == Handle(old(View()), Arrived(bytes, o))
    {
      if !waiting.ForArrival? || stopped { return; }
      var i := waiting.actor;
      if actors[i].phase != Parked && actors[i].phase != Finished { return; }
      EndAdvance(i, bytes, o);
    }

    /** A wait for progress ends without it: the deadline, the caller's signal or an
        earlier failure. */
    method OnExpired(o: Outcome)
      requires Formed() && !observing
      modifies this
      ensures Formed() && !observing && View() == Handle(old(View()), Expired(o))
    {
      if !waiting.AtStart? && !waiting.ForArrival? { return; }
      if !stopped {
        if o != TimedOut && o != Cancelled { return; }
        Fail(o);
      }
      FinishOperation();
    }

    method OnAbort()
      requires Formed() && !observing
      modifies this
      ensures Formed() && !observing && View() == Handle(old(View()), Abort)
    {
      if !closed { Fail(Cancelled); }
    }

    method Finish()
      requires Formed() && !observing
      modifies this
      ensures Formed() && !observing && View() == Handle(old(View()), CallFinish)
    {
      if waiting != Idle || closed { return; }
      if next != |plan.steps| { Fail(InvalidSchedule); }
      StartCleanup();
    }

    method OnWorkerEvent(s: Stimulus)
      requires Formed() && !observing && (s.FromWorker? || s.Settled? || s.Exits? || s.WorkerError?)
      modifies this
      ensures Formed() && !observing && View() == Handle(old(View()), s)
    {
      if s.i >= |actors| { return; }
      match s {
        case FromWorker(i, m) => Message(i, m);
        case Settled(i, failed) => if actors[i].pending.Some? { Settle(i, failed); }
        case Exits(i, code) => if actors[i].thread.Some? && !actors[i].exited { Exit(i, code); }
        case WorkerError(_) => Fail(ApplicationFailed);
      }
    }

    method OnCall(s: Stimulus)
      requires Valid() && (s.CallAdvance? || s.CallFinish? || s.CallCleanup? || s.WaitOver? || s.Teardown?)
      modifies this
      ensures Formed() && !observing && View() == Handle(old(View()), s)
    {
      match s {
        case CallAdvance(step, clock, bytes) =>
          if waiting == Idle {
            AdmittedSteps();
            BeginAdvance(step, clock, bytes);
          }
        case CallFinish => Finish();
        case CallCleanup => if waiting == Idle { StartCleanup(); }
        case WaitOver => if waiting == ForExit { EndCleanupWait(); }
        case Teardown(threw) => if waiting == ForTeardown { EndTeardown(threw); }
      }
    }

    lemma {:induction false} AdmittedSteps()
      requires Valid()
      ensures StepsKnown()
    {
      forall k | 0 <= k < |plan.steps| ensures IndexOf(actors, plan.steps[k].actor) < |actors| {
        StepKnown(View(), k);
      }
    }

    /** One event, whatever it is: the run stays safe, nothing that was decided is
        undone, and a receipt that says passed is one the explorer accepts. */
    method Dispatch(s: Stimulus)
      requires Valid()
      modifies this
      ensures Valid() && View() == Handle(old(View()), s) && Later(old(View()), View())
      ensures OneRunning(View()) && (Passed(View()) ==> ValidSuccess(View()))
    {
      HandleKeeps(View(), s);
      if s.FromWorker? || s.Settled? || s.Exits? || s.WorkerError? {
        OnWorkerEvent(s);
      } else if s.Abort? {
        OnAbort();
      } else if s.AllParked? {
        OnAllParked(s.o);
      } else if s.Arrived? {
        OnArrived(s.bytes, s.o);
      } else if s.Expired? {
        OnExpired(s.outcome);
      } else {
        OnCall(s);
      }
    }

    /** Any number of events. */
    method DispatchAll(events: seq<Stimulus>)
      requires Valid()
      modifies this
      ensures Valid() && View() == Run(old(View()), events)
      ensures old(outcome) != Completed ==> outcome == old(outcome)
      ensures old(stopped) ==> stopped && this.events == old(this.events) && observations == old(observations)
    {
      for k := 0 to |events|
        invariant Valid() && Run(View(), events[k..]) == Run(old(View()), events) && Later(old(View()), View())
      {
        ghost var before := View();
        Dispatch(events[k]);
        LaterTransitive(old(View()), before, View());
        assert events[k..][1..] == events[k + 1..];
      }
    }
  }

  lemma {:induction false} StepKnown(e: Execution, k: nat)
    requires Admitted(e) && k < |e.plan.steps|
    ensures IndexOf(e.actors, e.plan.steps[k].actor) < |e.actors|
  {
    IndexOfFinds(e.actors, e.plan.steps[k].actor);
  }

  /** The bootstrap's module variables. */
  class WorkerBootstrap {
    const thread: int
    var booted: bool
    var entered: bool
    var aborted: bool
    var waiter: bool
    var rpc: Option<nat>
    var nextRequest: nat
    var permitted: bool
    var finished: bool
    var awaitingAck: bool
    var threw: bool
    var crashed: bool
    var posted: seq<ScheduleController.Message>

    ghost function View(): Worker
      reads this
    {
      Worker(thread, booted, entered, aborted, waiter, rpc, nextRequest, permitted, finished, awaitingAck, threw, false, crashed)
    }

    constructor (thread: int)
      ensures View() == NewWorker(thread) && posted == []
    {
      this.thread := thread;
      booted, entered, aborted, waiter, rpc, nextRequest := false, false, false, false, None, 0;
      permitted, finished, awaitingAck, threw, crashed, posted := false, false, false, false, false, [];
    }

    /** The port's message handler; meeting a message it does not allow, it throws. */
    method OnCommand(c: Command)
      modifies this
      ensures View() == Receive(old(View()), c) && posted == old(posted)
    {
      match c {
        case Cancel => aborted, waiter, rpc := true, false, None;
        case Permit => OnPermit();
        case Acknowledge => OnAcknowledge();
        case Reply(id, failed) => OnReply(id, failed);
      }
    }

    method OnPermit()
      modifies this`crashed, this`permitted, this`waiter, this`entered
      ensures View() == Receive(old(View()), Permit)
    {
      if aborted { return; }
      if !waiter { crashed := true; return; }
      permitted, waiter, entered := true, false, true;
    }

    method OnAcknowledge()
      modifies this`crashed, this`awaitingAck
      ensures View() == Receive(old(View()), Acknowledge)
    {
      if !finished || !awaitingAck { crashed := true; return; }
      awaitingAck := false;
    }

    method OnReply(id: nat, failed: bool)
      modifies this`crashed, this`rpc
      ensures View() == Receive(old(View()), Reply(id, failed))
    {
      if rpc != Some(id) {
        if !aborted { crashed := true; }
        return;
      }
      rpc := None;
    }

    /** `wait`: parks unless already cancelled. */
    method Park()
      requires !waiter
      modifies this`waiter
      ensures waiter == !aborted
    {
      waiter := !aborted;
    }

    method Start()
      requires !booted && !waiter
      modifies this
      ensures var p := Boot(old(View())); View() == p.worker && posted == old(posted) + p.messages
    {
      booted := true;
      Park();
      posted := posted + [Ready(thread)];
    }

    /** `checkpoint.arrive`, up to its wait. */
    method CallArrive(name: string) returns (accepted: bool)
      requires entered
      modifies this
      ensures var p := Arrive(old(View()), name); View() == p.worker && posted == old(posted) + p.messages
      ensures accepted ==> !permitted && posted[|old(posted)|..] == [Arrival(name)]
    {
      if finished {
        posted := posted + [Failure];
        return false;
      }
      if !permitted || rpc.Some? || waiter { return false; }
      permitted := false;
      Park();
      posted := posted + [Arrival(name)];
      return true;
    }

    /** `checkpoint.request`, up to its wait. */
    method CallRequest(sound: bool) returns (accepted: bool)
      requires entered
      modifies this
      ensures var p := Call(old(View()), sound); View() == p.worker && posted == old(posted) + p.messages
      ensures accepted ==> rpc == Some(old(nextRequest)) && nextRequest == old(nextRequest) + 1
    {
      if finished {
        posted := posted + [Failure];
        return false;
      }
      if aborted || !permitted || rpc.Some? || waiter { return false; }
      var id := nextRequest;
      nextRequest := nextRequest + 1;
      rpc := Some(id);
      posted := posted + [Request(id, sound)];
      return true;
    }

    /** The completion handlers of the bootstrap's run. */
    method Settle(returned: bool)
      requires booted && !finished && (entered || (aborted && !returned))
      modifies this
      ensures var p := if returned then Return(old(View())) else Throw(old(View()));
        View() == p.worker && posted == old(posted) + p.messages
    {
      if returned && !waiter && rpc.None? {
        finished, awaitingAck := true, true;
        posted := posted + [Done];
      } else {
        finished := true;
        if !aborted {
          threw := true;
          posted := posted + [Failure];
        } else {
          awaitingAck := true;
          posted := posted + [Done];
        }
      }
    }
  }
}
