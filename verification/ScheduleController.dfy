/** The schedule controller as a value: what each handler and operation does to
    the execution's state, under arbitrary worker messages and clock events. */
module ScheduleController {
  import opened Wrappers
  import opened ScheduleSpace

  datatype Phase = Starting | Parked | Running | Finishing | Finished

  datatype Actor = Actor(
    name: string, operation: string, phase: Phase, checkpoint: string,
    thread: Option<int>, exited: bool, reportedFinish: bool,
    pending: Option<nat>, requestId: nat)

  datatype Outcome =
    | Completed | InvalidSchedule | Cancelled | TimedOut | UnexpectedCheckpoint
    | UncontrolledActor | ApplicationFailed | ObservationFailed | ResourceFailed

  datatype Cleanup = NotStarted | Confirmed | Incomplete | TeardownFailed

  /** What the controller posts to a worker. */
  datatype Command = Permit | Cancel | Acknowledge | Reply(id: nat, failed: bool)

  /** What a worker posts to the controller; `sound` says that a request's input
      is bounded plain data. */
  datatype Message =
    | Ready(thread: int)
    | Arrival(checkpoint: string)
    | Request(id: int, sound: bool)
    | Done
    | Failure

  datatype EventKind = PermitEvent | ArrivalEvent

  datatype Event = Event(ordinal: nat, kind: EventKind, step: nat, actor: string, operation: string, checkpoint: string)

  datatype Observation = Observation(afterSteps: nat, state: string)

  /** Where the operation in progress is suspended, if any. */
  datatype Waiting = AtStart | Idle | ForArrival(actor: nat) | ForExit | ForTeardown

  datatype Plan = Plan(steps: seq<Step>, vocabulary: set<string>, answersRequests: bool)

  datatype Execution = Execution(
    plan: Plan,
    actors: seq<Actor>,
    outbox: seq<seq<Command>>,
    outcome: Outcome,
    scheduleCompleted: bool,
    cleanup: Cleanup,
    remaining: seq<string>,
    events: seq<Event>,
    observations: seq<Observation>,
    pendingRequests: int,
    next: nat,
    stopped: bool,
    closed: bool,
    evidenceBytes: nat,
    waiting: Waiting)

  const EVIDENCE_LIMIT := 8 * 1_048_576

  /** One call of the program's observer and what happened around it. */
  datatype Observed = Observed(state: string, bytes: nat, abortedMeanwhile: bool, threw: bool, late: bool)

  ghost predicate Shaped(e: Execution) {
    |e.outbox| == |e.actors| && (e.waiting.ForArrival? ==> e.waiting.actor < |e.actors|)
  }

  // ----- Posting and failing -----

  /** A port accepts messages once its worker exists and until it has exited. */
  predicate Open(a: Actor) {
    a.thread.Some? && !a.exited
  }

  function Post(e: Execution, i: nat, c: Command): (r: Execution)
    requires Shaped(e) && i < |e.actors|
    ensures Shaped(r) && |r.actors| == |e.actors|
  {
    if Open(e.actors[i]) then e.(outbox := e.outbox[i := e.outbox[i] + [c]]) else e
  }

  function PostAll(e: Execution, c: Command): (r: Execution)
    requires Shaped(e)
    ensures Shaped(r) && |r.actors| == |e.actors|
  {
    e.(outbox := seq(|e.outbox|, i requires 0 <= i < |e.outbox| =>
      if Open(e.actors[i]) then e.outbox[i] + [c] else e.outbox[i]))
  }

  /** Record the first failure and stop; nothing is posted yet. */
  function Halt(e: Execution, o: Outcome): (r: Execution) {
    e.(outcome := if e.outcome == Completed then o else e.outcome, stopped := true)
  }

  function Fail(e: Execution, o: Outcome): (r: Execution)
    requires Shaped(e)
    ensures Shaped(r) && |r.actors| == |e.actors|
  {
    PostAll(Halt(e, o), Cancel)
  }

  // ----- Messages from workers -----

  function SetActor(e: Execution, i: nat, a: Actor): (r: Execution)
    requires Shaped(e) && i < |e.actors|
    ensures Shaped(r) && |r.actors| == |e.actors|
  {
    e.(actors := e.actors[i := a])
  }

  predicate Owned(a: Actor) {
    a.phase == Running && a.pending.None?
  }

  /** A message no correct worker sends at this moment. */
  predicate Misplaced(e: Execution, i: nat, m: Message)
    requires i < |e.actors|
  {
    var a := e.actors[i];
    match m
    case Ready(thread) => a.phase != Starting || a.thread != Some(thread)
    case Arrival(_) => !e.stopped && !Owned(a)
    case Request(id, _) => !e.stopped && (!Owned(a) || id != a.requestId)
    case Done => !e.stopped && !Owned(a)
    case Failure => false
  }

  function OnReady(e: Execution, i: nat, thread: int): (r: Execution)
    requires Shaped(e) && i < |e.actors|
    ensures Shaped(r) && |r.actors| == |e.actors|
  {
    var a := e.actors[i];
    if a.phase != Starting || a.thread != Some(thread) then Fail(e, ApplicationFailed)
    else SetActor(e, i, a.(phase := Parked))
  }

  function OnArrival(e: Execution, i: nat, checkpoint: string): (r: Execution)
    requires Shaped(e) && i < |e.actors|
    ensures Shaped(r) && |r.actors| == |e.actors|
  {
    var a := e.actors[i];
    if e.stopped then e
    else if !Owned(a) then Fail(e, UncontrolledActor)
    else if !Identifier(checkpoint) || checkpoint !in e.plan.vocabulary then Fail(e, UnexpectedCheckpoint)
    else SetActor(e, i, a.(checkpoint := checkpoint, phase := Parked))
  }

  function OnDone(e: Execution, i: nat): (r: Execution)
    requires Shaped(e) && i < |e.actors|
    ensures Shaped(r) && |r.actors| == |e.actors|
  {
    var a := e.actors[i];
    if !e.stopped && !Owned(a) then Fail(e, ApplicationFailed)
    else
      SetActor(Post(e, i, Acknowledge), i,
               a.(reportedFinish := true, phase := Finishing, checkpoint := COMPLETION))
  }

  function OnRequest(e: Execution, i: nat, id: int, sound: bool): (r: Execution)
    requires Shaped(e) && i < |e.actors|
    ensures Shaped(r) && |r.actors| == |e.actors|
  {
    var a := e.actors[i];
    if e.stopped then e
    else if !Owned(a) then Fail(e, ApplicationFailed)
    else
      var counted := SetActor(e, i, a.(requestId := a.requestId + 1));
      if id != a.requestId || !e.plan.answersRequests || !sound then Fail(counted, ApplicationFailed)
      else
        SetActor(e, i, a.(requestId := a.requestId + 1, pending := Some(a.requestId)))
          .(pendingRequests := e.pendingRequests + 1)
  }

  function OnMessage(e: Execution, i: nat, m: Message): (r: Execution)
    requires Shaped(e) && i < |e.actors|
    ensures Shaped(r) && |r.actors| == |e.actors|
  {
    match m
    case Ready(thread) => OnReady(e, i, thread)
    case Arrival(checkpoint) => OnArrival(e, i, checkpoint)
    case Request(id, sound) => OnRequest(e, i, id, sound)
    case Done => OnDone(e, i)
    case Failure => if e.stopped then e else Fail(e, ApplicationFailed)
  }

  /** The program's answer to actor `i`'s request arrives, or fails. */
  function OnSettled(e: Execution, i: nat, failed: bool): (r: Execution)
    requires Shaped(e) && i < |e.actors|
    ensures Shaped(r) && |r.actors| == |e.actors|
  {
    var a := e.actors[i];
    if a.pending.None? then e
    else
      var replied := if e.stopped then e else Post(e, i, Reply(a.pending.value, failed));
      var halted := if failed && !e.stopped then Fail(replied, ApplicationFailed) else replied;
      SetActor(halted, i, a.(pending := None)).(pendingRequests := e.pendingRequests - 1)
  }

  /** A worker thread is gone; its port closes with it. */
  function OnExit(e: Execution, i: nat, code: int): (r: Execution)
    requires Shaped(e) && i < |e.actors|
    ensures Shaped(r) && |r.actors| == |e.actors|
  {
    var a := e.actors[i];
    if !Open(a) then e
    else
      var gone := SetActor(e, i, a.(exited := true));
      var judged := if !e.stopped && (code != 0 || !a.reportedFinish) then Fail(gone, ApplicationFailed) else gone;
      SetActor(judged, i, a.(exited := true, phase := Finished, checkpoint := COMPLETION))
  }

  // ----- Operations -----

  function Record(e: Execution, kind: EventKind, i: nat, bytes: nat): (r: Execution)
    requires Shaped(e) && i < |e.actors|
    ensures Shaped(r) && |r.actors| == |e.actors|
  {
    var a := e.actors[i];
    var row := Event(|e.events|, kind, e.next, a.name, a.operation, a.checkpoint);
    var charged := e.(evidenceBytes := e.evidenceBytes + bytes);
    if e.evidenceBytes + bytes > EVIDENCE_LIMIT then Fail(charged, ResourceFailed)
    else charged.(events := e.events + [row])
  }

  predicate Quiescent(e: Execution) {
    e.pendingRequests == 0 && forall i :: 0 <= i < |e.actors| ==> e.actors[i].phase in {Parked, Finished}
  }

  /** The observer's callback: a failure inside it is recorded but not announced. */
  function ObserverCall(e: Execution, o: Observed): Execution {
    var during := if o.abortedMeanwhile then Halt(e, Cancelled) else e;
    if o.threw then Halt(during, ObservationFailed)
    else if during.stopped then during
    else if o.late then Halt(during, TimedOut)
    else if e.evidenceBytes + o.bytes > EVIDENCE_LIMIT then Halt(during, ObservationFailed)
    else during.(evidenceBytes := e.evidenceBytes + o.bytes,
                 observations := e.observations + [Observation(e.next, o.state)])
  }

  /** Workers hear of a failure inside the callback only after it. */
  function Announce(e: Execution): (r: Execution)
    requires Shaped(e)
    ensures Shaped(r) && |r.actors| == |e.actors|
  {
    if e.stopped then PostAll(e, Cancel) else e
  }

  function Observe(e: Execution, o: Observed): (r: Execution)
    requires Shaped(e)
    ensures Shaped(r) && |r.actors| == |e.actors|
  {
    if e.stopped then e
    else if !Quiescent(e) then Fail(e, ObservationFailed)
    else Announce(ObserverCall(e, o))
  }

  /** Stop everything and wait for the workers to leave. */
  function BeginCleanup(e: Execution): (r: Execution)
    requires Shaped(e)
    ensures Shaped(r) && |r.actors| == |e.actors|
  {
    if e.closed then e.(waiting := Idle)
    else
      var settled := if e.outcome == Completed && !e.scheduleCompleted then Fail(e, Cancelled) else e;
      PostAll(settled.(stopped := true), Cancel).(waiting := ForExit)
  }

  function Remaining(actors: seq<Actor>): seq<string> {
    if actors == [] then []
    else (if Open(actors[0]) || actors[0].pending.Some? then [actors[0].name] else []) + Remaining(actors[1..])
  }

  /** The wait for exits ends: by the workers' leaving or by the clock. */
  function EndWait(e: Execution): (r: Execution)
    requires Shaped(e)
    ensures Shaped(r) && |r.actors| == |e.actors|
  {
    var left := Remaining(e.actors);
    if left != [] || e.pendingRequests != 0
    then e.(cleanup := Incomplete, remaining := left, waiting := Idle)
    else e.(closed := true, remaining := [], waiting := ForTeardown)
  }

  function TeardownDone(e: Execution, threw: bool): (r: Execution) {
    e.(cleanup := if threw then TeardownFailed else Confirmed, waiting := Idle)
  }

  /** What every operation does once its own work is over. */
  function Conclude(e: Execution): (r: Execution)
    requires Shaped(e)
    ensures Shaped(r) && |r.actors| == |e.actors|
  {
    var judged :=
      if !e.stopped && e.next == |e.plan.steps| then e.(scheduleCompleted := true) else e;
    if judged.stopped || judged.scheduleCompleted then BeginCleanup(judged) else judged.(waiting := Idle)
  }

  function IndexOf(actors: seq<Actor>, name: string): (k: nat)
    ensures k <= |actors| && (k < |actors| ==> actors[k].name == name)
  {
    if actors == [] then 0 else if actors[0].name == name then 0 else 1 + IndexOf(actors[1..], name)
  }

  datatype Clock = OnTime | Aborted | Late

  /** `advance`, up to the point where it waits for the permitted actor. */
  function Advance(e: Execution, step: Step, clock: Clock, bytes: nat): (r: Execution)
    requires Shaped(e)
    ensures Shaped(r) && |r.actors| == |e.actors|
  {
    if e.closed || e.stopped then e
    else if clock == Aborted then Conclude(Fail(e, Cancelled))
    else if clock == Late then Conclude(Fail(e, TimedOut))
    else if e.next >= |e.plan.steps| || step != e.plan.steps[e.next] then Conclude(Fail(e, InvalidSchedule))
    else
      var i := IndexOf(e.actors, step.actor);
      if i == |e.actors| then e
      else if e.actors[i].phase != Parked then Conclude(Fail(e, UnexpectedCheckpoint))
      else
        var recorded := Record(e, PermitEvent, i, bytes);
        if recorded.stopped then Conclude(recorded)
        else
          var running := SetActor(recorded, i, recorded.actors[i].(phase := Running));
          Post(running, i, Permit).(waiting := ForArrival(i))
  }

  /** Record where the permitted actor arrived and compare it with the schedule. */
  function Judge(e: Execution, i: nat, bytes: nat): (r: Execution)
    requires Shaped(e) && i < |e.actors|
    ensures Shaped(r) && |r.actors| == |e.actors|
  {
    var recorded := Record(e, ArrivalEvent, i, bytes);
    if e.next >= |e.plan.steps| || e.actors[i].checkpoint != e.plan.steps[e.next].checkpoint
    then Fail(recorded, UnexpectedCheckpoint) else recorded
  }

  /** Count a matching arrival and observe the program after it. */
  function Count(judged: Execution, o: Observed): (r: Execution)
    requires Shaped(judged)
    ensures Shaped(r) && |r.actors| == |judged.actors|
  {
    if judged.stopped then judged else Observe(judged.(next := judged.next + 1), o)
  }

  /** The permitted actor has arrived somewhere. */
  function Resume(e: Execution, i: nat, bytes: nat, o: Observed): (r: Execution)
    requires Shaped(e) && i < |e.actors|
    ensures Shaped(r) && |r.actors| == |e.actors|
  {
    Conclude(Count(Judge(e, i, bytes), o))
  }

  /** The deadline or the caller's signal ends a wait for progress. */
  function GiveUp(e: Execution, o: Outcome): (r: Execution)
    requires Shaped(e)
    ensures Shaped(r) && |r.actors| == |e.actors|
  {
    Conclude(if e.stopped then e else Fail(e, o))
  }

  // ----- Whole runs -----

  datatype Stimulus =
    | FromWorker(i: nat, m: Message)
    | Settled(i: nat, failed: bool)
    | Exits(i: nat, code: int)
    | WorkerError(i: nat)
    | Abort
    | AllParked(o: Observed)
    | Arrived(bytes: nat, o: Observed)
    | Expired(outcome: Outcome)
    | CallAdvance(step: Step, clock: Clock, bytes: nat)
    | CallFinish
    | CallCleanup
    | WaitOver
    | Teardown(threw: bool)

  /** One event in the controller's life. Events that cannot happen at this
      point (an operation while another is suspended, a wait that is not
      pending) change nothing. */
  function Handle(e: Execution, s: Stimulus): (r: Execution)
    requires Shaped(e)
    ensures Shaped(r) && |r.actors| == |e.actors|
  {
    match s
    case FromWorker(i, m) => if i < |e.actors| then OnMessage(e, i, m) else e
    case Settled(i, failed) => if i < |e.actors| then OnSettled(e, i, failed) else e
    case Exits(i, code) => if i < |e.actors| then OnExit(e, i, code) else e
    case WorkerError(i) => if i < |e.actors| then Fail(e, ApplicationFailed) else e
    case Abort => if e.closed then e else Fail(e, Cancelled)
    case AllParked(o) =>
      if e.waiting == AtStart && !e.stopped && forall i :: 0 <= i < |e.actors| ==> e.actors[i].phase == Parked
      then
        var seen := Observe(e, o);
        if seen.stopped then BeginCleanup(seen) else seen.(waiting := Idle)
      else e
    case Arrived(bytes, o) =>
      if e.waiting.ForArrival? && !e.stopped && e.actors[e.waiting.actor].phase in {Parked, Finished}
      then Resume(e, e.waiting.actor, bytes, o) else e
    case Expired(outcome) =>
      if (e.waiting.AtStart? || e.waiting.ForArrival?) && (e.stopped || outcome in {TimedOut, Cancelled})
      then GiveUp(e, outcome) else e
    case CallAdvance(step, clock, bytes) => if e.waiting == Idle then Advance(e, step, clock, bytes) else e
    case CallFinish =>
      if e.waiting == Idle && !e.closed
      then BeginCleanup(if e.next != |e.plan.steps| then Fail(e, InvalidSchedule) else e) else e
    case CallCleanup => if e.waiting == Idle then BeginCleanup(e) else e
    case WaitOver => if e.waiting == ForExit then EndWait(e) else e
    case Teardown(threw) => if e.waiting == ForTeardown then TeardownDone(e, threw) else e
  }
}
