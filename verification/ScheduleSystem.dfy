/** Controller and workers joined by one FIFO channel in each direction. */
module ScheduleSystem {
  import opened Wrappers
  import opened ScheduleSpace
  import opened ScheduleController
  import opened ScheduleSafety
  import opened ScheduleWorker

  /** Commands in flight are the controller's outboxes; `inbox` holds the
      messages in flight to the controller. */
  datatype System = System(control: Execution, workers: seq<Worker>, inbox: seq<seq<Message>>)

  datatype Event =
    | Boots(i: nat)
    | Hears(i: nat)                      // a worker takes its next command
    | Reports(i: nat)                    // the controller takes a worker's next message
    | Arrives(i: nat, name: string)
    | Calls(i: nat, sound: bool)
    | Returns(i: nat)
    | Throws(i: nat)
    | Leaves(i: nat)
    | ExitSeen(i: nat)                   // the controller sees the thread's exit
    | Controller(s: Stimulus)            // an event of the controller's own

  /** Messages and exits reach the controller only through the channels. */
  predicate Internal(s: Stimulus) {
    !s.FromWorker? && !s.Exits? && !s.WorkerError?
  }

  ghost predicate Sized(y: System) {
    Shaped(y.control) && |y.workers| == |y.inbox| == |y.control.actors|
  }

  function Act(y: System, i: nat, p: Posted): (r: System)
    requires Sized(y) && i < |y.workers|
    ensures Sized(r)
  {
    if y.workers[i].gone then y
    else y.(workers := y.workers[i := p.worker], inbox := y.inbox[i := y.inbox[i] + p.messages])
  }

  function Hear(y: System, i: nat): (r: System)
    requires Sized(y) && i < |y.workers|
    ensures Sized(r)
  {
    var q := y.control.outbox[i];
    if q == [] || y.workers[i].gone then y
    else y.(control := y.control.(outbox := y.control.outbox[i := q[1..]]),
            workers := y.workers[i := Receive(y.workers[i], q[0])])
  }

  function Report(y: System, i: nat): (r: System)
    requires Sized(y) && i < |y.workers|
    ensures Sized(r)
  {
    var m := y.inbox[i];
    if m == [] then y
    else
      var control := OnMessage(y.control, i, m[0]);
      y.(control := control, inbox := y.inbox[i := m[1..]])
  }

  function SeeExit(y: System, i: nat): (r: System)
    requires Sized(y) && i < |y.workers|
    ensures Sized(r)
  {
    if !y.workers[i].gone then y
    else y.(control := OnExit(y.control, i, ExitCode(y.workers[i])))
  }

  function WorkerStep(w: Worker, v: Event): Posted {
    match v
    case Boots(_) => Boot(w)
    case Arrives(_, name) => Arrive(w, name)
    case Calls(_, sound) => Call(w, sound)
    case Returns(_) => Return(w)
    case Throws(_) => Throw(w)
    case Leaves(_) => Quiet(Leave(w))
    case _ => Quiet(w)
  }

  function Control(y: System, s: Stimulus): (r: System)
    requires Sized(y)
    ensures Sized(r)
  {
    if Internal(s) then y.(control := Handle(y.control, s)) else y
  }

  function AtWorker(y: System, i: nat, v: Event): (r: System)
    requires Sized(y) && i < |y.workers|
    ensures Sized(r)
  {
    match v
    case Hears(_) => Hear(y, i)
    case Reports(_) => Report(y, i)
    case ExitSeen(_) => SeeExit(y, i)
    case _ => Act(y, i, WorkerStep(y.workers[i], v))
  }

  /** One event of the composed system. Events that cannot happen now change nothing. */
  function Next(y: System, v: Event): (r: System)
    requires Sized(y)
    ensures Sized(r)
  {
    if v.Controller? then Control(y, v.s)
    else if v.i < |y.workers| then AtWorker(y, v.i, v) else y
  }

  // ----- One link: an actor's record, its worker and the two channels -----

  ghost predicate NoOf(q: seq<Command>, c: Command) {
    forall k :: 0 <= k < |q| ==> q[k] != c
  }

  predicate Orders(c: Command) { c.Permit? || c.Reply? }

  /** The command that hands over or answers comes first or not at all. */
  ghost predicate OrderFirst(q: seq<Command>) {
    forall k :: 1 <= k < |q| ==> !Orders(q[k])
  }

  predicate HasPermit(q: seq<Command>) { q != [] && q[0].Permit? }

  predicate HasReply(q: seq<Command>) { q != [] && q[0].Reply? }

  /** How often a message or command is in flight matters only for these. */
  function Acks(q: seq<Command>): nat {
    if q == [] then 0 else (if q[0].Acknowledge? then 1 else 0) + Acks(q[1..])
  }

  function Dones(r: seq<Message>): nat {
    if r == [] then 0 else (if r[0].Done? then 1 else 0) + Dones(r[1..])
  }

  /** `ready` is only ever the first message in flight. */
  ghost predicate ReadyFirst(r: seq<Message>) {
    forall k :: 1 <= k < |r| ==> !r[k].Ready?
  }

  predicate HasReady(r: seq<Message>) { r != [] && r[0].Ready? }

  /** The first message in flight, unless it is only a failure report. */
  predicate Speaks(r: seq<Message>) { r != [] && !r[0].Failure? }

  ghost predicate OnlyFailuresAfter(r: seq<Message>) {
    forall k :: 1 <= k < |r| ==> r[k].Failure?
  }

  /** What holds of a link at all times. */
  ghost predicate Base(stopped: bool, a: Actor, w: Worker, q: seq<Command>, r: seq<Message>) {
    && !w.crashed
    && a.thread == Some(w.thread)
    && OrderFirst(q)
    && (HasPermit(q) ==> !w.aborted && (w.waiting || w.gone))
    && (HasReply(q) ==> !w.aborted && (w.rpc == Some(q[0].id) || w.gone))
    && (w.aborted ==> stopped)
    && (!stopped ==> NoOf(q, Cancel))
    && ReadyFirst(r)
    && (forall k :: 0 <= k < |r| && r[k].Ready? ==> r[k].thread == w.thread)
    && (HasReady(r) ==> w.booted)
    && (!w.booted ==> r == [] && !w.finished && !w.entered && !w.permitted && w.rpc.None? && !w.waiting && w.nextRequest == 0)
    && (!a.exited ==> (a.phase == Starting <==> (!w.booted || HasReady(r))))
    && (a.exited ==> w.gone && !HasReady(r))
    && (if w.awaitingAck then w.finished && Acks(q) + Dones(r) == 1 else Acks(q) + Dones(r) == 0)
    && (w.gone ==> w.finished && !w.awaitingAck)
    && (w.threw ==> w.finished && !w.awaitingAck)
    && (w.finished && !w.threw && !w.awaitingAck ==> a.reportedFinish)
    && (Acks(q) > 0 ==> a.reportedFinish)
    && (!w.finished ==> NoFailure(r))
    && (w.entered || HasPermit(q) || Acks(q) > 0 || (w.finished && !w.awaitingAck) ==> !HasReady(r))
  }

  ghost predicate NoFailure(r: seq<Message>) {
    forall k :: 0 <= k < |r| ==> !r[k].Failure?
  }

  /** Whose turn it is, as long as nothing has failed: exactly one of the two
      sides, or one message or command between them, holds the turn. */
  ghost predicate Turn(a: Actor, w: Worker, q: seq<Command>, r: seq<Message>) {
    && OnlyFailuresAfter(r)
    && (a.phase == Finished <==> a.exited)
    && (a.phase == Running || a.pending.None?)
    && match a.phase
       case Starting =>
         !w.entered && !w.finished && !w.permitted && w.rpc.None? && q == [] && w.nextRequest == a.requestId
         && (w.booted ==> w.waiting)
       case Parked =>
         w.booted && w.waiting && !w.permitted && w.rpc.None? && q == [] && !Speaks(r) && w.nextRequest == a.requestId
         && (w.finished ==> w.threw)
       case Running => RunningTurn(a, w, q, r)
       case Finishing =>
         w.finished && !w.threw && !Speaks(r) && w.rpc.None? && !w.waiting && (q == [] || q == [Acknowledge])
       case Finished => !Speaks(r)
  }

  ghost predicate RunningTurn(a: Actor, w: Worker, q: seq<Command>, r: seq<Message>)
  {
    && w.booted
    && if HasPermit(q) then
         |q| == 1 && w.waiting && !w.permitted && w.rpc.None? && a.pending.None? && !Speaks(r)
         && w.nextRequest == a.requestId && (w.finished ==> w.threw)
       else if HasReply(q) then
         |q| == 1 && w.entered && w.permitted && !w.waiting && a.pending.None? && !Speaks(r)
         && w.nextRequest == a.requestId && (w.finished ==> w.threw)
       else if Speaks(r) then
         && q == [] && w.entered && a.pending.None?
         && match r[0] {
            case Arrival(_) => w.waiting && !w.permitted && w.rpc.None? && w.nextRequest == a.requestId && (w.finished ==> w.threw)
            case Request(id, _) =>
              w.permitted && !w.waiting && id == a.requestId && w.rpc == Some(a.requestId) && w.nextRequest == a.requestId + 1
              && (w.finished ==> w.threw)
            case Done => w.finished && !w.threw && w.rpc.None? && !w.waiting
            case _ => false
          }
       else
         && q == [] && w.entered && w.permitted && !w.waiting && w.nextRequest == a.requestId
         && (w.finished ==> w.threw)
         && (if a.pending.Some? then w.rpc == a.pending && a.pending.value + 1 == a.requestId else w.rpc.None?)
  }

  ghost predicate Link(stopped: bool, a: Actor, w: Worker, q: seq<Command>, r: seq<Message>) {
    Base(stopped, a, w, q, r) && (!stopped ==> Turn(a, w, q, r))
  }

  ghost predicate Joined(y: System) {
    && Sized(y) && Inv(y.control)
    && forall i :: 0 <= i < |y.workers| ==> LinkAt(y, i)
  }

  ghost predicate LinkAt(y: System, i: nat)
    requires Sized(y) && i < |y.workers|
  {
    Link(y.control.stopped, y.control.actors[i], y.workers[i], y.control.outbox[i], y.inbox[i])
  }

  // ----- No link ever breaks the protocol -----

  lemma {:induction false} LinkPlacesMessages(e: Execution, i: nat, w: Worker, q: seq<Command>, r: seq<Message>)
    requires Shaped(e) && i < |e.actors| && Link(e.stopped, e.actors[i], w, q, r) && r != []
    ensures !Misplaced(e, i, r[0])
  {
  }

  lemma {:induction false} LinkAllowsCommand(stopped: bool, a: Actor, w: Worker, q: seq<Command>, r: seq<Message>)
    requires Link(stopped, a, w, q, r) && q != [] && !w.gone
    ensures !Receive(w, q[0]).crashed
  {
  }

  // ----- Every worker step keeps its link -----

  lemma {:induction false} AcksAppend(q: seq<Command>, c: Command)
    ensures Acks(q + [c]) == Acks(q) + (if c.Acknowledge? then 1 else 0)
  {
    if q != [] {
      AcksAppend(q[1..], c);
      assert (q + [c])[1..] == q[1..] + [c];
    }
  }

  lemma {:induction false} DonesAppend(r: seq<Message>, m: Message)
    ensures Dones(r + [m]) == Dones(r) + (if m.Done? then 1 else 0)
  {
    if r != [] {
      DonesAppend(r[1..], m);
      assert (r + [m])[1..] == r[1..] + [m];
    }
  }

  lemma {:induction false} BootKeeps(stopped: bool, a: Actor, w: Worker, q: seq<Command>, r: seq<Message>)
    requires Link(stopped, a, w, q, r) && !w.gone
    ensures Link(stopped, a, Boot(w).worker, q, r + Boot(w).messages)
  {
    assert r + [] == r;
  }

  lemma {:induction false} ArriveKeeps(stopped: bool, a: Actor, w: Worker, q: seq<Command>, r: seq<Message>, name: string)
    requires Link(stopped, a, w, q, r) && !w.gone
    ensures Link(stopped, a, Arrive(w, name).worker, q, r + Arrive(w, name).messages)
  {
    assert r + [] == r;
    DonesAppend(r, Failure);
    DonesAppend(r, Arrival(name));
  }

  lemma {:induction false} CallKeeps(stopped: bool, a: Actor, w: Worker, q: seq<Command>, r: seq<Message>, sound: bool)
    requires Link(stopped, a, w, q, r) && !w.gone
    ensures Link(stopped, a, Call(w, sound).worker, q, r + Call(w, sound).messages)
  {
    assert r + [] == r;
    DonesAppend(r, Failure);
    DonesAppend(r, Request(w.nextRequest, sound));
  }

  lemma {:induction false} RejectKeeps(stopped: bool, a: Actor, w: Worker, q: seq<Command>, r: seq<Message>)
    requires Link(stopped, a, w, q, r) && !w.gone && w.booted && !w.finished && (w.entered || w.aborted)
    ensures Link(stopped, a, Rejected(w).worker, q, r + Rejected(w).messages)
  {
    DonesAppend(r, Failure);
    DonesAppend(r, Done);
  }

  lemma {:induction false} ReturnKeeps(stopped: bool, a: Actor, w: Worker, q: seq<Command>, r: seq<Message>)
    requires Link(stopped, a, w, q, r) && !w.gone
    ensures Link(stopped, a, Return(w).worker, q, r + Return(w).messages)
  {
    assert r + [] == r;
    DonesAppend(r, Done);
    if w.entered && !w.finished && (w.waiting || w.rpc.Some?) {
      RejectKeeps(stopped, a, w, q, r);
    }
  }

  lemma {:induction false} ThrowKeeps(stopped: bool, a: Actor, w: Worker, q: seq<Command>, r: seq<Message>)
    requires Link(stopped, a, w, q, r) && !w.gone
    ensures Link(stopped, a, Throw(w).worker, q, r + Throw(w).messages)
  {
    assert r + [] == r;
    if w.booted && !w.finished && (w.entered || w.aborted) {
      RejectKeeps(stopped, a, w, q, r);
    }
  }

  lemma {:induction false} WorkerStepKeeps(stopped: bool, a: Actor, w: Worker, q: seq<Command>, r: seq<Message>, v: Event)
    requires Link(stopped, a, w, q, r) && !w.gone
    ensures Link(stopped, a, WorkerStep(w, v).worker, q, r + WorkerStep(w, v).messages)
  {
    assert r + [] == r;
    match v
    case Boots(_) => BootKeeps(stopped, a, w, q, r);
    case Arrives(_, name) => ArriveKeeps(stopped, a, w, q, r, name);
    case Calls(_, sound) => CallKeeps(stopped, a, w, q, r, sound);
    case Returns(_) => ReturnKeeps(stopped, a, w, q, r);
    case Throws(_) => ThrowKeeps(stopped, a, w, q, r);
    case _ =>
  }

  /** Taking a command other than the one that hands over the turn. */
  lemma {:induction false} HearNoticeKeeps(stopped: bool, a: Actor, w: Worker, q: seq<Command>, r: seq<Message>)
    requires Link(stopped, a, w, q, r) && !w.gone && q != [] && !Orders(q[0])
    ensures Link(stopped, a, Receive(w, q[0]), q[1..], r)
  {
    LinkAllowsCommand(stopped, a, w, q, r);
    assert Acks(q) == (if q[0].Acknowledge? then 1 else 0) + Acks(q[1..]);
  }

  /** Taking the permit or the reply passes the turn to the application. */
  lemma {:induction false} HearOrderKeeps(stopped: bool, a: Actor, w: Worker, q: seq<Command>, r: seq<Message>)
    requires Link(stopped, a, w, q, r) && !w.gone && q != [] && Orders(q[0])
    ensures Link(stopped, a, Receive(w, q[0]), q[1..], r)
  {
    LinkAllowsCommand(stopped, a, w, q, r);
    assert Acks(q) == Acks(q[1..]);
  }

  // ----- Every controller step keeps every link -----

  /** The outbox may only have gained cancellations. */
  ghost predicate Cancels(q: seq<Command>, p: seq<Command>) {
    q <= p && forall k :: |q| <= k < |p| ==> p[k] == Cancel
  }

  lemma {:induction false} AcksCancels(q: seq<Command>, p: seq<Command>)
    requires Cancels(q, p)
    ensures Acks(p) == Acks(q)
    decreases |p|
  {
    if |p| > |q| {
      var s := p[..|p| - 1];
      assert p == s + [Cancel];
      AcksAppend(s, Cancel);
      AcksCancels(q, s);
    } else {
      assert p == q;
    }
  }

  /** A step that leaves an actor alone, apart from cancelling it. */
  ghost predicate Untouched(e: Execution, f: Execution, j: nat)
    requires Shaped(e) && Shaped(f) && |f.actors| == |e.actors| && j < |e.actors|
  {
    && f.actors[j] == e.actors[j] && Cancels(e.outbox[j], f.outbox[j])
    && (e.stopped ==> f.stopped)
    && (f.outbox[j] == e.outbox[j] || f.stopped)
  }

  lemma {:induction false} UntouchedLink(e: Execution, f: Execution, j: nat, w: Worker, r: seq<Message>)
    requires Shaped(e) && Shaped(f) && |f.actors| == |e.actors| && j < |e.actors|
    requires Untouched(e, f, j)
    requires Link(e.stopped, e.actors[j], w, e.outbox[j], r)
    ensures Link(f.stopped, f.actors[j], w, f.outbox[j], r)
  {
    AcksCancels(e.outbox[j], f.outbox[j]);
  }

  lemma {:induction false} UntouchedTransitive(e: Execution, f: Execution, g: Execution, j: nat)
    requires Shaped(e) && Shaped(f) && |f.actors| == |e.actors| && j < |e.actors|
    requires Shaped(g) && |g.actors| == |f.actors|
    requires Untouched(e, f, j) && Untouched(f, g, j)
    ensures Untouched(e, g, j)
  {
  }

  lemma {:induction false} FailUntouched(e: Execution, o: Outcome, j: nat)
    requires Shaped(e) && j < |e.actors|
    ensures Untouched(e, Fail(e, o), j)
  {
  }

  lemma {:induction false} CleanupUntouched(e: Execution, j: nat)
    requires Shaped(e) && j < |e.actors| && (e.closed ==> e.stopped)
    ensures Untouched(e, BeginCleanup(e), j)
  {
  }

  lemma {:induction false} ConcludeUntouched(e: Execution, j: nat)
    requires Shaped(e) && j < |e.actors| && (e.closed ==> e.stopped)
    ensures Untouched(e, Conclude(e), j)
  {
    var judged := if !e.stopped && e.next == |e.plan.steps| then e.(scheduleCompleted := true) else e;
    CleanupUntouched(judged, j);
  }

  lemma {:induction false} ObserveUntouched(e: Execution, o: Observed, j: nat)
    requires Shaped(e) && j < |e.actors|
    ensures Untouched(e, Observe(e, o), j) && Observe(e, o).closed == e.closed
  {
    FailUntouched(e, ObservationFailed, j);
    assert ObserverCall(e, o).actors == e.actors && ObserverCall(e, o).outbox == e.outbox;
  }

  lemma {:induction false} RecordUntouched(e: Execution, kind: EventKind, i: nat, bytes: nat, j: nat)
    requires Shaped(e) && i < |e.actors| && j < |e.actors|
    ensures Untouched(e, Record(e, kind, i, bytes), j) && Record(e, kind, i, bytes).closed == e.closed
  {
  }

  lemma {:induction false} JudgeUntouched(e: Execution, i: nat, bytes: nat, j: nat)
    requires Shaped(e) && i < |e.actors| && j < |e.actors|
    ensures Untouched(e, Judge(e, i, bytes), j) && Judge(e, i, bytes).closed == e.closed
  {
    var recorded := Record(e, ArrivalEvent, i, bytes);
    RecordUntouched(e, ArrivalEvent, i, bytes, j);
    FailUntouched(recorded, UnexpectedCheckpoint, j);
    UntouchedTransitive(e, recorded, Fail(recorded, UnexpectedCheckpoint), j);
  }

  lemma {:induction false} CountUntouched(e: Execution, o: Observed, j: nat)
    requires Shaped(e) && j < |e.actors|
    ensures Untouched(e, Count(e, o), j) && Count(e, o).closed == e.closed
  {
    if !e.stopped {
      var n := e.(next := e.next + 1);
      assert n.actors == e.actors && n.outbox == e.outbox && n.stopped == e.stopped && n.closed == e.closed;
      ObserveUntouched(n, o, j);
    }
  }

  lemma {:induction false} ResumeUntouched(e: Execution, i: nat, bytes: nat, o: Observed, j: nat)
    requires Shaped(e) && i < |e.actors| && j < |e.actors| && !e.closed
    ensures Untouched(e, Resume(e, i, bytes, o), j)
  {
    var judged := Judge(e, i, bytes);
    JudgeUntouched(e, i, bytes, j);
    CountUntouched(judged, o, j);
    UntouchedTransitive(e, judged, Count(judged, o), j);
    ConcludeUntouched(Count(judged, o), j);
    UntouchedTransitive(e, Count(judged, o), Conclude(Count(judged, o)), j);
  }

  lemma {:induction false} FailConcludeUntouched(e: Execution, o: Outcome, j: nat)
    requires Shaped(e) && j < |e.actors| && (e.closed ==> e.stopped)
    ensures Untouched(e, Conclude(Fail(e, o)), j)
  {
    FailUntouched(e, o, j);
    ConcludeUntouched(Fail(e, o), j);
    UntouchedTransitive(e, Fail(e, o), Conclude(Fail(e, o)), j);
  }

  // ----- The controller's own events -----

  lemma {:induction false} GiveUpUntouched(e: Execution, outcome: Outcome, j: nat)
    requires Inv(e) && j < |e.actors|
    ensures Untouched(e, GiveUp(e, outcome), j)
  {
    if e.stopped { ConcludeUntouched(e, j); } else { FailConcludeUntouched(e, outcome, j); }
  }

  lemma {:induction false} FailCleanupUntouched(e: Execution, j: nat)
    requires Inv(e) && j < |e.actors|
    ensures Untouched(e, BeginCleanup(Fail(e, InvalidSchedule)), j)
  {
    FailUntouched(e, InvalidSchedule, j);
    CleanupUntouched(Fail(e, InvalidSchedule), j);
    UntouchedTransitive(e, Fail(e, InvalidSchedule), BeginCleanup(Fail(e, InvalidSchedule)), j);
  }

  lemma {:induction false} ObservedUntouched(e: Execution, o: Observed, j: nat)
    requires Inv(e) && j < |e.actors|
    ensures Untouched(e, Observe(e, o), j)
    ensures Observe(e, o).stopped ==> Untouched(e, BeginCleanup(Observe(e, o)), j)
  {
    var seen := Observe(e, o);
    ObserveUntouched(e, o, j);
    if seen.stopped {
      CleanupUntouched(seen, j);
      UntouchedTransitive(e, seen, BeginCleanup(seen), j);
    }
  }

  /** Everything except a reply and a permit leaves every actor alone. */
  lemma {:induction false} QuietUntouched(e: Execution, s: Stimulus, j: nat)
    requires Inv(e) && j < |e.actors| && Internal(s) && !s.Settled? && !s.CallAdvance?
    ensures Untouched(e, Handle(e, s), j)
  {
    match s
    case Abort => FailUntouched(e, Cancelled, j);
    case AllParked(o) =>
      ObservedUntouched(e, o, j);
    case Arrived(bytes, o) =>
      if e.waiting.ForArrival? && !e.stopped {
        ResumeUntouched(e, e.waiting.actor, bytes, o, j);
      }
    case Expired(outcome) =>
      GiveUpUntouched(e, outcome, j);
    case CallFinish =>
      FailCleanupUntouched(e, j);
      CleanupUntouched(e, j);
    case CallCleanup => CleanupUntouched(e, j);
    case WaitOver =>
    case Teardown(threw) =>
  }

  lemma {:induction false} SettledLink(e: Execution, i: nat, failed: bool, w: Worker, r: seq<Message>)
    requires Shaped(e) && i < |e.actors|
    requires Link(e.stopped, e.actors[i], w, e.outbox[i], r)
    ensures var f := OnSettled(e, i, failed); Link(f.stopped, f.actors[i], w, f.outbox[i], r)
  {
    var a := e.actors[i];
    if a.pending.Some? && !e.stopped {
      RepliedLink(a, w, e.outbox[i], r, failed);
      SettledShape(e, i, failed, w, r);
      if failed { FailedReplyLink(a.(pending := None), w, [Reply(a.pending.value, failed)], r); }
    }
  }

  lemma {:induction false} FailedReplyLink(a: Actor, w: Worker, q: seq<Command>, r: seq<Message>)
    requires Link(false, a, w, q, r)
    ensures Link(true, a, w, q + [Cancel], r)
  {
    StoppedLink(a, w, q, q + [Cancel], r);
  }

  lemma {:induction false} SettledShape(e: Execution, i: nat, failed: bool, w: Worker, r: seq<Message>)
    requires Shaped(e) && i < |e.actors| && !e.stopped && e.actors[i].pending.Some? && e.outbox[i] == []
    requires Link(e.stopped, e.actors[i], w, e.outbox[i], r)
    ensures var f, p := OnSettled(e, i, failed), e.actors[i].pending.value;
      && f.stopped == failed && f.actors[i] == e.actors[i].(pending := None)
      && f.outbox[i] == if failed then [Reply(p, failed)] + [Cancel] else [Reply(p, failed)]
  {
  }

  /** The reply puts the turn on its way back to the application. */
  lemma {:induction false} RepliedLink(a: Actor, w: Worker, q: seq<Command>, r: seq<Message>, failed: bool)
    requires Link(false, a, w, q, r) && a.pending.Some?
    ensures q == [] && Link(false, a.(pending := None), w, [Reply(a.pending.value, failed)], r)
  {
  }

  lemma {:induction false} SettledUntouched(e: Execution, i: nat, failed: bool, j: nat)
    requires Shaped(e) && i < |e.actors| && j < |e.actors| && i != j
    ensures Untouched(e, OnSettled(e, i, failed), j)
  {
  }

  /** The state `advance` leaves when it has permitted an actor. */
  lemma {:induction false} PermitLink(a: Actor, w: Worker, r: seq<Message>, q: seq<Command>)
    requires Link(false, a, w, q, r) && a.phase == Parked
    ensures q == [] && Link(false, a.(phase := Running), w, q + [Permit], r)
  {
  }

  lemma {:induction false} AdvanceLinks(e: Execution, step: Step, clock: Clock, bytes: nat, j: nat, w: Worker, r: seq<Message>)
    requires Inv(e) && j < |e.actors| && e.waiting == Idle
    requires Link(e.stopped, e.actors[j], w, e.outbox[j], r)
    ensures var f := Advance(e, step, clock, bytes); Link(f.stopped, f.actors[j], w, f.outbox[j], r)
  {
    var f := Advance(e, step, clock, bytes);
    if e.closed || e.stopped {
    } else if clock == Aborted {
      FailConcludeUntouched(e, Cancelled, j);
      UntouchedLink(e, f, j, w, r);
    } else if clock == Late {
      FailConcludeUntouched(e, TimedOut, j);
      UntouchedLink(e, f, j, w, r);
    } else if e.next >= |e.plan.steps| || step != e.plan.steps[e.next] {
      FailConcludeUntouched(e, InvalidSchedule, j);
      UntouchedLink(e, f, j, w, r);
    } else if IndexOf(e.actors, step.actor) < |e.actors| {
      PermittedLinks(e, IndexOf(e.actors, step.actor), bytes, j, w, r);
    }
  }

  lemma {:induction false} PermittedLinks(e: Execution, i: nat, bytes: nat, j: nat, w: Worker, r: seq<Message>)
    requires Inv(e) && j < |e.actors| && i < |e.actors| && e.waiting == Idle && !e.stopped
    requires Link(e.stopped, e.actors[j], w, e.outbox[j], r)
    ensures var recorded := Record(e, PermitEvent, i, bytes);
            var f := if e.actors[i].phase != Parked then Conclude(Fail(e, UnexpectedCheckpoint))
                     else if recorded.stopped then Conclude(recorded)
                     else Post(SetActor(recorded, i, recorded.actors[i].(phase := Running)), i, Permit).(waiting := ForArrival(i));
            Link(f.stopped, f.actors[j], w, f.outbox[j], r)
  {
    var recorded := Record(e, PermitEvent, i, bytes);
    RecordUntouched(e, PermitEvent, i, bytes, j);
    if e.actors[i].phase != Parked {
      FailConcludeUntouched(e, UnexpectedCheckpoint, j);
      UntouchedLink(e, Conclude(Fail(e, UnexpectedCheckpoint)), j, w, r);
    } else if recorded.stopped {
      ConcludeUntouched(recorded, j);
      UntouchedTransitive(e, recorded, Conclude(recorded), j);
      UntouchedLink(e, Conclude(recorded), j, w, r);
    } else if i == j {
      PermitLink(e.actors[j], w, r, e.outbox[j]);
    }
  }

  // ----- Reports and exits -----

  lemma {:induction false} ArrivalUntouched(e: Execution, i: nat, thread: int, checkpoint: string, j: nat)
    requires Shaped(e) && i < |e.actors| && j < |e.actors| && i != j
    ensures Untouched(e, OnReady(e, i, thread), j)
    ensures Untouched(e, OnArrival(e, i, checkpoint), j)
  {
  }

  lemma {:induction false} RequestUntouched(e: Execution, i: nat, id: int, sound: bool, j: nat)
    requires Shaped(e) && i < |e.actors| && j < |e.actors| && i != j
    ensures Untouched(e, OnRequest(e, i, id, sound), j)
  {
  }

  lemma {:induction false} DoneUntouched(e: Execution, i: nat, j: nat)
    requires Shaped(e) && i < |e.actors| && j < |e.actors| && i != j
    ensures Untouched(e, OnDone(e, i), j)
  {
  }

  lemma {:induction false} ReportUntouched(e: Execution, i: nat, m: Message, j: nat)
    requires Shaped(e) && i < |e.actors| && j < |e.actors| && i != j
    ensures Untouched(e, OnMessage(e, i, m), j)
  {
    match m
    case Ready(thread) => ArrivalUntouched(e, i, thread, "", j);
    case Arrival(checkpoint) => ArrivalUntouched(e, i, 0, checkpoint, j);
    case Request(id, sound) => RequestUntouched(e, i, id, sound, j);
    case Done => DoneUntouched(e, i, j);
    case Failure => FailUntouched(e, ApplicationFailed, j);
  }

  lemma {:induction false} ExitUntouched(e: Execution, i: nat, code: int, j: nat)
    requires Shaped(e) && i < |e.actors| && j < |e.actors| && i != j
    ensures Untouched(e, OnExit(e, i, code), j)
  {
  }

  /** A link whose controller has stopped needs only its base. */
  lemma {:induction false} StoppedLink(a: Actor, w: Worker, q: seq<Command>, p: seq<Command>, r: seq<Message>)
    requires Base(true, a, w, q, r) && Cancels(q, p)
    ensures Link(true, a, w, p, r)
  {
    AcksCancels(q, p);
  }

  lemma {:induction false} ReportLink(e: Execution, i: nat, w: Worker, r: seq<Message>)
    requires Shaped(e) && i < |e.actors| && r != []
    requires Link(e.stopped, e.actors[i], w, e.outbox[i], r)
    ensures var f := OnMessage(e, i, r[0]); Link(f.stopped, f.actors[i], w, f.outbox[i], r[1..])
  {
    LinkPlacesMessages(e, i, w, e.outbox[i], r);
    assert Dones(r) == (if r[0].Done? then 1 else 0) + Dones(r[1..]);
    match r[0]
    case Ready(thread) => ReadyLink(e, i, w, r);
    case Arrival(checkpoint) => ArrivalLink(e, i, w, r);
    case Request(id, sound) => RequestLink(e, i, w, r);
    case Done => DoneLink(e, i, w, r);
    case Failure => FailureLink(e, i, w, r);
  }

  ghost predicate Reporting(e: Execution, i: nat, w: Worker, r: seq<Message>) {
    && Shaped(e) && i < |e.actors| && r != []
    && Link(e.stopped, e.actors[i], w, e.outbox[i], r)
    && !Misplaced(e, i, r[0])
    && Dones(r) == (if r[0].Done? then 1 else 0) + Dones(r[1..])
  }

  lemma {:induction false} ReadyLink(e: Execution, i: nat, w: Worker, r: seq<Message>)
    requires Reporting(e, i, w, r) && r[0].Ready?
    ensures var f := OnMessage(e, i, r[0]); Link(f.stopped, f.actors[i], w, f.outbox[i], r[1..])
  {
  }

  lemma {:induction false} ArrivalLink(e: Execution, i: nat, w: Worker, r: seq<Message>)
    requires Reporting(e, i, w, r) && r[0].Arrival?
    ensures var f := OnMessage(e, i, r[0]); Link(f.stopped, f.actors[i], w, f.outbox[i], r[1..])
  {
    var f := OnMessage(e, i, r[0]);
    if f.stopped {
      StoppedLink(e.actors[i], w, e.outbox[i], f.outbox[i], r[1..]);
    }
  }

  lemma {:induction false} RequestLink(e: Execution, i: nat, w: Worker, r: seq<Message>)
    requires Reporting(e, i, w, r) && r[0].Request?
    ensures var f := OnMessage(e, i, r[0]); Link(f.stopped, f.actors[i], w, f.outbox[i], r[1..])
  {
    var f := OnMessage(e, i, r[0]);
    if f.stopped {
      StoppedLink(f.actors[i], w, e.outbox[i], f.outbox[i], r[1..]);
    }
  }

  lemma {:induction false} DoneLink(e: Execution, i: nat, w: Worker, r: seq<Message>)
    requires Reporting(e, i, w, r) && r[0].Done?
    ensures var f := OnMessage(e, i, r[0]); Link(f.stopped, f.actors[i], w, f.outbox[i], r[1..])
  {
    AcksAppend(e.outbox[i], Acknowledge);
  }

  lemma {:induction false} FailureLink(e: Execution, i: nat, w: Worker, r: seq<Message>)
    requires Reporting(e, i, w, r) && r[0].Failure?
    ensures var f := OnMessage(e, i, r[0]); Link(f.stopped, f.actors[i], w, f.outbox[i], r[1..])
  {
    var f := OnMessage(e, i, r[0]);
    StoppedLink(e.actors[i], w, e.outbox[i], f.outbox[i], r[1..]);
  }

  lemma {:induction false} ExitLink(e: Execution, i: nat, w: Worker, r: seq<Message>)
    requires Shaped(e) && i < |e.actors| && w.gone
    requires Link(e.stopped, e.actors[i], w, e.outbox[i], r)
    ensures var f := OnExit(e, i, ExitCode(w)); Link(f.stopped, f.actors[i], w, f.outbox[i], r)
  {
    var f := OnExit(e, i, ExitCode(w));
    if f.stopped && Open(e.actors[i]) {
      StoppedLink(f.actors[i], w, e.outbox[i], f.outbox[i], r);
    }
  }

  // ----- The composition -----

  /** Workers created and nothing said yet. */
  ghost predicate Begins(y: System) {
    && Sized(y) && Initial(y.control)
    && forall i :: 0 <= i < |y.workers| ==> BeginsAt(y, i)
  }

  ghost predicate BeginsAt(y: System, i: nat)
    requires Sized(y) && i < |y.workers|
  {
    && y.control.actors[i].thread.Some?
    && y.workers[i] == NewWorker(y.control.actors[i].thread.value)
    && y.control.outbox[i] == [] && y.inbox[i] == []
  }

  lemma {:induction false} BeginsJoined(y: System)
    requires Begins(y)
    ensures Joined(y)
  {
    InitialInv(y.control);
    forall i | 0 <= i < |y.workers| ensures LinkAt(y, i) {
      assert BeginsAt(y, i) && Fresh(y.control.actors[i]);
    }
  }

  /** The controller's own events keep every link. */
  lemma {:induction false} ControlKeepsLink(y: System, s: Stimulus, j: nat)
    requires Joined(y) && j < |y.workers| && Internal(s)
    ensures LinkAt(Control(y, s), j)
  {
    assert LinkAt(y, j);
    if s.Settled? {
      SettledKeepsLink(y.control, s, j, y.workers[j], y.inbox[j]);
    } else if s.CallAdvance? {
      AdvanceKeepsLink(y.control, s, j, y.workers[j], y.inbox[j]);
    } else {
      QuietUntouched(y.control, s, j);
      UntouchedLink(y.control, Handle(y.control, s), j, y.workers[j], y.inbox[j]);
    }
  }

  lemma {:induction false} SettledKeepsLink(e: Execution, s: Stimulus, j: nat, w: Worker, r: seq<Message>)
    requires Shaped(e) && j < |e.actors| && s.Settled?
    requires Link(e.stopped, e.actors[j], w, e.outbox[j], r)
    ensures var f := Handle(e, s); Link(f.stopped, f.actors[j], w, f.outbox[j], r)
  {
    if s.i == j {
      SettledLink(e, s.i, s.failed, w, r);
    } else if s.i < |e.actors| {
      SettledUntouched(e, s.i, s.failed, j);
      UntouchedLink(e, OnSettled(e, s.i, s.failed), j, w, r);
    }
  }

  lemma {:induction false} AdvanceKeepsLink(e: Execution, s: Stimulus, j: nat, w: Worker, r: seq<Message>)
    requires Inv(e) && j < |e.actors| && s.CallAdvance?
    requires Link(e.stopped, e.actors[j], w, e.outbox[j], r)
    ensures var f := Handle(e, s); Link(f.stopped, f.actors[j], w, f.outbox[j], r)
  {
    if e.waiting == Idle {
      AdvanceLinks(e, s.step, s.clock, s.bytes, j, w, r);
    }
  }

  lemma {:induction false} HearsKeepsLink(y: System, j: nat)
    requires Joined(y) && j < |y.workers|
    ensures LinkAt(Hear(y, j), j)
  {
    assert LinkAt(y, j);
    var q := y.control.outbox[j];
    if q != [] && !y.workers[j].gone {
      if Orders(q[0]) {
        HearOrderKeeps(y.control.stopped, y.control.actors[j], y.workers[j], q, y.inbox[j]);
      } else {
        HearNoticeKeeps(y.control.stopped, y.control.actors[j], y.workers[j], q, y.inbox[j]);
      }
    }
  }

  lemma {:induction false} ReportsKeepsLink(y: System, i: nat, j: nat)
    requires Joined(y) && i < |y.workers| && j < |y.workers|
    ensures LinkAt(Report(y, i), j)
  {
    assert LinkAt(y, j);
    if y.inbox[i] != [] {
      if i == j {
        ReportLink(y.control, i, y.workers[i], y.inbox[i]);
      } else {
        ReportUntouched(y.control, i, y.inbox[i][0], j);
        UntouchedLink(y.control, OnMessage(y.control, i, y.inbox[i][0]), j, y.workers[j], y.inbox[j]);
      }
    }
  }

  lemma {:induction false} ExitKeepsLink(y: System, i: nat, j: nat)
    requires Joined(y) && i < |y.workers| && j < |y.workers|
    ensures LinkAt(SeeExit(y, i), j)
  {
    assert LinkAt(y, j);
    if y.workers[i].gone {
      if i == j {
        ExitLink(y.control, i, y.workers[i], y.inbox[i]);
      } else {
        ExitUntouched(y.control, i, ExitCode(y.workers[i]), j);
        UntouchedLink(y.control, OnExit(y.control, i, ExitCode(y.workers[i])), j, y.workers[j], y.inbox[j]);
      }
    }
  }

  lemma {:induction false} StepKeepsLink(y: System, v: Event, j: nat)
    requires Joined(y) && j < |y.workers|
    ensures LinkAt(Act(y, j, WorkerStep(y.workers[j], v)), j)
  {
    assert LinkAt(y, j);
    if !y.workers[j].gone {
      WorkerStepKeeps(y.control.stopped, y.control.actors[j], y.workers[j], y.control.outbox[j], y.inbox[j], v);
    }
  }

  /** An event at a worker changes that worker and its channels; another link
      notices it only through the controller. */
  lemma {:induction false} WorkerKeepsLink(y: System, i: nat, v: Event, j: nat)
    requires Joined(y) && i < |y.workers| && j < |y.workers|
    ensures LinkAt(AtWorker(y, i, v), j)
  {
    assert LinkAt(y, j);
    if v.Reports? {
      ReportsKeepsLink(y, i, j);
    } else if v.ExitSeen? {
      ExitKeepsLink(y, i, j);
    } else if i == j {
      if v.Hears? { HearsKeepsLink(y, j); } else { StepKeepsLink(y, v, j); }
    }
  }

  lemma {:induction false} NextKeepsLink(y: System, v: Event, j: nat)
    requires Joined(y) && j < |y.workers|
    ensures LinkAt(Next(y, v), j)
  {
    assert LinkAt(y, j);
    if v.Controller? {
      if Internal(v.s) { ControlKeepsLink(y, v.s, j); }
    } else if v.i < |y.workers| {
      WorkerKeepsLink(y, v.i, v, j);
    }
  }

  /** Taking a command out of a channel does not concern the controller's account. */
  lemma {:induction false} OutboxIrrelevant(e: Execution, outbox: seq<seq<Command>>)
    requires Inv(e) && |outbox| == |e.outbox|
    ensures Inv(e.(outbox := outbox))
  {
    var f := e.(outbox := outbox);
    assert NamesOf(f.actors) == NamesOf(e.actors);
  }

  lemma {:induction false} NextKeepsControl(y: System, v: Event)
    requires Joined(y)
    ensures Inv(Next(y, v).control)
  {
    if v.Controller? {
      HandleKeeps(y.control, v.s);
    } else if v.i < |y.workers| {
      match v
      case Hears(i) =>
        if y.control.outbox[i] != [] {
          OutboxIrrelevant(y.control, y.control.outbox[i := y.control.outbox[i][1..]]);
        }
      case Reports(i) => if y.inbox[i] != [] { MessageKeeps(y.control, i, y.inbox[i][0]); }
      case ExitSeen(i) => ExitKeeps(y.control, i, ExitCode(y.workers[i]));
      case _ =>
    }
  }

  lemma {:induction false} NextKeeps(y: System, v: Event)
    requires Joined(y)
    ensures Joined(Next(y, v))
  {
    NextKeepsControl(y, v);
    forall j | 0 <= j < |y.workers| ensures LinkAt(Next(y, v), j) {
      NextKeepsLink(y, v, j);
    }
  }

  function Play(y: System, events: seq<Event>): (r: System)
    requires Sized(y)
    ensures Sized(r)
    decreases |events|
  {
    if events == [] then y else Play(Next(y, events[0]), events[1..])
  }

  lemma {:induction false} PlayKeeps(y: System, events: seq<Event>)
    requires Joined(y)
    ensures Joined(Play(y, events))
    decreases |events|
  {
    if events != [] {
      NextKeeps(y, events[0]);
      PlayKeeps(Next(y, events[0]), events[1..]);
    }
  }

  /** Whatever interleaving of deliveries, application calls, answers, clock
      events and exits has happened: the next message each worker has in flight
      is one the controller expects, the next command in flight is one the
      worker expects, no worker's handler has failed, and a worker that left
      while the controller still runs either reported its finish or threw. */
  lemma {:induction false} NoProtocolViolation(y: System, events: seq<Event>)
    requires Begins(y)
    ensures var z := Play(y, events);
      forall i :: 0 <= i < |z.workers| ==>
        && !z.workers[i].crashed
        && (z.inbox[i] != [] ==> !Misplaced(z.control, i, z.inbox[i][0]))
        && (z.control.outbox[i] != [] && !z.workers[i].gone ==> !Receive(z.workers[i], z.control.outbox[i][0]).crashed)
        && (z.workers[i].gone && !z.workers[i].threw ==> ExitCode(z.workers[i]) == 0 && z.control.actors[i].reportedFinish)
  {
    BeginsJoined(y);
    PlayKeeps(y, events);
    var z := Play(y, events);
    forall i | 0 <= i < |z.workers|
      ensures
        && !z.workers[i].crashed
        && (z.inbox[i] != [] ==> !Misplaced(z.control, i, z.inbox[i][0]))
        && (z.control.outbox[i] != [] && !z.workers[i].gone ==> !Receive(z.workers[i], z.control.outbox[i][0]).crashed)
        && (z.workers[i].gone && !z.workers[i].threw ==> ExitCode(z.workers[i]) == 0 && z.control.actors[i].reportedFinish)
    {
      assert LinkAt(z, i);
      if z.inbox[i] != [] {
        LinkPlacesMessages(z.control, i, z.workers[i], z.control.outbox[i], z.inbox[i]);
      }
      if z.control.outbox[i] != [] && !z.workers[i].gone {
        LinkAllowsCommand(z.control.stopped, z.control.actors[i], z.workers[i], z.control.outbox[i], z.inbox[i]);
      }
    }
  }
}
