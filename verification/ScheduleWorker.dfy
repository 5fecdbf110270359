/** The bootstrap inside each scheduled worker: its message handler and the
    checkpoint interface it gives to application code. */
module ScheduleWorker {
  import opened Wrappers
  import opened ScheduleController

  datatype Worker = Worker(
    thread: int,
    booted: bool,          // the bootstrap has run and said ready
    entered: bool,         // the first permit has been granted
    aborted: bool,
    waiting: bool,         // a parked wait is pending
    rpc: Option<nat>,      // the outstanding request
    nextRequest: nat,
    permitted: bool,
    finished: bool,
    awaitingAck: bool,
    threw: bool,           // application code or the bootstrap rejected
    gone: bool,            // the thread has exited
    crashed: bool)         // the message handler met a message it does not allow

  function NewWorker(thread: int): Worker {
    Worker(thread, false, false, false, false, None, 0, false, false, false, false, false, false)
  }

  /** What a step posts to the controller. */
  datatype Posted = Posted(worker: Worker, messages: seq<Message>)

  function Quiet(w: Worker): Posted { Posted(w, []) }

  /** The handler of controller commands. */
  function Receive(w: Worker, c: Command): Worker {
    match c
    case Cancel => w.(aborted := true, waiting := false, rpc := None)
    case Permit =>
      if w.aborted then w
      else if !w.waiting then w.(crashed := true)
      else w.(permitted := true, waiting := false, entered := true)
    case Acknowledge =>
      if !w.finished || !w.awaitingAck then w.(crashed := true) else w.(awaitingAck := false)
    case Reply(id, failed) =>
      if w.rpc != Some(id) then (if w.aborted then w else w.(crashed := true))
      else w.(rpc := None)
  }

  /** The bootstrap's start: park, then say ready. */
  function Boot(w: Worker): Posted {
    if w.booted then Quiet(w)
    else Posted(w.(booted := true, waiting := !w.aborted), [Ready(w.thread)])
  }

  /** `checkpoint.arrive`, called by the application at any time after entry. */
  function Arrive(w: Worker, name: string): Posted {
    if !w.entered then Quiet(w)
    else if w.finished then Posted(w, [Failure])
    else if !w.permitted || w.rpc.Some? || w.waiting then Quiet(w)
    else Posted(w.(permitted := false, waiting := !w.aborted), [Arrival(name)])
  }

  /** `checkpoint.request`, called by the application at any time after entry. */
  function Call(w: Worker, sound: bool): Posted {
    if !w.entered then Quiet(w)
    else if w.finished then Posted(w, [Failure])
    else if w.aborted || !w.permitted || w.rpc.Some? || w.waiting then Quiet(w)
    else Posted(w.(rpc := Some(w.nextRequest), nextRequest := w.nextRequest + 1), [Request(w.nextRequest, sound)])
  }

  function Rejected(w: Worker): Posted {
    if w.aborted then Posted(w.(finished := true, awaitingAck := true), [Done])
    else Posted(w.(finished := true, threw := true), [Failure])
  }

  /** The application's run function returns. */
  function Return(w: Worker): Posted {
    if !w.entered || w.finished then Quiet(w)
    else if w.waiting || w.rpc.Some? then Rejected(w)
    else Posted(w.(finished := true, awaitingAck := true), [Done])
  }

  /** The run function, or the wait before it, rejects. Before entry only a
      cancellation can reject. */
  function Throw(w: Worker): Posted {
    if !w.booted || w.finished || (!w.entered && !w.aborted) then Quiet(w) else Rejected(w)
  }

  /** The thread leaves once nothing keeps its port referenced. */
  function Leave(w: Worker): Worker {
    if w.finished && !w.awaitingAck then w.(gone := true) else w
  }

  function ExitCode(w: Worker): int { if w.threw then 1 else 0 }
}
