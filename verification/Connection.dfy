/** A mirror session: operations take turns on one line stream. */
module MirrorConnection {
  import opened Wrappers
  import opened JsonText
  import opened LineIterator

  datatype Operation = Validate | SubmitJob | QueryJob | AwaitJob | CancelJob

  /** A decoded reply, as far as the operations tell replies apart. */
  datatype Reply = SpecValidated | JobAccepted | JobStatus | JobResult | RegisterError(queueFull: bool) | ProtocolError | OtherStep

  /** `decodeMirrorMessage`; nothing where it throws. */
  type ReplyDecoder = Text -> Option<Reply>

  datatype Outcome =
    | Pending
    | Answered(reply: Reply)
    | RegisterFailed
    | QueueFull
    | ProtocolFailure
    | Rethrown
    | ConnectionClosed
    | AsyncOnStdio

  /** What an operation makes of a reply. */
  function Verdict(op: Operation, reply: Reply): Outcome {
    if reply.RegisterError? then (if op.SubmitJob? && reply.queueFull then QueueFull else RegisterFailed)
    else if (match op
             case Validate => reply.SpecValidated?
             case SubmitJob => reply.JobAccepted?
             case _ => reply.JobStatus? || reply.JobResult?) then Answered(reply)
    else ProtocolFailure
  }

  /** How an exchange can end, given what its pull came to. */
  predicate SettledBy(op: Operation, p: Promise, o: Outcome, decode: ReplyDecoder) {
    match p
    case Waiting => false
    case Line(t) => if decode(t).Some? then o == Verdict(op, decode(t).value) else o in {ProtocolFailure, Rethrown}
    case Done => o == ProtocolFailure
    case Rejected => o in {ProtocolFailure, Rethrown}
  }

  /** What an exchange comes to when its pull is settled, `closed` or not by then. */
  function EndOf(op: Operation, p: Promise, closed: bool, decode: ReplyDecoder): (o: Outcome)
    requires !p.Waiting?
    ensures SettledBy(op, p, o, decode) && !o.Pending?
  {
    if p.Line? && decode(p.text).Some? then Verdict(op, decode(p.text).value)
    else if closed && !p.Done? then Rethrown
    else ProtocolFailure
  }

  predicate Replied(p: Promise, decode: ReplyDecoder) {
    p.Line? && decode(p.text).Some?
  }

  /** What can happen next to a session, in whatever order it happens. */
  datatype Event =
    | Begin(op: Operation)
    | Start(sendFails: bool)
    | Resume
    | Arrive(line: Text)
    | InputEnds
    | InputFails
    | CallerCloses

  // ----- The exchanges of a session as a value -----

  /** The first `next` operations have started; while `active`, the last of them
      awaits its reply. `sent` lists those whose requests were sent, in order, and
      `promises` the pulls made for them. */
  datatype Session = Session(
    operations: seq<Operation>, outcomes: seq<Outcome>, next: nat, active: bool, sent: seq<nat>, promises: seq<Promise>)

  ghost predicate Turns(s: Session) {
    && |s.outcomes| == |s.operations| && s.next <= |s.operations|
    && (forall i :: 0 <= i < |s.outcomes| ==> (s.outcomes[i].Pending? <==> i >= s.next || (s.active && i == s.next - 1)))
  }

  ghost predicate Requests(s: Session) {
    && |s.promises| == |s.sent|
    && (forall k :: 0 <= k < |s.sent| ==> s.sent[k] < s.next)
    && (forall j, k :: 0 <= j < k < |s.sent| ==> s.sent[j] < s.sent[k])
    && (s.active ==> s.sent != [] && s.sent[|s.sent| - 1] == s.next - 1)
  }

  /** How many exchanges are over: all but the one under way. */
  function Finished(s: Session): nat {
    if s.active && s.sent != [] then |s.sent| - 1 else |s.sent|
  }

  ghost predicate Exchange(s: Session, k: nat, decode: ReplyDecoder) {
    && k < |s.sent| && k < |s.promises| && s.sent[k] < |s.operations| && s.sent[k] < |s.outcomes|
    && SettledBy(s.operations[s.sent[k]], s.promises[k], s.outcomes[s.sent[k]], decode)
  }

  /** One request is outstanding at most; the n-th pull waits for the reply to the
      n-th request; and every exchange that is over ended as its pull says. */
  ghost predicate Orderly(s: Session, decode: ReplyDecoder) {
    Turns(s) && Requests(s) && forall k :: 0 <= k < Finished(s) ==> Exchange(s, k, decode)
  }

  lemma {:induction false} Enqueues(s: Session, op: Operation, decode: ReplyDecoder)
    requires Orderly(s, decode)
    ensures Orderly(s.(operations := s.operations + [op], outcomes := s.outcomes + [Pending]), decode)
  {
    var t := s.(operations := s.operations + [op], outcomes := s.outcomes + [Pending]);
    forall k | 0 <= k < Finished(t) ensures Exchange(t, k, decode) { assert Exchange(s, k, decode); }
  }

  lemma {:induction false} Refuses(s: Session, o: Outcome, decode: ReplyDecoder)
    requires Orderly(s, decode) && !s.active && s.next < |s.operations| && !o.Pending?
    ensures Orderly(s.(outcomes := s.outcomes[s.next := o], next := s.next + 1), decode)
  {
    var t := s.(outcomes := s.outcomes[s.next := o], next := s.next + 1);
    forall k | 0 <= k < Finished(t) ensures Exchange(t, k, decode) { assert Exchange(s, k, decode); }
  }

  lemma {:induction false} Sends(s: Session, p: Promise, decode: ReplyDecoder)
    requires Orderly(s, decode) && !s.active && s.next < |s.operations|
    ensures Orderly(s.(next := s.next + 1, active := true, sent := s.sent + [s.next], promises := s.promises + [p]), decode)
  {
    var t := s.(next := s.next + 1, active := true, sent := s.sent + [s.next], promises := s.promises + [p]);
    forall k | 0 <= k < Finished(t) ensures Exchange(t, k, decode) { assert Exchange(s, k, decode); }
  }

  lemma {:induction false} Settles(s: Session, o: Outcome, decode: ReplyDecoder)
    requires Orderly(s, decode) && s.active
    requires SettledBy(s.operations[s.next - 1], s.promises[|s.promises| - 1], o, decode)
    ensures Orderly(s.(active := false, outcomes := s.outcomes[s.next - 1 := o]), decode)
  {
    var t := s.(active := false, outcomes := s.outcomes[s.next - 1 := o]);
    forall k | 0 <= k < Finished(t) ensures Exchange(t, k, decode) {
      if k < Finished(s) { assert Exchange(s, k, decode) && s.sent[k] < s.sent[|s.sent| - 1]; }
    }
  }

  lemma {:induction false} Arrives(s: Session, promises: seq<Promise>, decode: ReplyDecoder)
    requires Orderly(s, decode) && |promises| == |s.promises|
    requires forall k :: 0 <= k < |promises| && !s.promises[k].Waiting? ==> promises[k] == s.promises[k]
    ensures Orderly(s.(promises := promises), decode)
  {
    var t := s.(promises := promises);
    forall k | 0 <= k < Finished(t) ensures Exchange(t, k, decode) { assert Exchange(s, k, decode); }
  }

  class Connection {
    const stdio: bool
    const decode: ReplyDecoder
    const sink: LineQueue
    var closed: bool
    var flowConsumed: bool
    var operations: seq<Operation>
    var outcomes: seq<Outcome>
    var next: nat
    var active: bool
    ghost var sent: seq<nat>

    ghost function View(): Session
      reads this, sink
    {
      Session(operations, outcomes, next, active, sent, sink.promises)
    }

    ghost predicate Valid()
      reads this, sink
    {
      sink.Valid() && Orderly(View(), decode)
    }

    constructor (stdio: bool, decode: ReplyDecoder)
      ensures Valid() && !closed && !flowConsumed && operations == [] && sent == [] && fresh(sink)
      ensures this.stdio == stdio && this.decode == decode
    {
      this.stdio, this.decode := stdio, decode;
      sink := new LineQueue();
      closed, flowConsumed, operations, outcomes, next, active, sent := false, false, [], [], 0, false, [];
    }

    /** `op`: rejected at once when closed, queued behind the others otherwise. */
    method Enqueue(op: Operation) returns (accepted: bool)
      requires Valid()
      modifies this`operations, this`outcomes
      ensures Valid() && accepted == !closed
      ensures operations == if accepted then old(operations) + [op] else old(operations)
      ensures outcomes == if accepted then old(outcomes) + [Pending] else old(outcomes)
    {
      if closed { return false; }
      Enqueues(View(), op, decode);
      operations, outcomes := operations + [op], outcomes + [Pending];
      accepted := true;
    }

    predicate Allowed(op: Operation)
      reads this
    {
      !closed && !flowConsumed && (op.Validate? || !stdio)
    }

    /** The next operation's turn: it is refused, its request cannot be written, or
        its request is sent and its reply awaited. */
    method StartNext(sendFails: bool)
      requires Valid() && !active && next < |operations|
      modifies this`outcomes, this`next, this`active, this`sent, this`closed, this`flowConsumed, sink
      ensures Valid() && next == old(next) + 1
      ensures sink.emitted == old(sink.emitted) && sink.closed == old(sink.closed)
      ensures active <==> old(Allowed(operations[next])) && !sendFails
      ensures sent == if active then old(sent) + [next - 1] else old(sent)
      ensures closed == (old(closed) || (old(Allowed(operations[next])) && sendFails))
      ensures flowConsumed == (old(flowConsumed) || (old(Allowed(operations[next])) && sendFails))
      ensures outcomes == if active then old(outcomes) else old(outcomes)[next - 1 :=
                if old(closed) || old(flowConsumed) then ConnectionClosed
                else if sendFails && old(Allowed(operations[next])) then ProtocolFailure else AsyncOnStdio]
    {
      if closed || flowConsumed {
        Refuse(ConnectionClosed);
      } else if !operations[next].Validate? && stdio {
        Refuse(AsyncOnStdio);
      } else if sendFails {
        Refuse(ProtocolFailure);
        flowConsumed, closed := true, true;
      } else {
        Send();
      }
    }

    /** The request is written and its reply pulled. */
    method Send()
      requires Valid() && !active && next < |operations|
      modifies this`next, this`active, this`sent, sink
      ensures Valid() && active && next == old(next) + 1 && sent == old(sent) + [old(next)]
      ensures sink.emitted == old(sink.emitted) && sink.closed == old(sink.closed)
    {
      ghost var was := View();
      var k := sink.Pull();
      Sends(was, sink.promises[k], decode);
      assert sink.promises == was.promises + [sink.promises[k]];
      sent, next, active := sent + [next], next + 1, true;
    }

    method Refuse(o: Outcome)
      requires Valid() && !active && next < |operations| && !o.Pending?
      modifies this`outcomes, this`next
      ensures Valid() && next == old(next) + 1 && outcomes == old(outcomes)[old(next) := o]
    {
      Refuses(View(), o, decode);
      outcomes, next := outcomes[next := o], next + 1;
    }

    /** The reply, or the lack of one, ends the exchange; a broken one also spends and
        closes the connection. */
    method Finish()
      requires Valid() && active && !sink.promises[|sink.promises| - 1].Waiting?
      modifies this`outcomes, this`active, this`closed, this`flowConsumed
      ensures Valid() && !active
      ensures old(closed) ==> closed
      ensures old(flowConsumed) ==> flowConsumed
      ensures operations[next - 1].Validate? && outcomes[next - 1].Answered? ==> flowConsumed
      ensures outcomes[next - 1].ProtocolFailure? ==> closed && flowConsumed
      ensures outcomes == old(outcomes)[next - 1 := outcomes[next - 1]]
    {
      var p := sink.promises[|sink.promises| - 1];
      var o := EndOf(operations[next - 1], p, closed, decode);
      Settle(p, o);
      if o.ProtocolFailure? || (operations[next - 1].Validate? && Replied(p, decode)) { flowConsumed := true; }
      if o.ProtocolFailure? { closed := true; }
    }

    method Settle(p: Promise, o: Outcome)
      requires Valid() && active && p == sink.promises[|sink.promises| - 1] && SettledBy(operations[next - 1], p, o, decode)
      modifies this`outcomes, this`active
      ensures Valid() && !active && outcomes == old(outcomes)[next - 1 := o]
    {
      Settles(View(), o, decode);
      active, outcomes := false, outcomes[next - 1 := o];
    }

    method Close()
      requires Valid()
      modifies this`closed
      ensures Valid() && closed
    {
      closed := true;
    }

    /** A line from the mirror; it can only answer the exchange under way. */
    method Receive(line: Text)
      requires Valid() && !sink.closed
      modifies sink
      ensures Valid() && !sink.closed && sink.emitted == old(sink.emitted) + [line]
    {
      ghost var was := View();
      sink.Emit(line);
      Arrives(was, sink.promises, decode);
    }

    method EndInput(failed: bool)
      requires Valid()
      modifies sink
      ensures Valid() && sink.closed && sink.emitted == old(sink.emitted)
    {
      ghost var was := View();
      if failed { sink.Fail(); } else { sink.Finish(); }
      Arrives(was, sink.promises, decode);
    }

    /** One event, if it can happen. */
    method Happen(event: Event)
      requires Valid()
      modifies this, sink
      ensures Valid()
      ensures old(closed) ==> closed
      ensures old(flowConsumed) ==> flowConsumed
      ensures old(closed) || old(flowConsumed) ==> sent == old(sent)
      ensures old(sent) <= sent && old(sink.emitted) <= sink.emitted
    {
      match event {
        case Begin(op) => var accepted := Enqueue(op);
        case Start(sendFails) => if !active && next < |operations| { StartNext(sendFails); }
        case Resume => if active && !sink.promises[|sink.promises| - 1].Waiting? { Finish(); }
        case Arrive(line) => if !sink.closed { Receive(line); }
        case InputEnds => EndInput(false);
        case InputFails => EndInput(true);
        case CallerCloses => Close();
      }
    }

    /** Every interleaving: whatever happens in whatever order, one request at most is
        outstanding and replies match requests in order; and once the connection is
        closed or spent, nothing is sent again. */
    method Drive(events: seq<Event>)
      requires Valid()
      modifies this, sink
      ensures Valid()
      ensures old(closed) ==> closed
      ensures old(flowConsumed) ==> flowConsumed
      ensures old(closed) || old(flowConsumed) ==> sent == old(sent)
      ensures old(sent) <= sent && old(sink.emitted) <= sink.emitted
    {
      for n := 0 to |events|
        invariant Valid()
        invariant old(closed) ==> closed
        invariant old(flowConsumed) ==> flowConsumed
        invariant old(closed) || old(flowConsumed) ==> sent == old(sent)
        invariant old(sent) <= sent && old(sink.emitted) <= sink.emitted
      {
        Happen(events[n]);
      }
    }

    /** The n-th request, once answered by a line, was answered by the n-th line that
        arrived. */
    lemma {:induction false} NthReplyAnswersNthRequest(k: nat)
      requires Valid() && k < Finished(View()) && sink.promises[k].Line?
      ensures k < |sink.emitted| && sink.promises[k].text == sink.emitted[k]
      ensures decode(sink.emitted[k]).Some? ==>
                outcomes[sent[k]] == Verdict(operations[sent[k]], decode(sink.emitted[k]).value)
    {
      assert Exchange(View(), k, decode);
    }
  }
}
