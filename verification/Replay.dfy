/** Totals of counting maps. */
module MapTotals {

  ghost function Total<K(!new)>(m: map<K, nat>): nat
    decreases |m|
  {
    if m == map[] then 0
    else
      var k :| k in m;
      m[k] + Total(m - {k})
  }

  lemma {:induction false} TotalWithout<K(!new)>(m: map<K, nat>, k: K)
    requires k in m
    ensures Total(m) == m[k] + Total(m - {k})
    decreases |m|
  {
    var j :| j in m && Total(m) == m[j] + Total(m - {j});
    if j != k {
      TotalWithout(m - {j}, k);
      TotalWithout(m - {k}, j);
      assert m - {j} - {k} == m - {k} - {j};
    }
  }

  /** A map that counts a multiset adds up to its size. */
  lemma {:induction false} TotalIsSize<K(!new)>(m: map<K, nat>, s: multiset<K>)
    requires forall k :: s[k] == if k in m then m[k] else 0
    ensures Total(m) == |s|
    decreases |m|
  {
    if m == map[] {
      assert s == multiset{};
    } else {
      var k :| k in m;
      TotalWithout(m, k);
      TotalIsSize(m - {k}, s[k := 0]);
      assert s == s[k := 0] + multiset{}[k := s[k]];
    }
  }
}

/** Aggregate progress of a replay, in bounded tables. */
module ReplayRecording {
  import opened Wrappers
  import opened MapTotals

  const ACTION_LIMIT := 256
  const SEQUENCE_LIMIT := 1024

  /** A table, what it had to drop, the log of all that was put into it, and the part
      of the log that has entries. */
  datatype Table<K> = Table(entries: map<K, nat>, dropped: nat, log: seq<K>, kept: seq<K>)

  /** What has an entry is counted exactly; what has none appears in the log only if the
      table was full; and what is dropped makes up the rest of the log. */
  ghost predicate Bounded<K(!new)>(t: Table<K>, limit: nat) {
    && |t.entries| <= limit && |t.kept| + t.dropped == |t.log|
    && (forall k :: k in t.entries ==> t.entries[k] == multiset(t.log)[k] == multiset(t.kept)[k] > 0)
    && (forall k :: k in t.kept ==> k in t.entries)
    && (forall k :: k in t.log && k !in t.entries ==> |t.entries| == limit)
  }

  /** One more entry: counted if it has a place or there is room for one. */
  function Counted<K>(entries: map<K, nat>, k: K, limit: nat): map<K, nat> {
    if k in entries then entries[k := entries[k] + 1] else if |entries| < limit then entries[k := 1] else entries
  }

  function With<K>(t: Table<K>, k: K, limit: nat): Table<K> {
    var room := k in t.entries || |t.entries| < limit;
    Table(Counted(t.entries, k, limit), if room then t.dropped else t.dropped + 1, t.log + [k],
          if room then t.kept + [k] else t.kept)
  }

  lemma {:induction false} CountedSize<K(!new)>(entries: map<K, nat>, k: K, limit: nat)
    requires |entries| <= limit
    ensures |Counted(entries, k, limit)| == if k in entries || |entries| == limit then |entries| else |entries| + 1
  {
    var next := Counted(entries, k, limit);
    if k !in entries && |entries| < limit {
      assert next.Keys == entries.Keys + {k};
    } else if k in entries {
      assert next.Keys == entries.Keys;
    }
  }

  lemma {:induction false} WithBounded<K(!new)>(t: Table<K>, k: K, limit: nat)
    requires Bounded(t, limit)
    ensures Bounded(With(t, k, limit), limit)
  {
    CountedSize(t.entries, k, limit);
    var next := With(t, k, limit);
    forall x | x in next.entries ensures next.entries[x] == multiset(next.log)[x] == multiset(next.kept)[x] > 0 {
      assert multiset(t.log + [k])[x] == multiset(t.log)[x] + if x == k then 1 else 0;
      assert multiset(t.kept + [k])[x] == multiset(t.kept)[x] + if x == k then 1 else 0;
      assert x !in t.log ==> multiset(t.log)[x] == 0;
      assert x !in t.kept ==> multiset(t.kept)[x] == 0;
    }
  }

  /** What is counted and what is dropped make up the log; and if nothing is dropped
      the table is the log. */
  lemma {:induction false} BoundedMeaning<K(!new)>(t: Table<K>, limit: nat)
    requires Bounded(t, limit)
    ensures Total(t.entries) + t.dropped == |t.log|
    ensures t.dropped == 0 ==> forall k :: multiset(t.log)[k] == if k in t.entries then t.entries[k] else 0
  {
    assert |multiset(t.kept)| == |t.kept| && |multiset(t.log)| == |t.log|;
    forall k ensures multiset(t.kept)[k] == if k in t.entries then t.entries[k] else 0 {
      assert k in t.kept <==> k in multiset(t.kept);
    }
    TotalIsSize(t.entries, multiset(t.kept));
    if t.dropped == 0 {
      assert forall k :: multiset(t.kept)[k] <= multiset(t.log)[k];
      SameSizeSame(multiset(t.kept), multiset(t.log));
    }
  }

  lemma {:induction false} SameSizeSame<K(!new)>(a: multiset<K>, b: multiset<K>)
    requires (forall k :: a[k] <= b[k]) && |a| == |b|
    ensures a == b
  {
    assert b == a + (b - a);
    assert |b - a| == 0;
  }

  // ----- What a recorder has been told, and its books -----

  datatype Event<Name> = Begin(initial: bool) | Report(action: Name) | Acknowledge | Complete

  datatype Progress = Progress(started: nat, completed: nat, reported: nat, matched: nat, steps: nat, index: nat, pending: bool)

  /** `reporting` is how many traces reported anything. */
  datatype Book<Name> = Book(
    progress: Progress, previous: Option<Name>, actions: Table<Name>, pairs: Table<(Name, Name)>, reporting: nat)

  function Acknowledged(p: Progress): Progress {
    if p.pending then
      Progress(p.started, p.completed, p.reported, p.matched + 1, p.steps + if p.index > 0 then 1 else 0, p.index, false)
    else p
  }

  function Begun(p: Progress, initial: bool): Progress {
    var a := Acknowledged(p);
    if initial then
      Progress(a.started + 1, a.completed + if a.started > 0 then 1 else 0, a.reported, a.matched, a.steps, 0, a.pending)
    else Progress(a.started, a.completed, a.reported, a.matched, a.steps, a.index + 1, a.pending)
  }

  function WithReport(p: Progress): Progress {
    Progress(p.started, p.completed, p.reported + 1, p.matched, p.steps, p.index, true)
  }

  function Completed(p: Progress): Progress {
    var a := Acknowledged(p);
    Progress(a.started, a.started, a.reported, a.matched, a.steps, a.index, a.pending)
  }

  function Apply<Name>(b: Book<Name>, e: Event<Name>): Book<Name> {
    match e
    case Begin(initial) => Book(Begun(b.progress, initial), if initial then None else b.previous, b.actions, b.pairs, b.reporting)
    case Report(action) =>
      Book(WithReport(b.progress), Some(action), With(b.actions, action, ACTION_LIMIT),
           if b.previous.Some? then With(b.pairs, (b.previous.value, action), SEQUENCE_LIMIT) else b.pairs,
           if b.previous.Some? then b.reporting else b.reporting + 1)
    case Acknowledge => Book(Acknowledged(b.progress), b.previous, b.actions, b.pairs, b.reporting)
    case Complete => Book(Completed(b.progress), b.previous, b.actions, b.pairs, b.reporting)
  }

  lemma {:induction false} ReportEntries<Name>(b: Book<Name>, action: Name)
    ensures var c := Apply(b, Report(action));
      c.progress == WithReport(b.progress) && c.previous == Some(action)
      && c.actions.entries == Counted(b.actions.entries, action, ACTION_LIMIT)
      && c.actions.dropped == b.actions.dropped + (if action in b.actions.entries || |b.actions.entries| < ACTION_LIMIT then 0 else 1)
  {
  }

  lemma {:induction false} ReportPairs<Name>(b: Book<Name>, action: Name)
    ensures var c := Apply(b, Report(action));
      if b.previous.None? then c.pairs == b.pairs
      else
        var pair := (b.previous.value, action);
        c.pairs.entries == Counted(b.pairs.entries, pair, SEQUENCE_LIMIT)
        && c.pairs.dropped == b.pairs.dropped + if pair in b.pairs.entries || |b.pairs.entries| < SEQUENCE_LIMIT then 0 else 1
  {
  }

  function NewTable<K>(): Table<K> { Table(map[], 0, [], []) }

  function After<Name>(events: seq<Event<Name>>): Book<Name> {
    if events == [] then Book(Progress(0, 0, 0, 0, 0, 0, false), None, NewTable(), NewTable(), 0)
    else Apply(After(events[..|events| - 1]), events[|events| - 1])
  }

  /** A state is reported only once the state before it is settled. */
  predicate Disciplined<Name(==)>(events: seq<Event<Name>>) {
    events == []
    || (Disciplined(events[..|events| - 1])
        && (events[|events| - 1].Report? ==> !After(events[..|events| - 1]).progress.pending))
  }

  /** Every report but a pending one is matched; every report is logged; and every one
      but the first of its trace, or of what came before any trace, as half of a pair. */
  ghost predicate Balanced<Name>(b: Book<Name>) {
    && b.progress.matched + (if b.progress.pending then 1 else 0) == b.progress.reported
    && b.progress.completed <= b.progress.started
    && |b.actions.log| == b.progress.reported && |b.pairs.log| + b.reporting == b.progress.reported
    && b.reporting <= b.progress.started + 1 && (b.previous.None? ==> b.reporting <= b.progress.started)
  }

  lemma {:induction false} AfterBalanced<Name>(events: seq<Event<Name>>)
    requires Disciplined(events)
    ensures Balanced(After(events))
  {
    if events != [] { AfterBalanced(events[..|events| - 1]); }
  }

  lemma {:induction false} AfterBounded<Name(!new)>(events: seq<Event<Name>>)
    ensures Bounded(After(events).actions, ACTION_LIMIT) && Bounded(After(events).pairs, SEQUENCE_LIMIT)
  {
    if events != [] {
      var front, last := events[..|events| - 1], events[|events| - 1];
      AfterBounded(front);
      var b := After(front);
      if last.Report? {
        WithBounded(b.actions, last.action, ACTION_LIMIT);
        if b.previous.Some? { WithBounded(b.pairs, (b.previous.value, last.action), SEQUENCE_LIMIT); }
      }
    }
  }

  /** Whatever a recorder has been told, every report is in the action table or dropped,
      every report that follows another in its trace is in the pair table or dropped,
      and every report but a pending one is matched; without drops the action table is
      the whole log. */
  lemma {:induction false} Conservation<Name(!new)>(events: seq<Event<Name>>)
    requires Disciplined(events)
    ensures var b := After(events);
      && Total(b.actions.entries) + b.actions.dropped == b.progress.reported
      && Total(b.pairs.entries) + b.pairs.dropped == b.progress.reported - b.reporting
      && b.progress.matched + (if b.progress.pending then 1 else 0) == b.progress.reported
      && |b.actions.entries| <= ACTION_LIMIT && |b.pairs.entries| <= SEQUENCE_LIMIT
      && (b.actions.dropped == 0 ==>
            forall a :: multiset(b.actions.log)[a] == if a in b.actions.entries then b.actions.entries[a] else 0)
  {
    AfterBalanced(events);
    AfterBounded(events);
    BoundedMeaning(After(events).actions, ACTION_LIMIT);
    BoundedMeaning(After(events).pairs, SEQUENCE_LIMIT);
  }

  /** Keyed by action name; pairs are kept under an injective key of both names. */
  class ReplayRecorder<Name(==, !new)> {
    var tracesStarted: nat
    var tracesCompleted: nat
    var statesReported: nat
    var statesMatched: nat
    var stepsCompleted: nat
    var stateIndex: nat
    var pending: bool
    var previousAction: Option<Name>
    var droppedActionEvents: nat
    var droppedSequenceEvents: nat
    var actions: map<Name, nat>
    var sequences: map<(Name, Name), nat>
    /** Everything the recorder has been told. */
    ghost var events: seq<Event<Name>>

    ghost function Counters(): Progress
      reads this
    {
      Progress(tracesStarted, tracesCompleted, statesReported, statesMatched, stepsCompleted, stateIndex, pending)
    }

    /** The fields are the books of what the recorder has been told. */
    ghost predicate Shows(b: Book<Name>)
      reads this
    {
      && Counters() == b.progress && previousAction == b.previous
      && actions == b.actions.entries && droppedActionEvents == b.actions.dropped
      && sequences == b.pairs.entries && droppedSequenceEvents == b.pairs.dropped
    }

    ghost predicate Valid()
      reads this
    {
      Shows(After(events)) && Disciplined(events)
    }

    constructor ()
      ensures Valid() && events == []
    {
      tracesStarted, tracesCompleted, statesReported, statesMatched, stepsCompleted, stateIndex := 0, 0, 0, 0, 0, 0;
      pending, previousAction, droppedActionEvents, droppedSequenceEvents := false, None, 0, 0;
      actions, sequences, events := map[], map[], [];
    }

    method Settle()
      modifies this`pending, this`statesMatched, this`stepsCompleted
      ensures Counters() == Acknowledged(old(Counters()))
    {
      if !pending { return; }
      pending := false;
      statesMatched := statesMatched + 1;
      if stateIndex > 0 { stepsCompleted := stepsCompleted + 1; }
    }

    ghost method Told(e: Event<Name>)
      requires Disciplined(events) && (e.Report? ==> !After(events).progress.pending)
      requires Shows(Apply(After(events), e))
      modifies this`events
      ensures Valid() && events == old(events) + [e]
    {
      var next := events + [e];
      assert next[..|next| - 1] == events;
      events := next;
    }

    method Acknowledge()
      requires Valid()
      modifies this
      ensures Valid() && events == old(events) + [Event.Acknowledge]
      ensures statesReported == old(statesReported) && tracesStarted == old(tracesStarted)
    {
      Settle();
      Told(Event.Acknowledge);
    }

    method Begin(initial: bool)
      requires Valid()
      modifies this
      ensures Valid() && events == old(events) + [Event.Begin(initial)] && !pending
      ensures statesReported == old(statesReported) && tracesStarted == old(tracesStarted) + if initial then 1 else 0
    {
      CountBegin(initial);
      Told(Event.Begin(initial));
    }

    method CountBegin(initial: bool)
      modifies this`pending, this`statesMatched, this`stepsCompleted, this`tracesStarted, this`tracesCompleted, this`stateIndex,
               this`previousAction
      ensures Counters() == Begun(old(Counters()), initial) && previousAction == if initial then None else old(previousAction)
    {
      Settle();
      if initial {
        if tracesStarted > 0 { tracesCompleted := tracesCompleted + 1; }
        tracesStarted := tracesStarted + 1;
        stateIndex := 0;
        previousAction := None;
      } else {
        stateIndex := stateIndex + 1;
      }
    }

    /** A reported state; `Begin` has settled the one before it. */
    method Reported(action: Name)
      requires Valid() && !pending
      modifies this
      ensures Valid() && events == old(events) + [Event.Report(action)]
      ensures statesReported == old(statesReported) + 1 && tracesStarted == old(tracesStarted)
    {
      ghost var before := After(events);
      CountReport(action);
      ReportEntries(before, action);
      ReportPairs(before, action);
      Told(Event.Report(action));
    }

    method CountReport(action: Name)
      modifies this`statesReported, this`pending, this`previousAction, this`actions, this`droppedActionEvents, this`sequences,
               this`droppedSequenceEvents
      ensures Counters() == WithReport(old(Counters())) && previousAction == Some(action)
      ensures actions == Counted(old(actions), action, ACTION_LIMIT)
      ensures droppedActionEvents == old(droppedActionEvents) + if action in old(actions) || |old(actions)| < ACTION_LIMIT then 0 else 1
      ensures old(previousAction).None? ==> sequences == old(sequences) && droppedSequenceEvents == old(droppedSequenceEvents)
      ensures old(previousAction).Some? ==> sequences == Counted(old(sequences), (old(previousAction).value, action), SEQUENCE_LIMIT)
      ensures old(previousAction).Some? ==>
                (droppedSequenceEvents == old(droppedSequenceEvents)
                 + if (old(previousAction).value, action) in old(sequences) || |old(sequences)| < SEQUENCE_LIMIT then 0 else 1)
    {
      statesReported := statesReported + 1;
      pending := true;
      CountAction(action);
      if previousAction.Some? { CountPair((previousAction.value, action)); }
      previousAction := Some(action);
    }

    method CountAction(action: Name)
      modifies this`actions, this`droppedActionEvents
      ensures actions == Counted(old(actions), action, ACTION_LIMIT)
      ensures droppedActionEvents == old(droppedActionEvents) + if action in old(actions) || |old(actions)| < ACTION_LIMIT then 0 else 1
    {
      if action in actions || |actions| < ACTION_LIMIT {
        actions := actions[action := if action in actions then actions[action] + 1 else 1];
      } else {
        droppedActionEvents := droppedActionEvents + 1;
      }
    }

    method CountPair(pair: (Name, Name))
      modifies this`sequences, this`droppedSequenceEvents
      ensures sequences == Counted(old(sequences), pair, SEQUENCE_LIMIT)
      ensures droppedSequenceEvents
           == old(droppedSequenceEvents) + if pair in old(sequences) || |old(sequences)| < SEQUENCE_LIMIT then 0 else 1
    {
      if pair in sequences || |sequences| < SEQUENCE_LIMIT {
        sequences := sequences[pair := if pair in sequences then sequences[pair] + 1 else 1];
      } else {
        droppedSequenceEvents := droppedSequenceEvents + 1;
      }
    }

    method Complete()
      requires Valid()
      modifies this
      ensures Valid() && events == old(events) + [Event.Complete]
    {
      Settle();
      tracesCompleted := tracesStarted;
      Told(Event.Complete);
    }
  }
}

/** The loop over the mirror's messages. */
module ReplayCore {
  import opened Wrappers
  import opened JsonText
  import opened MatchedEvidence
  import opened ReplayRecording

  datatype Message<S> =
    | InitialState(action: Text, payload: S)
    | NextStep(action: Text, payload: S)
    | StepOk
    | AllStepsDone
    | StepMismatch
    | OtherMessage

  datatype Result = Completed(acceptedTraces: nat, acceptedSteps: nat) | Mismatch | Failed

  /** The computer of states; nothing where it throws. */
  type Computer<!S> = (Text, S, S) -> Option<S>

  function LastOr<S>(states: seq<S>, empty: S): S {
    if states == [] then empty else states[|states| - 1]
  }

  /** One state per initial or next message: computed from an empty state at the start
      of a trace, and from the state reported before it within one. */
  function Threaded<S>(messages: seq<Message<S>>, compute: Computer<S>, empty: S): seq<S> {
    if messages == [] then []
    else
      var before := Threaded(messages[..|messages| - 1], compute, empty);
      match messages[|messages| - 1]
      case InitialState(action, payload) => before + [compute(action, payload, empty).GetOr(empty)]
      case NextStep(action, payload) => before + [compute(action, payload, LastOr(before, empty)).GetOr(empty)]
      case _ => before
  }

  function Initials<S>(messages: seq<Message<S>>): nat {
    if messages == [] then 0
    else Initials(messages[..|messages| - 1]) + if messages[|messages| - 1].InitialState? then 1 else 0
  }

  function Steps<S>(messages: seq<Message<S>>): nat {
    if messages == [] then 0
    else Steps(messages[..|messages| - 1]) + if messages[|messages| - 1].NextStep? then 1 else 0
  }

  lemma {:induction false} OneStateEach<S>(messages: seq<Message<S>>, compute: Computer<S>, empty: S)
    ensures |Threaded(messages, compute, empty)| == Initials(messages) + Steps(messages)
  {
    if messages != [] { OneStateEach(messages[..|messages| - 1], compute, empty); }
  }

  /** What one message leads to: a state sent and then counted, or not if a counter is
      full; nothing; or the end of the replay. */
  datatype Turn<S> = Sent(state: S, counted: bool) | Continue | Stop(result: Option<Result>)

  /** What the observers of a replay, if there are any, must be like between messages. */
  ghost predicate Ready(tracker: MatchedEvidenceTracker?, recorder: ReplayRecorder?<Text>)
    reads tracker, recorder
  {
    && (tracker != null ==> tracker.Valid() && !tracker.sealed && tracker.active.None?)
    && (recorder != null ==> recorder.Valid())
    && (tracker != null && recorder != null ==> tracker.reportedCount == recorder.statesReported)
  }

  ghost predicate Standing(tracker: MatchedEvidenceTracker?, recorder: ReplayRecorder?<Text>)
    reads tracker, recorder
  {
    (tracker != null ==> tracker.Valid()) && (recorder != null ==> recorder.Valid())
  }

  function StateFor<S>(m: Message<S>, last: S, compute: Computer<S>, empty: S): Option<S> {
    match m
    case InitialState(action, payload) => compute(action, payload, empty)
    case NextStep(action, payload) => compute(action, payload, last)
    case _ => None
  }

  /** Messages that let the replay go on: acknowledgements, and actions whose state
      can be computed. */
  predicate GoesOn<S>(m: Message<S>, last: S, compute: Computer<S>, empty: S) {
    m.StepOk? || StateFor(m, last, compute, empty).Some?
  }

  predicate AllGoOn<S>(messages: seq<Message<S>>, compute: Computer<S>, empty: S) {
    messages == []
    || var front := messages[..|messages| - 1];
       AllGoOn(front, compute, empty) && GoesOn(messages[|messages| - 1], LastOr(Threaded(front, compute, empty), empty), compute, empty)
  }

  /** What has been sent and counted for these messages. */
  ghost predicate Account<S>(messages: seq<Message<S>>, compute: Computer<S>, empty: S, sent: seq<S>, traces: nat, steps: nat) {
    && sent == Threaded(messages, compute, empty) && AllGoOn(messages, compute, empty)
    && traces == Initials(messages) && steps == Steps(messages)
  }

  lemma {:induction false} OneMore<S>(
      messages: seq<Message<S>>, n: nat, compute: Computer<S>, empty: S, sent: seq<S>, traces: nat, steps: nat)
    requires n < |messages| && Account(messages[..n], compute, empty, sent, traces, steps)
    requires GoesOn(messages[n], LastOr(sent, empty), compute, empty)
    ensures var m := messages[n]; var state := StateFor(m, LastOr(sent, empty), compute, empty);
      Account(messages[..n + 1], compute, empty, if m.StepOk? then sent else sent + [state.value],
              traces + (if m.InitialState? then 1 else 0), steps + if m.NextStep? then 1 else 0)
  {
    var upto := messages[..n + 1];
    assert upto[..|upto| - 1] == messages[..n] && upto[|upto| - 1] == messages[n];
  }

  /** How the loop left off after these messages. */
  datatype Ending = Done | Disagreed | Broken

  ghost predicate EndsAt<S>(ending: Ending, messages: seq<Message<S>>, used: nat, goesOn: bool, watched: bool) {
    && used <= |messages|
    && (ending.Done? ==> used < |messages| && messages[used].AllStepsDone?)
    && (ending.Disagreed? ==> used < |messages| && messages[used].StepMismatch?)
    && (ending.Broken? && !watched ==>
          used == |messages| || !(messages[used].AllStepsDone? || messages[used].StepMismatch? || goesOn))
  }

  /** The loop, up to the message that ends it. */
  method Exchange<S>(messages: seq<Message<S>>, compute: Computer<S>, empty: S, tracker: MatchedEvidenceTracker?,
                     recorder: ReplayRecorder?<Text>)
    returns (ending: Ending, sent: seq<S>, used: nat, traces: nat, steps: nat)
    requires Ready(tracker, recorder) && (recorder != null ==> recorder.statesReported == 0)
    modifies tracker, recorder
    ensures Standing(tracker, recorder)
    ensures used <= |messages| && Account(messages[..used], compute, empty, sent, traces, steps)
    ensures EndsAt(ending, messages, used,
                   used < |messages| && GoesOn(messages[used], LastOr(sent, empty), compute, empty), tracker != null)
    ensures tracker != null ==> (tracker.complete <==> ending.Done?) && (ending.Done? ==> tracker.uncertain == {})
    ensures ending.Done? ==> (recorder != null ==> recorder.statesReported == |sent|)
    ensures ending.Done? && tracker != null ==>
              tracker.reportedCount == old(tracker.reportedCount) + |sent| && tracker.started == old(tracker.started) + traces
    ensures !ending.Broken? && tracker != null ==> tracker.sealed
  {
    sent, used, traces, steps := [], 0, 0, 0;
    assert messages[..0] == [];
    while used < |messages|
      invariant used <= |messages| && Ready(tracker, recorder) && (recorder != null ==> recorder.statesReported == |sent|)
      invariant Account(messages[..used], compute, empty, sent, traces, steps)
      invariant tracker != null ==>
        tracker.reportedCount == old(tracker.reportedCount) + |sent| && tracker.started == old(tracker.started) + traces
      decreases |messages| - used
    {
      var m := messages[used];
      var turn := Take(m, LastOr(sent, empty), compute, empty, tracker, recorder);
      if turn.Stop? {
        ending := if turn.result.None? then Broken else if m.AllStepsDone? then Done else Disagreed;
        return;
      }
      OneMore(messages, used, compute, empty, sent, traces, steps);
      used := used + 1;
      if turn.Sent? {
        sent := sent + [turn.state];
        if m.InitialState? { traces := traces + 1; } else { steps := steps + 1; }
        if !turn.counted { break; }
      }
    }
    ending := Broken;
  }

  /** `replayCore`. The messages run out when the transport closes; every failure
      interrupts the tracker. Without a tracker only the messages and the computer
      decide what comes of it. */
  method Replay<S>(messages: seq<Message<S>>, compute: Computer<S>, empty: S, tracker: MatchedEvidenceTracker?,
                   recorder: ReplayRecorder?<Text>)
    returns (result: Result, sent: seq<S>, used: nat)
    requires Ready(tracker, recorder) && (recorder != null ==> recorder.statesReported == 0)
    modifies tracker, recorder
    ensures Standing(tracker, recorder) && (tracker != null ==> tracker.sealed)
    ensures used <= |messages| && sent == Threaded(messages[..used], compute, empty) && AllGoOn(messages[..used], compute, empty)
    ensures EndsAt(if result.Completed? then Done else if result.Mismatch? then Disagreed else Broken, messages, used,
                   used < |messages| && GoesOn(messages[used], LastOr(sent, empty), compute, empty), tracker != null)
    ensures result.Completed? ==> result == Completed(Initials(messages[..used]), Steps(messages[..used]))
    ensures tracker != null ==> (tracker.complete <==> result.Completed?) && (result.Completed? ==> tracker.uncertain == {})
    ensures result.Completed? && recorder != null ==> recorder.statesReported == |sent|
    ensures result.Completed? && tracker != null ==> tracker.reportedCount == old(tracker.reportedCount) + |sent|
    ensures result.Completed? && tracker != null ==> tracker.started == old(tracker.started) + result.acceptedTraces
  {
    var ending, traces, steps;
    ending, sent, used, traces, steps := Exchange(messages, compute, empty, tracker, recorder);
    match ending {
      case Done => result := Completed(traces, steps);
      case Disagreed => result := Mismatch;
      case Broken =>
        if tracker != null { var ok := tracker.Interrupt(false); }
        result := Failed;
    }
  }

  /** One turn of the loop. A refused action, a failed computation or an unexpected
      message stops it. */
  method Take<S>(m: Message<S>, last: S, compute: Computer<S>, empty: S, tracker: MatchedEvidenceTracker?, recorder: ReplayRecorder?<Text>)
    returns (turn: Turn<S>)
    requires Ready(tracker, recorder)
    modifies tracker, recorder
    ensures Standing(tracker, recorder)
    ensures turn.Continue? || (turn.Sent? && turn.counted) ==> Ready(tracker, recorder)
    ensures turn.Sent? && turn.counted && recorder != null ==> recorder.statesReported == old(recorder.statesReported) + 1
    ensures turn.Sent? ==> StateFor(m, last, compute, empty) == Some(turn.state)
    ensures turn.Continue? ==> m.StepOk? && (recorder != null ==> recorder.statesReported == old(recorder.statesReported))
    ensures turn.Stop? && turn.result.Some? ==> (m.AllStepsDone? || m.StepMismatch?) && (tracker != null ==> tracker.sealed)
    ensures tracker != null ==> (tracker.complete <==> turn.Stop? && turn.result.Some? && m.AllStepsDone?)
    ensures tracker != null && tracker.complete ==> tracker.uncertain == {}
    ensures tracker != null && (turn.Continue? || (turn.Stop? && turn.result.Some? && m.AllStepsDone?)) ==>
              tracker.reportedCount == old(tracker.reportedCount) && tracker.started == old(tracker.started)
    ensures turn.Sent? && turn.counted && tracker != null ==> tracker.reportedCount == old(tracker.reportedCount) + 1
    ensures turn.Sent? && turn.counted && tracker != null ==> tracker.started == old(tracker.started) + if m.InitialState? then 1 else 0
    ensures turn.Stop? && turn.result.Some? && recorder != null ==> recorder.statesReported == old(recorder.statesReported)
    ensures turn.Stop? && turn.result.Some? && m.AllStepsDone? && tracker != null && recorder != null ==>
              tracker.reportedCount == recorder.statesReported
    ensures tracker == null && turn.Stop? && turn.result.None? ==> !m.AllStepsDone? && !m.StepMismatch? && !GoesOn(m, last, compute, empty)
    ensures tracker == null && turn.Sent? ==> turn.counted
  {
    match m {
      case InitialState(action, payload) => turn := Execute(tracker, recorder, true, action, compute(action, payload, empty));
      case NextStep(action, payload) => turn := Execute(tracker, recorder, false, action, compute(action, payload, last));
      case StepOk => turn := Confirm(tracker, recorder);
      case AllStepsDone =>
        var ok := true;
        if tracker != null { ok := tracker.Finish(); }
        turn := Stop(if ok then Some(Completed(0, 0)) else None);
      case StepMismatch =>
        var ok := true;
        if tracker != null { ok := tracker.Interrupt(true); }
        turn := Stop(if ok then Some(Mismatch) else None);
      case OtherMessage => turn := Stop(None);
    }
  }

  method Confirm<S>(tracker: MatchedEvidenceTracker?, recorder: ReplayRecorder?<Text>) returns (turn: Turn<S>)
    requires Ready(tracker, recorder)
    modifies tracker, recorder
    ensures Standing(tracker, recorder)
    ensures !turn.Sent? && (turn.Continue? ==> Ready(tracker, recorder)) && (turn.Stop? ==> turn.result.None?)
    ensures tracker != null ==> !tracker.complete
    ensures turn.Continue? && recorder != null ==> recorder.statesReported == old(recorder.statesReported)
    ensures turn.Continue? && tracker != null ==> tracker.reportedCount == old(tracker.reportedCount) && tracker.started == old(tracker.started)
    ensures tracker == null ==> turn.Continue?
  {
    if tracker != null {
      var ok := tracker.Acknowledge();
      if !ok { return Stop(None); }
    }
    if recorder != null { recorder.Acknowledge(); }
    turn := Continue;
  }

  /** One action: it must be one the tracker expects, and its state is sent before the
      report is counted. Nothing is sent if the action is refused or fails. */
  method Execute<S>(tracker: MatchedEvidenceTracker?, recorder: ReplayRecorder?<Text>, initial: bool, action: Text, computed: Option<S>)
    returns (turn: Turn<S>)
    requires Ready(tracker, recorder)
    modifies tracker, recorder
    ensures Standing(tracker, recorder)
    ensures !turn.Continue? && (turn.Stop? ==> turn.result.None?) && (tracker != null ==> !tracker.complete)
    ensures turn.Sent? ==> computed == Some(turn.state)
    ensures turn.Sent? && turn.counted ==> Ready(tracker, recorder)
    ensures turn.Sent? && turn.counted && recorder != null ==> recorder.statesReported == old(recorder.statesReported) + 1
    ensures turn.Sent? && turn.counted && tracker != null ==> tracker.reportedCount == old(tracker.reportedCount) + 1
    ensures turn.Sent? && turn.counted && tracker != null ==> tracker.started == old(tracker.started) + if initial then 1 else 0
    ensures tracker == null ==> (turn.Sent? <==> computed.Some?) && (turn.Sent? ==> turn.counted)
  {
    turn := Stop(None);
    var ok := true;
    if tracker != null { ok := tracker.Begin(initial, action); }
    if !ok { return; }
    if recorder != null { recorder.Begin(initial); }
    if computed.None? { return; }
    if tracker != null { ok := tracker.Reported(); }
    if ok && recorder != null { recorder.Reported(action); }
    turn := Sent(computed.value, ok);
  }
}
