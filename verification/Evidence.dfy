/** What a corpus of traces contains, counted from the corpus alone. */
module Corpus {
  import opened JsonText

  /** A trace is the list of its action ids; the first is the initialisation. */
  type Trace = seq<Text>

  /** How often an action occurs as a transition. */
  function CountIn(t: Trace, id: Text): nat {
    if |t| <= 1 then 0 else CountIn(t[..|t| - 1], id) + if t[|t| - 1] == id then 1 else 0
  }

  /** How often one transition directly follows another. */
  function PairsIn(t: Trace, first: Text, second: Text): nat {
    if |t| <= 2 then 0
    else PairsIn(t[..|t| - 1], first, second) + if t[|t| - 2] == first && t[|t| - 1] == second then 1 else 0
  }

  function Occurrences(ts: seq<Trace>, id: Text): nat {
    if ts == [] then 0 else Occurrences(ts[..|ts| - 1], id) + CountIn(ts[|ts| - 1], id)
  }

  function PairOccurrences(ts: seq<Trace>, first: Text, second: Text): nat {
    if ts == [] then 0 else PairOccurrences(ts[..|ts| - 1], first, second) + PairsIn(ts[|ts| - 1], first, second)
  }

  function Initials(ts: seq<Trace>): nat {
    if ts == [] then 0 else Initials(ts[..|ts| - 1]) + if ts[|ts| - 1] == [] then 0 else 1
  }

  function Transitions(ts: seq<Trace>): nat {
    if ts == [] then 0 else Transitions(ts[..|ts| - 1]) + if ts[|ts| - 1] == [] then 0 else |ts[|ts| - 1]| - 1
  }

  /** The last trace with one more action. */
  function Extend(ts: seq<Trace>, id: Text): (r: seq<Trace>)
    requires ts != []
    ensures |r| == |ts| && r[|r| - 1] == ts[|ts| - 1] + [id] && r[..|r| - 1] == ts[..|ts| - 1]
  {
    ts[..|ts| - 1] + [ts[|ts| - 1] + [id]]
  }

  lemma {:induction false} ExtendCounts(ts: seq<Trace>, id: Text)
    requires ts != []
    ensures var t := ts[|ts| - 1];
      && (forall x :: Occurrences(Extend(ts, id), x) == Occurrences(ts, x) + if t != [] && id == x then 1 else 0)
      && Initials(Extend(ts, id)) == Initials(ts) + (if t == [] then 1 else 0)
      && Transitions(Extend(ts, id)) == Transitions(ts) + if t == [] then 0 else 1
  {
    var t := ts[|ts| - 1];
    assert (t + [id])[..|t|] == t;
  }

  lemma {:induction false} ExtendPairs(ts: seq<Trace>, id: Text)
    requires ts != []
    ensures var t := ts[|ts| - 1];
      forall x, y :: PairOccurrences(Extend(ts, id), x, y)
                  == PairOccurrences(ts, x, y) + if |t| >= 2 && t[|t| - 1] == x && id == y then 1 else 0
  {
    var t := ts[|ts| - 1];
    assert (t + [id])[..|t|] == t;
  }

  lemma {:induction false} EmptyTraceCounts(ts: seq<Trace>)
    ensures forall x :: Occurrences(ts + [[]], x) == Occurrences(ts, x)
    ensures forall x, y :: PairOccurrences(ts + [[]], x, y) == PairOccurrences(ts, x, y)
    ensures Initials(ts + [[]]) == Initials(ts) && Transitions(ts + [[]]) == Transitions(ts)
  {
    assert (ts + [[]])[..|ts|] == ts;
  }

  /** Where an action occurs, if it does. */
  ghost predicate OccursAt(ts: seq<Trace>, id: Text, i: int, j: int) {
    0 <= i < |ts| && 1 <= j < |ts[i]| && ts[i][j] == id
  }

  ghost predicate Occurs(ts: seq<Trace>, id: Text) {
    exists i, j :: OccursAt(ts, id, i, j)
  }

  ghost predicate FollowsAt(ts: seq<Trace>, first: Text, second: Text, i: int, j: int) {
    0 <= i < |ts| && 2 <= j < |ts[i]| && ts[i][j - 1] == first && ts[i][j] == second
  }

  ghost predicate Follows(ts: seq<Trace>, first: Text, second: Text) {
    exists i, j :: FollowsAt(ts, first, second, i, j)
  }

  lemma {:induction false} CountPositive(t: Trace, id: Text)
    ensures CountIn(t, id) > 0 <==> exists j :: 1 <= j < |t| && t[j] == id
  {
    if |t| > 1 {
      CountPositive(t[..|t| - 1], id);
      if CountIn(t[..|t| - 1], id) > 0 {
        var j :| 1 <= j < |t| - 1 && t[..|t| - 1][j] == id;
        assert t[j] == id;
      }
      if j :| 1 <= j < |t| && t[j] == id {
        if j < |t| - 1 { assert t[..|t| - 1][j] == id; }
      }
    }
  }

  lemma {:induction false} PairsPositive(t: Trace, x: Text, y: Text)
    ensures PairsIn(t, x, y) > 0 <==> exists j :: 2 <= j < |t| && t[j - 1] == x && t[j] == y
  {
    if |t| > 2 {
      PairsPositive(t[..|t| - 1], x, y);
      if PairsIn(t[..|t| - 1], x, y) > 0 {
        var j :| 2 <= j < |t| - 1 && t[..|t| - 1][j - 1] == x && t[..|t| - 1][j] == y;
        assert t[j - 1] == x && t[j] == y;
      }
      if j :| 2 <= j < |t| && t[j - 1] == x && t[j] == y {
        if j < |t| - 1 { assert t[..|t| - 1][j - 1] == x && t[..|t| - 1][j] == y; }
      }
    }
  }

  lemma {:induction false} OccurrencesPositive(ts: seq<Trace>, id: Text)
    ensures Occurrences(ts, id) > 0 <==> Occurs(ts, id)
  {
    if ts != [] {
      var n := |ts| - 1;
      OccurrencesPositive(ts[..n], id);
      CountPositive(ts[n], id);
      if Occurrences(ts[..n], id) > 0 {
        var i, j :| OccursAt(ts[..n], id, i, j);
        assert OccursAt(ts, id, i, j);
      }
      if CountIn(ts[n], id) > 0 {
        var j :| 1 <= j < |ts[n]| && ts[n][j] == id;
        assert OccursAt(ts, id, n, j);
      }
      if i, j :| OccursAt(ts, id, i, j) {
        if i < n { assert OccursAt(ts[..n], id, i, j); }
      }
    }
  }

  lemma {:induction false} PairOccurrencesPositive(ts: seq<Trace>, x: Text, y: Text)
    ensures PairOccurrences(ts, x, y) > 0 <==> Follows(ts, x, y)
  {
    if ts != [] {
      var n := |ts| - 1;
      PairOccurrencesPositive(ts[..n], x, y);
      PairsPositive(ts[n], x, y);
      if PairOccurrences(ts[..n], x, y) > 0 {
        var i, j :| FollowsAt(ts[..n], x, y, i, j);
        assert FollowsAt(ts, x, y, i, j);
      }
      if PairsIn(ts[n], x, y) > 0 {
        var j :| 2 <= j < |ts[n]| && ts[n][j - 1] == x && ts[n][j] == y;
        assert FollowsAt(ts, x, y, n, j);
      }
      if i, j :| FollowsAt(ts, x, y, i, j) {
        if i < n { assert FollowsAt(ts[..n], x, y, i, j); }
      }
    }
  }

  lemma {:induction false} AllInitials(ts: seq<Trace>)
    requires forall i :: 0 <= i < |ts| ==> ts[i] != []
    ensures Initials(ts) == |ts|
  {
    if ts != [] { AllInitials(ts[..|ts| - 1]); }
  }
}

/** Counting acknowledged actions while a replay runs. */
module MatchedEvidence {
  import opened Wrappers
  import opened JsonText
  import opened Corpus

  const MAX_COUNT: nat := 0x1F_FFFF_FFFF_FFFF

  datatype Uncertainty = Mapping | Protocol | CounterOverflow | MissingAck | MissingTracker

  datatype Label = Label(id: Text, initial: bool)

  datatype PairCount = PairCount(first: Text, second: Text, count: nat)

  function Last(ts: seq<Trace>): Trace { if ts == [] then [] else ts[|ts| - 1] }

  /** The last transition of the trace under way. */
  function PreviousIn(t: Trace): Option<Text> {
    if |t| >= 2 then Some(t[|t| - 1]) else None
  }

  /** Every trace but the last is as long as announced; none is longer. */
  ghost predicate WithinLengths(matched: seq<Trace>, lengths: seq<nat>) {
    && |matched| <= |lengths|
    && (forall i :: 0 <= i < |matched| - 1 ==> |matched[i]| == lengths[i])
    && (matched != [] ==> |Last(matched)| <= lengths[|matched| - 1])
  }

  /** The action expected at a place of the corpus, if one was announced. */
  function ExpectedAt(expected: Option<seq<Trace>>, i: int, j: nat): Option<Text> {
    if expected.Some? && 0 <= i < |expected.value| && j < |expected.value[i]| then Some(expected.value[i][j]) else None
  }

  ghost predicate Agrees(matched: seq<Trace>, expected: Option<seq<Trace>>) {
    forall i, j :: 0 <= i < |matched| && 0 <= j < |matched[i]| ==> Fits(matched[i][j], expected, i, j)
  }

  predicate Fits(id: Text, expected: Option<seq<Trace>>, i: int, j: nat) {
    ExpectedAt(expected, i, j) in {None, Some(id)}
  }

  lemma {:induction false} ExtendAgrees(matched: seq<Trace>, id: Text, expected: Option<seq<Trace>>)
    requires matched != [] && Agrees(matched, expected) && Fits(id, expected, |matched| - 1, |Last(matched)|)
    ensures Agrees(Extend(matched, id), expected)
  {
    var r := Extend(matched, id);
    forall i, j | 0 <= i < |r| && 0 <= j < |r[i]| ensures Fits(r[i][j], expected, i, j) {
      if i < |r| - 1 { assert r[i] == r[..|r| - 1][i] == matched[i]; }
    }
  }

  // ----- The counters as a value -----

  /** `matched` is what has been acknowledged so far, trace by trace. */
  datatype Tally = Tally(
    actions: map<Text, nat>, pairs: seq<PairCount>, initials: nat, transitions: nat,
    current: nat, previous: Option<Text>, matched: seq<Trace>)

  ghost predicate Counted(t: Tally) {
    && (forall id :: id in t.actions ==> t.actions[id] == Occurrences(t.matched, id))
    && (forall i :: 0 <= i < |t.pairs| ==> PairRight(t.pairs[i], t.matched))
    && t.initials == Initials(t.matched) && t.transitions == Transitions(t.matched)
  }

  ghost predicate PairRight(p: PairCount, matched: seq<Trace>) {
    p.count == PairOccurrences(matched, p.first, p.second)
  }

  /** The counters are those of the actions matched, which are within the announced
      lengths and agree with the corpus. */
  ghost predicate Exact(t: Tally, lengths: seq<nat>, expected: Option<seq<Trace>>) {
    && Counted(t) && t.current == |Last(t.matched)| && t.previous == PreviousIn(Last(t.matched))
    && WithinLengths(t.matched, lengths) && Agrees(t.matched, expected)
  }

  /** What is under way may be the next action of the trace. */
  ghost predicate Next(t: Tally, p: Label, lengths: seq<nat>, expected: Option<seq<Trace>>) {
    && 0 < |t.matched| <= |lengths| && t.current < lengths[|t.matched| - 1]
    && (p.initial <==> t.current == 0) && Fits(p.id, expected, |t.matched| - 1, t.current)
  }

  /** The counters after one acknowledgement. */
  function Committed(t: Tally, p: Label, pairs: seq<PairCount>): Tally
    requires t.matched != []
  {
    if p.initial then
      t.(initials := t.initials + 1, current := t.current + 1, previous := None, matched := Extend(t.matched, p.id))
    else
      t.(transitions := t.transitions + 1, current := t.current + 1, previous := Some(p.id), pairs := pairs,
         actions := if p.id in t.actions then t.actions[p.id := t.actions[p.id] + 1] else t.actions,
         matched := Extend(t.matched, p.id))
  }

  /** Each pair counted once more if the two actions complete it. */
  ghost predicate PairsCounted(before: seq<PairCount>, after: seq<PairCount>, previous: Option<Text>, id: Text) {
    SamePairs(after, before)
    && forall i :: 0 <= i < |before| ==>
         after[i].count == before[i].count + if previous == Some(before[i].first) && id == before[i].second then 1 else 0
  }

  lemma {:induction false} CommittedPairs(t: Tally, p: Label, pairs: seq<PairCount>)
    requires Counted(t) && t.matched != [] && t.previous == PreviousIn(Last(t.matched)) && (p.initial <==> Last(t.matched) == [])
    requires !p.initial ==> PairsCounted(t.pairs, pairs, t.previous, p.id)
    ensures forall i :: 0 <= i < |Committed(t, p, pairs).pairs| ==> PairRight(Committed(t, p, pairs).pairs[i], Extend(t.matched, p.id))
  {
    var c := Committed(t, p, pairs);
    ExtendPairs(t.matched, p.id);
    forall i | 0 <= i < |c.pairs| ensures PairRight(c.pairs[i], Extend(t.matched, p.id)) {
      assert PairRight(t.pairs[i], t.matched);
    }
  }

  lemma {:induction false} CommittedIs(t: Tally, p: Label, pairs: seq<PairCount>)
    requires t.matched != []
    ensures var c := Committed(t, p, pairs);
      c.current == t.current + 1 && |c.matched| == |t.matched| && c.initials + c.transitions == t.initials + t.transitions + 1
      && c.actions.Keys == t.actions.Keys
  {
  }

  lemma {:induction false} CommitCounted(t: Tally, p: Label, pairs: seq<PairCount>)
    requires Counted(t) && t.matched != [] && t.previous == PreviousIn(Last(t.matched)) && (p.initial <==> Last(t.matched) == [])
    requires !p.initial ==> PairsCounted(t.pairs, pairs, t.previous, p.id)
    ensures Counted(Committed(t, p, pairs))
  {
    ExtendCounts(t.matched, p.id);
    CommittedPairs(t, p, pairs);
  }

  lemma {:induction false} CommitLast(t: Tally, p: Label, pairs: seq<PairCount>)
    requires t.matched != [] && t.current == |Last(t.matched)| && (p.initial <==> t.current == 0)
    ensures var c := Committed(t, p, pairs); c.current == |Last(c.matched)| && c.previous == PreviousIn(Last(c.matched))
  {
    assert Last(Extend(t.matched, p.id)) == Last(t.matched) + [p.id];
  }

  lemma {:induction false} CommitBounds(t: Tally, p: Label, lengths: seq<nat>, expected: Option<seq<Trace>>)
    requires Exact(t, lengths, expected) && Next(t, p, lengths, expected)
    ensures WithinLengths(Extend(t.matched, p.id), lengths) && Agrees(Extend(t.matched, p.id), expected)
  {
    ExtendAgrees(t.matched, p.id, expected);
    ExtendWithin(t.matched, p.id, lengths);
  }

  lemma {:induction false} CommitExact(t: Tally, p: Label, pairs: seq<PairCount>, lengths: seq<nat>, expected: Option<seq<Trace>>)
    requires Exact(t, lengths, expected) && Next(t, p, lengths, expected)
    requires !p.initial ==> PairsCounted(t.pairs, pairs, t.previous, p.id)
    ensures Exact(Committed(t, p, pairs), lengths, expected)
  {
    CommitCounted(t, p, pairs);
    CommitLast(t, p, pairs);
    CommitBounds(t, p, lengths, expected);
    assert Committed(t, p, pairs).matched == Extend(t.matched, p.id);
  }

  lemma {:induction false} ExtendWithin(matched: seq<Trace>, id: Text, lengths: seq<nat>)
    requires matched != [] && WithinLengths(matched, lengths) && |Last(matched)| < lengths[|matched| - 1]
    ensures WithinLengths(Extend(matched, id), lengths)
  {
    var r := Extend(matched, id);
    forall i | 0 <= i < |r| - 1 ensures |r[i]| == lengths[i] { assert r[i] == r[..|r| - 1][i] == matched[i]; }
  }

  /** What is matched after an acknowledgement of what is pending, if anything is. */
  function MatchedNext(matched: seq<Trace>, pending: Option<Label>): seq<Trace> {
    if pending.None? || matched == [] then matched else Extend(matched, pending.value.id)
  }

  /** The counters when the next trace begins. */
  function Opened(t: Tally): Tally {
    t.(current := 0, previous := None, matched := t.matched + [[]])
  }

  lemma {:induction false} OpenExact(t: Tally, lengths: seq<nat>, expected: Option<seq<Trace>>)
    requires Exact(t, lengths, expected) && |t.matched| < |lengths|
    requires t.matched != [] ==> t.current == lengths[|t.matched| - 1]
    ensures Exact(Opened(t), lengths, expected)
  {
    OpenCounted(t);
    var r := t.matched + [[]];
    forall i | 0 <= i < |r| - 1 ensures |r[i]| == lengths[i] { assert r[i] == t.matched[i]; }
    forall i, j | 0 <= i < |r| && 0 <= j < |r[i]| ensures Fits(r[i][j], expected, i, j) { assert r[i] == t.matched[i]; }
  }

  lemma {:induction false} OpenCounted(t: Tally)
    requires Counted(t)
    ensures Counted(Opened(t))
  {
    var r := t.matched + [[]];
    EmptyTraceCounts(t.matched);
    forall i | 0 <= i < |t.pairs| ensures PairRight(t.pairs[i], r) { assert PairRight(t.pairs[i], t.matched); }
  }

  class MatchedEvidenceTracker {
    const lengths: seq<nat>
    const strict: bool
    const expected: Option<seq<Trace>>
    const labels: map<Text, Label>
    const requiredActions: set<Text>
    const requiredPairs: seq<(Text, Text)>
    var actions: map<Text, nat>
    var pairs: seq<PairCount>
    var uncertain: set<Uncertainty>
    var entered: bool
    var complete: bool
    var sealed: bool
    var started: nat
    var completed: nat
    var initialMatched: nat
    var transitionMatched: nat
    var reportedCount: nat
    var currentMatched: nat
    var previous: Option<Text>
    var active: Option<Label>
    var pending: Option<Label>
    ghost var matched: seq<Trace>

    ghost function Counters(): Tally
      reads this
    {
      Tally(actions, pairs, initialMatched, transitionMatched, currentMatched, previous, matched)
    }

    /** What is counted never changes. */
    ghost predicate Required()
      reads this
    {
      actions.Keys == requiredActions && PairsOf(pairs, requiredPairs)
    }

    /** The counters are right; and every state reported is matched or pending. */
    ghost predicate Sound()
      reads this
    {
      && Exact(Counters(), lengths, expected) && |matched| == started
      && reportedCount == initialMatched + transitionMatched + (if pending.Some? then 1 else 0)
    }

    /** What is under way, if anything, may come next. */
    ghost predicate Open()
      reads this
    {
      && !(active.Some? && pending.Some?) && uncertain == {} && !complete
      && completed == (if started == 0 then 0 else started - 1) && (started > 0 ==> entered)
      && (active.Some? ==> Next(Counters(), active.value, lengths, expected))
      && (pending.Some? ==> Next(Counters(), pending.value, lengths, expected))
      && (active.None? && pending.None? && started > 0 ==> currentMatched > 0)
    }

    /** As long as the tracker has not failed its counters are right; and it is complete
        only with every trace matched. */
    ghost predicate Valid()
      reads this
    {
      && (forall i :: 0 <= i < |lengths| ==> lengths[i] >= 1) && Required()
      && (!sealed || complete ==> Sound())
      && (!sealed ==> Open())
      && (complete ==> sealed && active.None? && pending.None? && Whole()) && completed <= MAX_COUNT
    }

    /** Every announced trace was begun and ended, and the last has its full length. */
    ghost predicate Whole()
      reads this
    {
      entered && completed == started == |lengths| && |lengths| > 0 && currentMatched == lengths[|lengths| - 1]
    }

    constructor (lengths: seq<nat>, labels: map<Text, Label>, requiredActions: seq<Text>, requiredPairs: seq<(Text, Text)>,
                 strict: bool, expected: Option<seq<Trace>>)
      requires forall i :: 0 <= i < |lengths| ==> lengths[i] >= 1
      ensures Valid() && !sealed && matched == [] && active.None? && started == 0 && reportedCount == 0 && fresh(this)
      ensures this.lengths == lengths && this.expected == expected && this.labels == labels && this.strict == strict
      ensures this.requiredActions == (set id | id in requiredActions) && this.requiredPairs == requiredPairs
    {
      this.requiredActions := (set id | id in requiredActions);
      this.requiredPairs := requiredPairs;
      this.lengths, this.labels, this.strict, this.expected := lengths, labels, strict, expected;
      actions := map id | id in requiredActions :: 0;
      pairs := seq(|requiredPairs|, i requires 0 <= i < |requiredPairs| => PairCount(requiredPairs[i].0, requiredPairs[i].1, 0));
      uncertain, entered, complete, sealed := {}, false, false, false;
      started, completed, initialMatched, transitionMatched, reportedCount, currentMatched := 0, 0, 0, 0, 0, 0;
      previous, active, pending, matched := None, None, None, [];
    }

    /** Every failure seals the tracker. */
    method Fail(reason: Uncertainty) returns (ok: bool)
      modifies this`uncertain, this`sealed
      ensures !ok && sealed && uncertain == old(uncertain) + {reason}
    {
      uncertain := uncertain + {reason};
      sealed := true;
      ok := false;
    }

    /** Acknowledges what is pending; false if a counter overflows. */
    method Commit() returns (ok: bool)
      requires Valid() && !sealed && active.None?
      modifies this
      ensures Valid() && !complete && sealed == !ok
      ensures ok ==> pending.None? && active.None?
      ensures ok ==> matched == MatchedNext(old(matched), old(pending))
      ensures ok ==> started == old(started) && completed == old(completed) && entered == old(entered)
      ensures reportedCount == old(reportedCount)
    {
      ok := true;
      if pending.Some? { ok := CommitSome(); }
    }

    method CommitSome() returns (ok: bool)
      requires Valid() && !sealed && pending.Some?
      modifies this`pending, this`currentMatched, this`initialMatched, this`transitionMatched, this`actions, this`pairs, this`previous,
               this`uncertain, this`sealed, this`matched
      ensures Valid() && sealed == !ok && (ok ==> pending.None?)
      ensures ok ==> matched == MatchedNext(old(matched), old(pending))
    {
      ok := CommitPending(pending.value);
      if ok { assert Sound(); }
    }

    method CommitPending(p: Label) returns (ok: bool)
      requires !sealed && Exact(Counters(), lengths, expected) && Next(Counters(), p, lengths, expected) && Required()
      modifies this`pending, this`currentMatched, this`initialMatched, this`transitionMatched, this`actions, this`pairs, this`previous,
               this`uncertain, this`sealed, this`matched
      ensures sealed == !ok && pending.None? && Required()
      ensures ok ==> uncertain == old(uncertain) && Exact(Counters(), lengths, expected)
      ensures ok ==> matched == MatchedNext(old(matched), Some(p))
      ensures ok ==> |matched| == |old(matched)| && currentMatched == old(currentMatched) + 1
      ensures ok ==> initialMatched + transitionMatched == old(initialMatched + transitionMatched) + 1
    {
      ghost var before := Counters();
      ok := CountPending(p);
      if !ok { return; }
      assert !p.initial ==> PairsCounted(before.pairs, pairs, before.previous, p.id);
      CommitExact(before, p, pairs, lengths, expected);
      CommittedIs(before, p, pairs);
    }

    method CountPending(p: Label) returns (ok: bool)
      requires !sealed && matched != []
      modifies this`pending, this`currentMatched, this`initialMatched, this`transitionMatched, this`actions, this`pairs, this`previous,
               this`uncertain, this`sealed, this`matched
      ensures sealed == !ok && pending.None? && actions.Keys == old(actions.Keys) && SamePairs(pairs, old(pairs))
      ensures ok ==> uncertain == old(uncertain) && Counters() == Committed(old(Counters()), p, pairs)
      ensures ok ==> !p.initial ==> PairsCounted(old(pairs), pairs, old(previous), p.id)
    {
      pending := None;
      if currentMatched == MAX_COUNT { ok := Fail(CounterOverflow); return; }
      currentMatched := currentMatched + 1;
      if p.initial { ok := CountInitial(); } else { ok := CountTransition(p.id); }
      if ok { matched := Extend(matched, p.id); }
    }

    method CountInitial() returns (ok: bool)
      requires !sealed
      modifies this`initialMatched, this`previous, this`uncertain, this`sealed
      ensures sealed == !ok
      ensures ok ==> initialMatched == old(initialMatched) + 1 && previous == None && uncertain == old(uncertain)
    {
      if initialMatched == MAX_COUNT { ok := Fail(CounterOverflow); return; }
      initialMatched := initialMatched + 1;
      previous := None;
      ok := true;
    }

    method CountTransition(id: Text) returns (ok: bool)
      requires !sealed
      modifies this`transitionMatched, this`actions, this`pairs, this`previous, this`uncertain, this`sealed
      ensures sealed == !ok
      ensures ok ==> transitionMatched == old(transitionMatched) + 1 && previous == Some(id) && uncertain == old(uncertain)
      ensures ok ==> actions == if id in old(actions) then old(actions)[id := old(actions)[id] + 1] else old(actions)
      ensures ok ==> PairsCounted(old(pairs), pairs, old(previous), id)
      ensures actions.Keys == old(actions.Keys) && SamePairs(pairs, old(pairs))
    {
      if transitionMatched == MAX_COUNT { ok := Fail(CounterOverflow); return; }
      transitionMatched := transitionMatched + 1;
      if id in actions {
        if actions[id] == MAX_COUNT { ok := Fail(CounterOverflow); return; }
        actions := actions[id := actions[id] + 1];
      }
      var counted := CountPairs(pairs, previous, id);
      if counted.None? { ok := Fail(CounterOverflow); return; }
      pairs := counted.value;
      previous := Some(id);
      ok := true;
    }

    /** The trace under way must have all its states. */
    method FinishTrace() returns (ok: bool)
      requires !sealed && started <= |lengths| && completed <= MAX_COUNT
      modifies this`completed, this`uncertain, this`sealed
      ensures sealed == !ok && completed <= MAX_COUNT
      ensures ok ==> started > 0 && currentMatched == lengths[started - 1] && completed == old(completed) + 1
      ensures ok ==> uncertain == old(uncertain)
    {
      if started == 0 || currentMatched != lengths[started - 1] { ok := Fail(Protocol); return; }
      if completed == MAX_COUNT { ok := Fail(CounterOverflow); return; }
      completed := completed + 1;
      ok := true;
    }

    method Begin(initial: bool, wireAction: Text) returns (ok: bool)
      requires Valid()
      modifies this
      ensures Valid()
      ensures ok ==> !sealed && pending.None? && wireAction in labels && active == Some(labels[wireAction])
      ensures ok ==> labels[wireAction].initial == initial && (initial || old(started) > 0)
      ensures ok ==> started == old(started) + if initial then 1 else 0
      ensures reportedCount == old(reportedCount)
      ensures (!ok ==> sealed) && (!old(sealed) ==> !complete)
    {
      if sealed || active.Some? { ok := Fail(Protocol); return; }
      if wireAction !in labels || labels[wireAction].initial != initial { ok := Fail(Mapping); return; }
      if strict && pending.Some? { ok := Fail(MissingAck); return; }
      ok := Commit();
      if !ok { return; }
      ok := Place(labels[wireAction]);
    }

    /** An initialisation opens a trace; a transition needs room in the one under way. */
    method Place(action: Label) returns (ok: bool)
      requires Valid() && !sealed && active.None? && pending.None?
      modifies this
      ensures Valid() && sealed == !ok && (ok ==> active == Some(action) && pending.None?)
      ensures ok ==> (action.initial || old(started) > 0) && started == old(started) + if action.initial then 1 else 0
      ensures reportedCount == old(reportedCount) && !complete
    {
      if action.initial { ok := PlaceFirst(action); } else { ok := PlaceNext(action); }
    }

    method PlaceFirst(action: Label) returns (ok: bool)
      requires Valid() && !sealed && active.None? && pending.None? && action.initial
      modifies this`completed, this`uncertain, this`sealed, this`started, this`matched, this`currentMatched, this`previous,
               this`active, this`entered
      ensures Valid() && sealed == !ok && !complete && (ok ==> active == Some(action) && started == old(started) + 1)
    {
      ok := OpenTrace();
      if !ok { return; }
      ok := Take(action);
    }

    method PlaceNext(action: Label) returns (ok: bool)
      requires Valid() && !sealed && active.None? && pending.None? && !action.initial
      modifies this`uncertain, this`sealed, this`active, this`entered
      ensures Valid() && sealed == !ok && !complete && (ok ==> active == Some(action) && started > 0)
    {
      if started == 0 || currentMatched >= lengths[started - 1] { ok := Fail(Protocol); return; }
      ok := Take(action);
    }

    /** The action is under way, if the corpus has it here. */
    method Take(action: Label) returns (ok: bool)
      requires !sealed && Sound() && Required() && active.None? && pending.None? && uncertain == {} && !complete
      requires (forall i :: 0 <= i < |lengths| ==> lengths[i] >= 1) && completed <= MAX_COUNT
      requires 0 < started <= |lengths| && currentMatched < lengths[started - 1] && completed == started - 1
      requires action.initial <==> currentMatched == 0
      modifies this`active, this`entered, this`uncertain, this`sealed
      ensures Valid() && sealed == !ok && (ok ==> active == Some(action))
    {
      if !Fits(action.id, expected, started - 1, currentMatched) { ok := Fail(Protocol); return; }
      entered := true;
      active := Some(action);
      ok := true;
    }

    /** An initial state closes the trace before it, if there is one, and opens the next. */
    method OpenTrace() returns (ok: bool)
      requires Valid() && !sealed && active.None? && pending.None?
      modifies this`completed, this`uncertain, this`sealed, this`started, this`matched, this`currentMatched, this`previous
      ensures sealed == !ok && completed <= MAX_COUNT
      ensures ok ==> Sound() && uncertain == {} && completed == started - 1 && currentMatched == 0
      ensures ok ==> Counters() == Opened(old(Counters())) && started == old(started) + 1 <= |lengths|
    {
      if started > 0 {
        ok := FinishTrace();
        if !ok { return; }
      }
      if started == |lengths| { ok := Fail(Protocol); return; }
      AddTrace();
      ok := true;
    }

    method AddTrace()
      requires Sound() && pending.None? && started < |lengths| && (started > 0 ==> currentMatched == lengths[started - 1])
      modifies this`started, this`matched, this`currentMatched, this`previous
      ensures Sound() && Counters() == Opened(old(Counters())) && started == old(started) + 1 && currentMatched == 0
    {
      OpenExact(Counters(), lengths, expected);
      started := started + 1;
      matched := matched + [[]];
      currentMatched := 0;
      previous := None;
    }

    method Reported() returns (ok: bool)
      requires Valid()
      modifies this`reportedCount, this`pending, this`active, this`uncertain, this`sealed
      ensures Valid()
      ensures ok ==> !sealed && pending == old(active) && pending.Some? && active.None?
      ensures reportedCount == old(reportedCount) + if ok then 1 else 0
      ensures !ok ==> sealed
    {
      if sealed || active.None? || pending.Some? { ok := Fail(Protocol); return; }
      if reportedCount == MAX_COUNT { ok := Fail(CounterOverflow); return; }
      AwaitReply();
      ok := true;
    }

    method AwaitReply()
      requires Valid() && !sealed && active.Some?
      modifies this`reportedCount, this`pending, this`active
      ensures Valid() && pending == old(active) && active.None? && reportedCount == old(reportedCount) + 1
    {
      reportedCount := reportedCount + 1;
      pending := active;
      active := None;
    }

    method Acknowledge() returns (ok: bool)
      requires Valid()
      modifies this
      ensures Valid()
      ensures ok ==> !sealed && old(pending).Some? && pending.None? && old(matched) != []
      ensures ok ==> matched == Extend(old(matched), old(pending).value.id) && active.None? && started == old(started)
      ensures reportedCount == old(reportedCount)
      ensures (!ok ==> sealed) && (!old(sealed) ==> !complete)
    {
      if sealed || pending.None? { ok := Fail(Protocol); return; }
      ok := Commit();
    }

    /** The end of the replay. When it is accepted every announced trace was matched to
        its full length, and the counters are those of the traces matched. */
    method Finish() returns (ok: bool)
      requires Valid()
      modifies this
      ensures Valid() && sealed && reportedCount == old(reportedCount)
      ensures ok ==> complete && uncertain == {} && Sound() && Whole() && pending.None? && started == old(started)
      ensures ok ==> forall i :: 0 <= i < |lengths| ==> |matched[i]| == lengths[i]
      ensures !old(sealed) && complete ==> ok
    {
      if sealed || active.Some? { ok := Fail(Protocol); return; }
      if strict && pending.Some? { ok := Fail(MissingAck); return; }
      ok := Commit();
      if !ok { return; }
      ok := Seal();
    }

    method Seal() returns (ok: bool)
      requires Valid() && !sealed && active.None? && pending.None?
      modifies this`completed, this`uncertain, this`sealed, this`complete
      ensures Valid() && sealed && complete == ok && (ok ==> uncertain == {} && Sound() && Whole())
      ensures ok ==> forall i :: 0 <= i < |lengths| ==> |matched[i]| == lengths[i]
    {
      ok := FinishTrace();
      if !ok { return; }
      if started != |lengths| { ok := Fail(Protocol); return; }
      complete := true;
      sealed := true;
    }

    /** The replay ends otherwise; a rejection of the pending state is not counted, and one
        without a pending state is itself an error. */
    method Interrupt(rejected: bool) returns (ok: bool)
      requires Valid()
      modifies this`uncertain, this`pending, this`active, this`sealed
      ensures Valid() && sealed && (ok <==> old(sealed) || !rejected || old(pending).Some?)
      ensures old(sealed) ==> uncertain == old(uncertain)
      ensures !old(sealed) ==> (uncertain == {} <==> (if rejected then old(pending).Some? else old(pending).None?))
    {
      if sealed { return true; }
      if rejected && pending.None? { ok := Fail(Protocol); return; }
      ok := true;
      if pending.Some? && !rejected { uncertain := uncertain + {MissingAck}; }
      pending := None;
      active := None;
      sealed := true;
    }
  }

  ghost predicate PairsOf(pairs: seq<PairCount>, required: seq<(Text, Text)>) {
    |pairs| == |required| && forall i :: 0 <= i < |pairs| ==> pairs[i].first == required[i].0 && pairs[i].second == required[i].1
  }

  ghost predicate SamePairs(a: seq<PairCount>, b: seq<PairCount>) {
    |a| == |b| && forall i :: 0 <= i < |a| ==> a[i].first == b[i].first && a[i].second == b[i].second
  }

  /** One more of every required pair that has just been completed. */
  method CountPairs(pairs: seq<PairCount>, previous: Option<Text>, id: Text) returns (r: Option<seq<PairCount>>)
    ensures r.Some? ==> SamePairs(r.value, pairs)
    ensures r.Some? ==> forall i :: 0 <= i < |pairs| ==>
              r.value[i].count == pairs[i].count + if previous == Some(pairs[i].first) && id == pairs[i].second then 1 else 0
    ensures r.None? <==> exists i :: 0 <= i < |pairs| && pairs[i].count == MAX_COUNT
                                     && previous == Some(pairs[i].first) && id == pairs[i].second
  {
    var out: seq<PairCount> := [];
    for n := 0 to |pairs|
      invariant |out| == n
      invariant forall i :: 0 <= i < n ==> out[i].first == pairs[i].first && out[i].second == pairs[i].second
      invariant forall i :: 0 <= i < n ==>
        out[i].count == pairs[i].count + if previous == Some(pairs[i].first) && id == pairs[i].second then 1 else 0
      invariant forall i :: 0 <= i < n && previous == Some(pairs[i].first) && id == pairs[i].second ==> pairs[i].count != MAX_COUNT
    {
      var p := pairs[n];
      if previous == Some(p.first) && id == p.second {
        if p.count == MAX_COUNT { return None; }
        out := out + [PairCount(p.first, p.second, p.count + 1)];
      } else {
        out := out + [p];
      }
    }
    r := Some(out);
  }

  /** Traces of the announced lengths that agree with a corpus of those lengths are
      the corpus. */
  lemma {:induction false} MatchedIsCorpus(matched: seq<Trace>, corpus: seq<Trace>)
    requires |matched| == |corpus| && forall i :: 0 <= i < |matched| ==> |matched[i]| == |corpus[i]|
    requires Agrees(matched, Some(corpus))
    ensures matched == corpus
  {
    forall i | 0 <= i < |matched| ensures matched[i] == corpus[i] {
      forall j | 0 <= j < |matched[i]| ensures matched[i][j] == corpus[i][j] {
        assert Fits(matched[i][j], Some(corpus), i, j);
      }
    }
  }
}
