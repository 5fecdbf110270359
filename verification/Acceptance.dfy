/** The acceptance verdict, and what it says of the corpus. */
module Acceptance {
  import opened Wrappers
  import opened JsonText
  import opened Corpus
  import opened MatchedEvidence

  const MAX_REQUIRED_ACTIONS := 256
  const MAX_REQUIRED_PAIRS := 1024

  datatype Requirements = Requirements(actions: seq<Text>, pairs: seq<(Text, Text)>)

  /** Counters as decimal text; tables keyed by action id and by pair key. */
  datatype SuiteEvidence = SuiteEvidence(
    enteredReplay: bool, complete: bool, exact: bool, tracesExpected: int, tracesCompleted: int,
    initializationsMatched: Text, transitionsMatched: Text,
    actionCounts: map<Text, Text>, pairCounts: map<Text, Text>)

  datatype Status = Met | Unmet | Incomplete | NotEvaluated

  datatype Assessment = Assessment(status: Status, missingActions: seq<Text>, missingPairs: seq<(Text, Text)>)

  predicate Distinct<T(==)>(xs: seq<T>) {
    forall i, j :: 0 <= i < j < |xs| ==> xs[i] != xs[j]
  }

  /** `validateAcceptanceRequirements`, for requirements that name no identifiers to check. */
  predicate ValidRequirements(r: Requirements) {
    && |r.actions| <= MAX_REQUIRED_ACTIONS && |r.pairs| <= MAX_REQUIRED_PAIRS
    && (forall i :: 0 <= i < |r.actions| ==> r.actions[i] != [])
    && (forall i :: 0 <= i < |r.pairs| ==> r.pairs[i].0 != [] && r.pairs[i].1 != [])
    && Distinct(r.actions) && Distinct(r.pairs)
  }

  /** `acceptancePairKey`. */
  function PairKey(p: (Text, Text)): Text {
    Render(Arr([Json.Str(p.0), Json.Str(p.1)]), Stringify)
  }

  lemma {:induction false} PairKeyInjective(p: (Text, Text), q: (Text, Text))
    ensures PairKey(p) == PairKey(q) <==> p == q
  {
    var x, y := [Json.Str(p.0), Json.Str(p.1)], [Json.Str(q.0), Json.Str(q.1)];
    SameTextSameTree(Arr(x), Arr(y), Stringify);
    assert x[0] == Json.Str(p.0) && x[1] == Json.Str(p.1) && y[0] == Json.Str(q.0) && y[1] == Json.Str(q.1);
  }

  /** A canonical natural number in a table. */
  function CountOf(table: map<Text, Text>, key: Text): Option<int> {
    if key in table && CanonicalNatural(table[key]) then Some(DigitsValue(table[key])) else None
  }

  predicate CanonicalNatural(t: Text) {
    t != [] && (forall i :: 0 <= i < |t| ==> Digit(t[i])) && (t[0] == 0x30 ==> |t| == 1)
  }

  lemma {:induction false} DigitsCanonical(n: nat)
    ensures CanonicalNatural(Digits(n)) && (Digits(n)[0] == 0x30 <==> n == 0)
  {
    if n >= 10 { DigitsCanonical(n / 10); }
  }

  function Missing<T(!new)>(xs: seq<T>, zero: T -> bool): (r: seq<T>)
    ensures forall x :: x in r <==> x in xs && zero(x)
    ensures r == [] <==> forall x :: x in xs ==> !zero(x)
  {
    if xs == [] then []
    else if zero(xs[0]) then [xs[0]] + Missing(xs[1..], zero)
    else Missing(xs[1..], zero)
  }

  /** `evaluateAcceptance`; nothing where it throws. */
  function Evaluate(r: Requirements, e: SuiteEvidence): Option<Assessment> {
    if !ValidRequirements(r) then None
    else if !e.enteredReplay then Some(Assessment(NotEvaluated, [], []))
    else if !e.complete || !e.exact || !(0 < e.tracesExpected <= MAX_COUNT) || e.tracesCompleted != e.tracesExpected
            || e.initializationsMatched != Decimal(e.tracesExpected) then Some(Assessment(Incomplete, [], []))
    else if (exists i :: 0 <= i < |r.actions| && CountOf(e.actionCounts, r.actions[i]).None?)
            || (exists i :: 0 <= i < |r.pairs| && CountOf(e.pairCounts, PairKey(r.pairs[i])).None?) then
      Some(Assessment(Incomplete, [], []))
    else
      var actions := Missing(r.actions, id => CountOf(e.actionCounts, id) == Some(0));
      var pairs := Missing(r.pairs, p => CountOf(e.pairCounts, PairKey(p)) == Some(0));
      Some(Assessment(if actions == [] && pairs == [] then Met else Unmet, actions, pairs))
  }

  // ----- Evidence taken from a tracker -----

  function ActionTable(actions: map<Text, nat>): map<Text, Text> {
    map id | id in actions :: Digits(actions[id])
  }

  function PairTable(pairs: seq<PairCount>): map<Text, Text> {
    if pairs == [] then map[]
    else
      var last := pairs[|pairs| - 1];
      PairTable(pairs[..|pairs| - 1])[PairKey((last.first, last.second)) := Digits(last.count)]
  }

  /** `evidenceFromTracker`. */
  function EvidenceOf(t: Tally, entered: bool, complete: bool, exact: bool, selected: nat, completed: nat): SuiteEvidence {
    SuiteEvidence(entered, complete, exact, selected, completed, Digits(t.initials), Digits(t.transitions),
                  ActionTable(t.actions), PairTable(t.pairs))
  }

  lemma {:induction false} PairTableAt(pairs: seq<PairCount>, i: nat)
    requires i < |pairs|
    requires forall j, k :: 0 <= j < k < |pairs| ==> (pairs[j].first, pairs[j].second) != (pairs[k].first, pairs[k].second)
    ensures var key := PairKey((pairs[i].first, pairs[i].second)); key in PairTable(pairs) && PairTable(pairs)[key] == Digits(pairs[i].count)
  {
    var n := |pairs| - 1;
    if i < n {
      PairTableAt(pairs[..n], i);
      assert pairs[..n][i] == pairs[i];
      PairKeyInjective((pairs[i].first, pairs[i].second), (pairs[n].first, pairs[n].second));
    }
  }

  lemma {:induction false} ActionCountRead(t: Tally, corpus: seq<Trace>, id: Text)
    requires Counted(t) && t.matched == corpus && id in t.actions
    ensures CountOf(ActionTable(t.actions), id) == Some(Occurrences(corpus, id))
    ensures CountOf(ActionTable(t.actions), id) == Some(0) <==> !Occurs(corpus, id)
  {
    DigitsCanonical(t.actions[id]);
    DigitsDenote(t.actions[id]);
    OccurrencesPositive(corpus, id);
  }

  lemma {:induction false} PairCountRead(t: Tally, corpus: seq<Trace>, required: seq<(Text, Text)>, i: nat)
    requires Counted(t) && t.matched == corpus && PairsOf(t.pairs, required) && Distinct(required) && i < |required|
    ensures CountOf(PairTable(t.pairs), PairKey(required[i])) == Some(PairOccurrences(corpus, required[i].0, required[i].1))
    ensures CountOf(PairTable(t.pairs), PairKey(required[i])) == Some(0) <==> !Follows(corpus, required[i].0, required[i].1)
  {
    forall j, k | 0 <= j < k < |t.pairs| ensures (t.pairs[j].first, t.pairs[j].second) != (t.pairs[k].first, t.pairs[k].second) {
      assert required[j] != required[k];
    }
    PairTableAt(t.pairs, i);
    assert PairRight(t.pairs[i], t.matched);
    assert required[i] == (t.pairs[i].first, t.pairs[i].second);
    DigitsCanonical(t.pairs[i].count);
    DigitsDenote(t.pairs[i].count);
    PairOccurrencesPositive(corpus, required[i].0, required[i].1);
  }

  /** The corpus has every required action as a transition, and every required pair
      as neighbouring transitions of one trace. */
  ghost predicate Covers(corpus: seq<Trace>, r: Requirements) {
    && (forall id :: id in r.actions ==> Occurs(corpus, id))
    && (forall p :: p in r.pairs ==> Follows(corpus, p.0, p.1))
  }

  /** The evidence of a completed, exact replay of a corpus is judged by the corpus
      alone: met exactly if the corpus covers the requirements, and the missing
      actions and pairs are those that the corpus does not have. */
  lemma {:induction false} VerdictIsCorpus(t: Tally, corpus: seq<Trace>, r: Requirements)
    requires Counted(t) && t.matched == corpus && ValidRequirements(r)
    requires t.actions.Keys == (set id | id in r.actions) && PairsOf(t.pairs, r.pairs)
    requires 0 < |corpus| <= MAX_COUNT && forall i :: 0 <= i < |corpus| ==> corpus[i] != []
    ensures var a := Evaluate(r, EvidenceOf(t, true, true, true, |corpus|, |corpus|));
      && a.Some? && (a.value.status == Met <==> Covers(corpus, r)) && (a.value.status == Unmet <==> !Covers(corpus, r))
      && (forall id :: id in a.value.missingActions <==> id in r.actions && !Occurs(corpus, id))
      && (forall p :: p in a.value.missingPairs <==> p in r.pairs && !Follows(corpus, p.0, p.1))
  {
    AllInitials(corpus);
    var e := EvidenceOf(t, true, true, true, |corpus|, |corpus|);
    forall id | id in r.actions
      ensures CountOf(e.actionCounts, id).Some? && (CountOf(e.actionCounts, id) == Some(0) <==> !Occurs(corpus, id))
    {
      ActionCountRead(t, corpus, id);
    }
    forall p | p in r.pairs
      ensures CountOf(e.pairCounts, PairKey(p)).Some? && (CountOf(e.pairCounts, PairKey(p)) == Some(0) <==> !Follows(corpus, p.0, p.1))
    {
      var i :| 0 <= i < |r.pairs| && r.pairs[i] == p;
      PairCountRead(t, corpus, r.pairs, i);
    }
  }

  /** The tracker was set up for this corpus and these requirements. */
  ghost predicate Announces(tracker: MatchedEvidenceTracker, corpus: seq<Trace>, r: Requirements)
    reads tracker
  {
    && tracker.expected == Some(corpus) && |tracker.lengths| == |corpus|
    && (forall i :: 0 <= i < |corpus| ==> tracker.lengths[i] == |corpus[i]|)
    && tracker.requiredActions == (set id | id in r.actions) && tracker.requiredPairs == r.pairs
  }

  /** The verdict on whatever the tracker holds: met, or unmet, only for a complete and
      certain replay of the corpus, and then by the corpus alone. */
  method AssessReplay(tracker: MatchedEvidenceTracker, r: Requirements, ghost corpus: seq<Trace>) returns (a: Option<Assessment>)
    requires tracker.Valid() && Announces(tracker, corpus, r) && ValidRequirements(r)
    ensures a.Some?
    ensures a.value.status == Met <==> tracker.complete && tracker.uncertain == {} && Covers(corpus, r)
    ensures a.value.status == Unmet <==> tracker.complete && tracker.uncertain == {} && !Covers(corpus, r)
    ensures tracker.complete ==> tracker.started == |corpus| && tracker.reportedCount == |corpus| + Transitions(corpus)
  {
    if tracker.complete {
      MatchedIsCorpus(tracker.matched, corpus);
      AllInitials(corpus);
      VerdictIsCorpus(tracker.Counters(), corpus, r);
    }
    a := Evaluate(r, EvidenceOf(
      Tally(tracker.actions, tracker.pairs, tracker.initialMatched, tracker.transitionMatched, tracker.currentMatched,
            tracker.previous, []),
      tracker.entered, tracker.complete, tracker.uncertain == {}, |tracker.lengths|, tracker.completed));
  }
}

/** From the mirror's messages to the verdict. */
module ReplayAcceptance {
  import opened Wrappers
  import opened JsonText
  import opened Corpus
  import opened MatchedEvidence
  import opened ReplayRecording
  import opened ReplayCore
  import opened Acceptance

  /** A replay with a new tracker for a corpus, and the verdict after it: the requirements
      are met exactly if the replay completes and the corpus covers them; and a replay that
      completes sent one state for every action of the corpus. */
  method ReplayAndAssess<S>(messages: seq<Message<S>>, compute: Computer<S>, empty: S, tracker: MatchedEvidenceTracker,
                            recorder: ReplayRecorder?<Text>, r: Requirements, ghost corpus: seq<Trace>)
    returns (result: ReplayCore.Result, sent: seq<S>, a: Option<Assessment>)
    requires tracker.Valid() && Announces(tracker, corpus, r) && ValidRequirements(r)
    requires !tracker.sealed && tracker.active.None? && tracker.started == 0 && tracker.reportedCount == 0
    requires recorder != null ==> recorder.Valid() && recorder.statesReported == 0
    modifies tracker, recorder
    ensures a.Some?
    ensures a.value.status == Met <==> result.Completed? && Covers(corpus, r)
    ensures a.value.status == Unmet <==> result.Completed? && !Covers(corpus, r)
    ensures result.Completed? ==> result == ReplayCore.Completed(|corpus|, Transitions(corpus)) && |sent| == |corpus| + Transitions(corpus)
  {
    var used;
    result, sent, used := Replay(messages, compute, empty, tracker, recorder);
    a := AssessReplay(tracker, r, corpus);
    OneStateEach(messages[..used], compute, empty);
  }
}
