/** From a declared space to its verdict: declaration checks, admission of what
    is enumerated, acceptance of receipts, and what a complete result means. */
module ScheduleExploration {
  import opened Wrappers
  import opened Sorting
  import opened ScheduleSpace
  import opened ScheduleCompletions
  import opened ScheduleExplorer
  import opened ScheduleController
  import opened ScheduleSafety

  // ----- Declarations -----

  /** The checks made on a declared space before anything is enumerated. */
  method CheckDeclaration(cs: seq<Chain>) returns (ok: bool)
    ensures ok <==> ValidChains(cs)
  {
    if |cs| == 0 || |cs| > 8 { return false; }
    var distinct := CheckDistinct(cs);
    if !distinct { return false; }
    var steps := 0;
    assert cs[0..] == cs;
    for i := 0 to |cs|
      invariant forall k :: 0 <= k < i ==> ValidChain(cs[k])
      invariant steps + TotalSteps(cs[i..]) == TotalSteps(cs)
    {
      var sound := CheckChain(cs[i].checkpoints);
      if !sound || !Identifier(cs[i].actor) || !Identifier(cs[i].operation) { return false; }
      assert cs[i..][1..] == cs[i + 1..];
      steps := steps + |cs[i].checkpoints|;
    }
    return steps <= 64;
  }

  /** Actor and operation names seen so far decide whether a name repeats. */
  method CheckDistinct(cs: seq<Chain>) returns (ok: bool)
    ensures ok <==> DistinctNames(cs)
  {
    var names: set<string>, operations: set<string> := {}, {};
    for i := 0 to |cs|
      invariant forall n :: n in names <==> exists k :: 0 <= k < i && cs[k].actor == n
      invariant forall n :: n in operations <==> exists k :: 0 <= k < i && cs[k].operation == n
      invariant DistinctNames(cs[..i])
    {
      if cs[i].actor in names || cs[i].operation in operations { return false; }
      names, operations := names + {cs[i].actor}, operations + {cs[i].operation};
      assert cs[..i + 1] == cs[..i] + [cs[i]];
    }
    assert cs[..|cs|] == cs;
    return true;
  }

  method CheckChain(checkpoints: seq<string>) returns (ok: bool)
    ensures ok <==> checkpoints != [] && checkpoints[|checkpoints| - 1] == COMPLETION
                    && forall k :: 0 <= k < |checkpoints| - 1 ==> Identifier(checkpoints[k])
  {
    if checkpoints == [] || checkpoints[|checkpoints| - 1] != COMPLETION { return false; }
    for i := 0 to |checkpoints|
      invariant forall k :: 0 <= k < i && k < |checkpoints| - 1 ==> Identifier(checkpoints[k])
    {
      if i + 1 != |checkpoints| && !Identifier(checkpoints[i]) { return false; }
    }
    return true;
  }

  function ByName(cs: seq<Chain>): seq<Chain> {
    SortBy(cs, (c: Chain) => NameKey(c.actor))
  }

  lemma {:induction false} NameKeyInjective(s: string, t: string)
    requires NameKey(s) == NameKey(t)
    ensures s == t
  {
    assert |s| == |NameKey(s)| && |t| == |NameKey(t)|;
    forall i | 0 <= i < |s| ensures s[i] == t[i] {
      assert NameKey(s)[i] == NameKey(t)[i];
    }
  }

  lemma {:induction false} IndexOfMember<T>(xs: seq<T>, ys: seq<T>, i: nat) returns (j: nat)
    requires multiset(xs) == multiset(ys) && i < |xs|
    ensures j < |ys| && ys[j] == xs[i]
  {
    assert xs[i] in multiset(ys);
    j :| 0 <= j < |ys| && ys[j] == xs[i];
  }

  lemma {:induction false} DistinctRearranged(cs: seq<Chain>, ds: seq<Chain>)
    requires ActorsDistinct(cs) && multiset(cs) == multiset(ds)
    ensures ActorsDistinct(ds)
  {
    forall i, j | 0 <= i < j < |ds| ensures ds[i].actor != ds[j].actor {
      if ds[i].actor == ds[j].actor {
        var p := IndexOfMember(ds, cs, i);
        var q := IndexOfMember(ds, cs, j);
        assert p == q;
        TwiceInMultiset(ds, i, j);
        OnceInDistinct(cs, p);
        assert false;
      }
    }
  }

  lemma {:induction false} TwiceInMultiset<T>(xs: seq<T>, i: nat, j: nat)
    requires i < j < |xs| && xs[i] == xs[j]
    ensures multiset(xs)[xs[i]] >= 2
  {
    assert xs == xs[..j] + [xs[j]] + xs[j + 1..];
    assert xs[i] in xs[..j];
    assert multiset(xs) == multiset(xs[..j]) + multiset{xs[j]} + multiset(xs[j + 1..]);
  }

  lemma {:induction false} OnceInDistinct(cs: seq<Chain>, p: nat)
    requires ActorsDistinct(cs) && p < |cs|
    ensures multiset(cs)[cs[p]] == 1
  {
    assert cs == cs[..p] + [cs[p]] + cs[p + 1..];
    assert cs[p] !in cs[..p] && cs[p] !in cs[p + 1..];
    assert multiset(cs) == multiset(cs[..p]) + multiset{cs[p]} + multiset(cs[p + 1..]);
  }

  /** Sorting by name leaves the space the same and puts it in visiting order. */
  lemma {:induction false} ByNameOrdered(cs: seq<Chain>)
    requires ActorsDistinct(cs)
    ensures NameOrdered(ByName(cs)) && ActorsDistinct(ByName(cs)) && multiset(ByName(cs)) == multiset(cs)
  {
    var key := (c: Chain) => NameKey(c.actor);
    var ds := ByName(cs);
    SortByMeaning(cs, key);
    DistinctRearranged(cs, ds);
    forall i, j | 0 <= i < j < |ds| ensures LexLess(NameKey(ds[i].actor), NameKey(ds[j].actor)) {
      assert LexLeq(key(ds[i]), key(ds[j]));
      if NameKey(ds[i].actor) == NameKey(ds[j].actor) {
        NameKeyInjective(ds[i].actor, ds[j].actor);
      }
    }
  }

  lemma {:induction false} InterleavingRearranged(cs: seq<Chain>, ds: seq<Chain>, s: seq<Step>)
    requires multiset(cs) == multiset(ds) && IsInterleaving(cs, s)
    ensures IsInterleaving(ds, s)
  {
    forall j | 0 <= j < |s| ensures Declared(ds, s[j].actor) {
      assert Declared(cs, s[j].actor);
      var i :| 0 <= i < |cs| && cs[i].actor == s[j].actor;
      var k := IndexOfMember(cs, ds, i);
    }
    forall i | 0 <= i < |ds| ensures Projection(s, ds[i].actor) == ds[i].checkpoints {
      var k := IndexOfMember(ds, cs, i);
    }
  }

  /** What the explorer enumerates for a declaration, in the caller's actor order. */
  lemma {:induction false} DeclaredEnumeration(cs: seq<Chain>, max: nat, s: seq<Step>)
    requires ValidChains(cs)
    ensures s in AllSchedules(ByName(cs), max) <==> IsInterleaving(cs, s) && Preemptions(s) <= max
    ensures StrictlyAscending(AllSchedules(ByName(cs), max))
    ensures AllSchedules(ByName(cs), max) != []
  {
    ByNameOrdered(cs);
    EnumerationExact(ByName(cs), max, s);
    EnumerationOrdered(ByName(cs), max);
    NoDeadEnd(ByName(cs), Start(ByName(cs)), None, 0, max);
    if IsInterleaving(cs, s) {
      InterleavingRearranged(cs, ByName(cs), s);
    }
    if IsInterleaving(ByName(cs), s) {
      InterleavingRearranged(ByName(cs), cs, s);
    }
  }

  // ----- Admission -----

  lemma {:induction false} FullSubset<T>(a: set<T>, b: set<T>)
    requires a <= b
    ensures |a| == |b| <==> a == b
  {
    assert b == a + (b - a);
  }

  /** Nothing is wrong with the first `k` steps, and these actors have completed in them. */
  ghost predicate SoFar(names: seq<string>, vocabulary: set<string>, steps: seq<Step>, k: nat, done: set<string>)
    requires k <= |steps|
  {
    && (forall i :: 0 <= i < k ==> Named(names, steps[i].actor))
    && (forall i :: 0 <= i < k ==> steps[i].checkpoint == COMPLETION || steps[i].checkpoint in vocabulary)
    && NothingAfterCompletion(steps[..k])
    && done == set i | 0 <= i < k && steps[i].checkpoint == COMPLETION :: steps[i].actor
  }

  lemma {:induction false} OneStepOn(names: seq<string>, vocabulary: set<string>, steps: seq<Step>, k: nat, done: set<string>)
    requires k < |steps| && SoFar(names, vocabulary, steps, k, done)
    requires var step := steps[k];
      Named(names, step.actor) && step.actor !in done && (step.checkpoint == COMPLETION || step.checkpoint in vocabulary)
    ensures SoFar(names, vocabulary, steps, k + 1, done + if steps[k].checkpoint == COMPLETION then {steps[k].actor} else {})
  {
    var upto := steps[..k + 1];
    forall i, j | 0 <= i < j < |upto| && upto[i].checkpoint == COMPLETION ensures upto[j].actor != upto[i].actor {
      if j < k { assert steps[..k][i] == upto[i] && steps[..k][j] == upto[j]; } else { assert steps[i].actor in done; }
    }
  }

  lemma {:induction false} WrongStep(names: seq<string>, vocabulary: set<string>, steps: seq<Step>, k: nat, done: set<string>)
    requires k < |steps| && SoFar(names, vocabulary, steps, k, done)
    requires var step := steps[k];
      !Named(names, step.actor) || step.actor in done || (step.checkpoint != COMPLETION && step.checkpoint !in vocabulary)
    ensures !AdmitsSteps(names, vocabulary, steps)
  {
    if steps[k].actor in done {
      var i :| 0 <= i < k && steps[i].checkpoint == COMPLETION && steps[i].actor == steps[k].actor;
    }
  }

  /** The controller's check of a step sequence: one pass with the set of actors
      that have completed. */
  method AdmitSteps(names: seq<string>, vocabulary: set<string>, steps: seq<Step>) returns (ok: bool)
    ensures ok <==> AdmitsSteps(names, vocabulary, steps)
  {
    var actors := set i | 0 <= i < |names| :: names[i];
    var done: set<string> := {};
    for k := 0 to |steps|
      invariant SoFar(names, vocabulary, steps, k, done)
    {
      var step := steps[k];
      assert step.actor in actors <==> Named(names, step.actor);
      if step.actor !in actors || step.actor in done || (step.checkpoint != COMPLETION && step.checkpoint !in vocabulary) {
        WrongStep(names, vocabulary, steps, k, done);
        return false;
      }
      OneStepOn(names, vocabulary, steps, k, done);
      if step.checkpoint == COMPLETION { done := done + {step.actor}; }
    }
    assert steps[..|steps|] == steps;
    DoneAreActors(names, vocabulary, steps, done, actors);
    FullSubset(done, actors);
    CompletedAll(names, steps, done, actors);
    return |done| == |actors|;
  }

  lemma {:induction false} DoneAreActors(names: seq<string>, vocabulary: set<string>, steps: seq<Step>, done: set<string>, actors: set<string>)
    requires SoFar(names, vocabulary, steps, |steps|, done) && actors == set i | 0 <= i < |names| :: names[i]
    ensures done <= actors
  {
    forall a | a in done ensures a in actors {
      var i :| 0 <= i < |steps| && steps[i].checkpoint == COMPLETION && steps[i].actor == a;
      assert Named(names, steps[i].actor);
    }
  }

  lemma {:induction false} CompletedAll(names: seq<string>, steps: seq<Step>, done: set<string>, actors: set<string>)
    requires actors == set i | 0 <= i < |names| :: names[i]
    requires done == set i | 0 <= i < |steps| && steps[i].checkpoint == COMPLETION :: steps[i].actor
    requires done <= actors
    ensures done == actors <==> forall i :: 0 <= i < |names| ==> Completes(steps, names[i])
  {
    forall i | 0 <= i < |names| ensures names[i] in done <==> Completes(steps, names[i]) {
      if names[i] in done {
        var k :| 0 <= k < |steps| && steps[k].checkpoint == COMPLETION && steps[k].actor == names[i];
        assert steps[k] == Step(names[i], COMPLETION);
      }
    }
    if done == actors {
      forall i | 0 <= i < |names| ensures Completes(steps, names[i]) {
        assert names[i] in actors;
      }
    }
  }

  lemma {:induction false} ProjectionSplit(s: seq<Step>, k: nat, actor: string)
    requires k <= |s|
    ensures Projection(s, actor) == Projection(s[..k], actor) + Projection(s[k..], actor)
  {
    if k > 0 {
      ProjectionSplit(s[1..], k - 1, actor);
      assert s[1..][..k - 1] == s[..k][1..];
      assert s[1..][k - 1..] == s[k..];
    } else {
      assert s[..0] == [] && s[0..] == s;
    }
  }

  /** A step of an actor stands in its projection where its predecessors end. */
  lemma {:induction false} ProjectionAt(s: seq<Step>, k: nat)
    requires k < |s|
    ensures var p := Projection(s, s[k].actor); var q := Projection(s[..k], s[k].actor);
      |q| < |p| && p[|q|] == s[k].checkpoint
      && (|q| + 1 == |p| <==> Projection(s[k + 1..], s[k].actor) == [])
  {
    ProjectionSplit(s, k, s[k].actor);
    assert s[k..][0] == s[k] && s[k..][1..] == s[k + 1..];
  }

  lemma {:induction false} ProjectionSource(s: seq<Step>, actor: string, checkpoint: string)
    requires checkpoint in Projection(s, actor)
    ensures exists k :: 0 <= k < |s| && s[k] == Step(actor, checkpoint)
  {
    if s[0] != Step(actor, checkpoint) {
      ProjectionSource(s[1..], actor, checkpoint);
      var k :| 0 <= k < |s[1..]| && s[1..][k] == Step(actor, checkpoint);
      assert s[k + 1] == Step(actor, checkpoint);
    }
  }

  function ActorNames(cs: seq<Chain>): seq<string> {
    seq(|cs|, i requires 0 <= i < |cs| => cs[i].actor)
  }

  /** The adapter declares every checkpoint that the chains name. */
  ghost predicate DeclaresCheckpoints(vocabulary: set<string>, cs: seq<Chain>) {
    forall i, k :: 0 <= i < |cs| && 0 <= k < |cs[i].checkpoints| - 1 ==> cs[i].checkpoints[k] in vocabulary
  }

  lemma {:induction false} StepOfChain(cs: seq<Chain>, s: seq<Step>, k: nat) returns (i: nat, p: nat)
    requires IsInterleaving(cs, s) && k < |s|
    ensures i < |cs| && cs[i].actor == s[k].actor && p < |cs[i].checkpoints| && cs[i].checkpoints[p] == s[k].checkpoint
    ensures p + 1 == |cs[i].checkpoints| <==> !Occurs(s[k].actor, s[k + 1..])
  {
    assert Declared(cs, s[k].actor);
    i :| 0 <= i < |cs| && cs[i].actor == s[k].actor;
    ProjectionAt(s, k);
    ProjectionOccurs(s[k + 1..], s[k].actor);
    p := |Projection(s[..k], s[k].actor)|;
  }

  /** Every enumerated schedule is one the controller admits. */
  lemma {:induction false} EnumeratedAdmitted(cs: seq<Chain>, max: nat, vocabulary: set<string>, s: seq<Step>)
    requires ValidChains(cs) && DeclaresCheckpoints(vocabulary, cs)
    requires s in AllSchedules(ByName(cs), max)
    ensures AdmitsSteps(ActorNames(cs), vocabulary, s)
  {
    DeclaredEnumeration(cs, max, s);
    var names := ActorNames(cs);
    forall k | 0 <= k < |s|
      ensures Named(names, s[k].actor) && (s[k].checkpoint == COMPLETION || s[k].checkpoint in vocabulary)
    {
      var i, p := StepOfChain(cs, s, k);
      assert names[i] == s[k].actor;
    }
    forall k, m | 0 <= k < m < |s| && s[k].checkpoint == COMPLETION ensures s[m].actor != s[k].actor {
      CompletionIsLast(cs, s, k, m);
    }
    forall i | 0 <= i < |names| ensures Completes(s, names[i]) {
      var p := Projection(s, cs[i].actor);
      assert p[|p| - 1] == COMPLETION;
      ProjectionSource(s, cs[i].actor, COMPLETION);
    }
  }

  lemma {:induction false} CompletionIsLast(cs: seq<Chain>, s: seq<Step>, k: nat, m: nat)
    requires ValidChains(cs) && IsInterleaving(cs, s) && k < m < |s| && s[k].checkpoint == COMPLETION
    ensures s[m].actor != s[k].actor
  {
    var i, p := StepOfChain(cs, s, k);
    CompletionNotIdentifier();
    assert ValidChain(cs[i]);
    assert s[k + 1..][m - k - 1] == s[m];
  }

  // ----- Receipts -----

  /** The explorer's re-check of a completed execution's receipt. */
  method CheckSuccess(e: Execution) returns (ok: bool)
    ensures ok <==> ValidSuccess(e)
  {
    var steps := e.plan.steps;
    if !e.scheduleCompleted || e.outcome != Completed { return false; }
    if |e.events| != 2 * |steps| { return false; }
    for i := 0 to |steps|
      invariant EventsFor(e.events, steps, i)
    {
      var p, a := e.events[2 * i], e.events[2 * i + 1];
      if p.ordinal != 2 * i || p.step != i || p.actor != steps[i].actor || p.kind != PermitEvent {
        assert !EventPair(e.events, steps, i);
        return false;
      }
      if a.ordinal != 2 * i + 1 || a.step != i || a.actor != steps[i].actor || a.kind != ArrivalEvent
         || a.checkpoint != steps[i].checkpoint {
        assert !EventPair(e.events, steps, i);
        return false;
      }
    }
    return |e.observations| == |steps| + 1;
  }

  /** Producer and checker agree: a receipt the executor marks as passed, from an
      enumerated schedule, is never rejected by the explorer. */
  lemma {:induction false} PassedReceiptsAccepted(e: Execution, events: seq<Stimulus>)
    requires Initial(e) && Passed(Run(e, events))
    ensures ValidSuccess(Run(e, events))
    ensures ObservationsUpTo(Run(e, events).observations, |e.plan.steps|)
  {
    InitialInv(e);
    RunLater(e, events);
  }

  // ----- Judging one run -----

  /** What the runner may send beside the receipt. */
  datatype Comparison = NoComparison | Matching | Mismatching | OtherwiseFailed | Unbound

  /** What became of the observed states: decoded and counted, refused, or too many. */
  datatype Coverage = Counted | Refused | Exceeded

  /** What the runner returns: the receipt with its own verdict, whether its actors are
      those declared, its identifier, the comparison and the states' coverage. */
  datatype Sample =
    | Threw
    | Returned(execution: Execution, verdict: bool, actorsDeclared: bool, id: nat, comparison: Comparison, coverage: Coverage)

  /** The receipt is of this schedule and these actors. */
  predicate Bound(x: Sample, steps: seq<Step>) {
    x.Returned? && x.execution.plan.steps == steps && x.actorsDeclared
  }

  predicate CleanedUp(e: Execution) { e.cleanup == Confirmed && e.remaining == [] }

  predicate ComparisonPasses(c: Comparison, required: bool) { c == Matching || (c == NoComparison && !required) }

  /** What a run needs to pass before its states are decoded. */
  ghost predicate Succeeds(x: Sample, steps: seq<Step>, required: bool) {
    && Bound(x, steps) && CleanedUp(x.execution) && ComparisonPasses(x.comparison, required)
    && x.verdict && ValidSuccess(x.execution)
  }

  ghost predicate Acceptable(x: Sample, steps: seq<Step>, required: bool) {
    Succeeds(x, steps, required) && x.coverage == Counted
  }

  /** The checks on one sample, in order; a failed check is a run that did not pass. */
  method JudgeSample(x: Sample, steps: seq<Step>, required: bool, ids: set<nat>)
    returns (passed: bool, cleanupKnown: bool, exceeded: bool)
    ensures passed <==> Acceptable(x, steps, required) && x.id !in ids
    ensures exceeded <==> Succeeds(x, steps, required) && x.id !in ids && x.coverage == Exceeded
    ensures cleanupKnown <==> Bound(x, steps) && x.id !in ids && CleanedUp(x.execution)
  {
    passed, cleanupKnown, exceeded := false, false, false;
    if x.Threw? || x.execution.plan.steps != steps || !x.actorsDeclared || x.id in ids { return; }
    cleanupKnown := x.execution.cleanup == Confirmed && x.execution.remaining == [];
    if !cleanupKnown || x.comparison == Unbound || x.comparison == Mismatching || x.comparison == OtherwiseFailed { return; }
    if !x.verdict || (required && x.comparison == NoComparison) { return; }
    var sound := CheckSuccess(x.execution);
    passed, exceeded := sound && x.coverage == Counted, sound && x.coverage == Exceeded;
  }

  // ----- The run loop -----

  /** One attempted run: which schedule on which input, and how it was judged. */
  datatype Row = Row(shape: nat, input: nat, passed: bool, cleanupKnown: bool)

  /** The runner, called once for each schedule and input. */
  type Runner = (seq<Step>, nat) -> Sample

  /** What is run: the schedules, how many inputs, and the runner. */
  datatype Space = Space(shapes: seq<seq<Step>>, inputs: nat, required: bool, runner: Runner)

  /** Rows number the pairs of a schedule and an input consecutively. */
  ghost predicate InOrder(rows: seq<Row>, w: Space) {
    forall k :: 0 <= k < |rows| ==> rows[k].shape < |w.shapes| && rows[k].input < w.inputs && rows[k].shape * w.inputs + rows[k].input == k
  }

  function SampleOf(row: Row, w: Space): Sample
    requires row.shape < |w.shapes|
  {
    w.runner(w.shapes[row.shape], row.input)
  }

  /** The identifiers of the executions seen so far. */
  function Identifiers(rows: seq<Row>, w: Space): set<nat>
    requires forall k :: 0 <= k < |rows| ==> rows[k].shape < |w.shapes|
  {
    if rows == [] then {}
    else
      var last := rows[|rows| - 1];
      Identifiers(rows[..|rows| - 1], w)
      + if Bound(SampleOf(last, w), w.shapes[last.shape]) then {SampleOf(last, w).id} else {}
  }

  /** A row is passed exactly if its sample is acceptable and its execution new. */
  ghost predicate JudgedBy(row: Row, x: Sample, steps: seq<Step>, required: bool, seen: set<nat>) {
    && (row.passed <==> Acceptable(x, steps, required) && x.id !in seen)
    && (row.cleanupKnown <==> Bound(x, steps) && CleanedUp(x.execution) && x.id !in seen)
  }

  ghost predicate Judged(rows: seq<Row>, w: Space, k: nat)
    requires k < |rows| && forall i :: 0 <= i < |rows| ==> rows[i].shape < |w.shapes|
  {
    JudgedBy(rows[k], SampleOf(rows[k], w), w.shapes[rows[k].shape], w.required, Identifiers(rows[..k], w))
  }

  ghost predicate AllJudged(rows: seq<Row>, w: Space)
    requires InOrder(rows, w)
  {
    forall k :: 0 <= k < |rows| ==> Judged(rows, w, k)
  }

  lemma {:induction false} OneJudged(rows: seq<Row>, w: Space, row: Row)
    requires InOrder(rows, w) && AllJudged(rows, w) && InOrder(rows + [row], w)
    requires Judged(rows + [row], w, |rows|)
    ensures AllJudged(rows + [row], w)
    ensures var x := SampleOf(row, w);
      Identifiers(rows + [row], w) == Identifiers(rows, w) + if Bound(x, w.shapes[row.shape]) then {x.id} else {}
  {
    var all := rows + [row];
    assert all[..|rows|] == rows;
    forall k | 0 <= k < |rows| ensures Judged(all, w, k) {
      assert all[..k] == rows[..k] && Judged(rows, w, k);
    }
  }

  lemma {:induction false} IdentifierKept(rows: seq<Row>, w: Space, k: nat)
    requires InOrder(rows, w) && k < |rows| && Bound(SampleOf(rows[k], w), w.shapes[rows[k].shape])
    ensures SampleOf(rows[k], w).id in Identifiers(rows, w)
  {
    if k < |rows| - 1 { IdentifierKept(rows[..|rows| - 1], w, k); }
  }

  /** No execution is counted for two runs. */
  lemma {:induction false} PassedRunsDiffer(rows: seq<Row>, w: Space, j: nat, k: nat)
    requires InOrder(rows, w) && AllJudged(rows, w) && j < k < |rows| && rows[j].passed && rows[k].passed
    ensures SampleOf(rows[j], w).Returned? && SampleOf(rows[k], w).Returned? && SampleOf(rows[j], w).id != SampleOf(rows[k], w).id
  {
    assert Judged(rows, w, j) && Judged(rows, w, k);
    assert rows[..k][j] == rows[j];
    IdentifierKept(rows[..k], w, j);
  }

  function CountPassed(rows: seq<Row>): nat {
    if rows == [] then 0 else CountPassed(rows[..|rows| - 1]) + (if rows[|rows| - 1].passed then 1 else 0)
  }

  lemma {:induction false} CountPassedBound(rows: seq<Row>)
    ensures CountPassed(rows) <= |rows|
    ensures CountPassed(rows) == |rows| <==> forall k :: 0 <= k < |rows| ==> rows[k].passed
  {
    if rows != [] {
      CountPassedBound(rows[..|rows| - 1]);
    }
  }

  /** What the loop knows between runs: after a halt nothing more is run. */
  ghost predicate LoopState(rows: seq<Row>, completed: nat, ids: set<nat>, halt: bool, at: nat, w: Space, maxRuns: nat) {
    && InOrder(rows, w) && AllJudged(rows, w) && |rows| <= maxRuns && completed == CountPassed(rows) && ids == Identifiers(rows, w)
    && (if halt then |rows| <= at else |rows| == at)
    && (forall k :: 0 <= k < |rows| - 1 ==> rows[k].cleanupKnown)
    && (!halt && rows != [] ==> rows[|rows| - 1].cleanupKnown)
  }

  /** A row with the judgement of its sample keeps all of this. */
  lemma {:induction false} RowAdded(
      rows: seq<Row>, completed: nat, ids: set<nat>, at: nat, w: Space, maxRuns: nat, row: Row, halt: bool)
    requires LoopState(rows, completed, ids, false, at, w, maxRuns) && |rows| < maxRuns
    requires row.shape < |w.shapes| && row.input < w.inputs && row.shape * w.inputs + row.input == at && (!row.cleanupKnown ==> halt)
    requires JudgedBy(row, SampleOf(row, w), w.shapes[row.shape], w.required, ids)
    ensures var x := SampleOf(row, w);
      LoopState(rows + [row], completed + (if row.passed then 1 else 0),
                ids + if Bound(x, w.shapes[row.shape]) then {x.id} else {}, halt, at + 1, w, maxRuns)
  {
    var more := rows + [row];
    assert more[..|rows|] == rows;
    assert InOrder(more, w);
    assert Judged(more, w, |rows|);
    OneJudged(rows, w, row);
  }

  /** One schedule on one input, unless the loop has been stopped. */
  method RunOne(w: Space, shape: nat, input: nat, maxRuns: nat, rows: seq<Row>, completed: nat, ids: set<nat>, halt: bool)
    returns (more: seq<Row>, count: nat, seen: set<nat>, stop: bool)
    requires shape < |w.shapes| && input < w.inputs && LoopState(rows, completed, ids, halt, shape * w.inputs + input, w, maxRuns)
    ensures LoopState(more, count, seen, stop, shape * w.inputs + input + 1, w, maxRuns)
  {
    more, count, seen, stop := rows, completed, ids, halt;
    var before, after := *, *;  // cancellation or a budget, around the run
    if halt || before || |rows| >= maxRuns {
      stop := true;
      return;
    }
    var x := w.runner(w.shapes[shape], input);
    var passed, cleanupKnown, exceeded := JudgeSample(x, w.shapes[shape], w.required, ids);
    var row := Row(shape, input, passed, cleanupKnown);
    stop := !cleanupKnown || after || exceeded;
    RowAdded(rows, completed, ids, shape * w.inputs + input, w, maxRuns, row, stop);
    more := rows + [row];
    if passed { count := count + 1; }
    if x.Returned? && x.execution.plan.steps == w.shapes[shape] && x.actorsDeclared { seen := seen + {x.id}; }
  }

  /** Run every schedule on every input, in order, until something calls a halt. */
  method RunAll(w: Space, exhausted: bool, maxRuns: nat) returns (rows: seq<Row>, halt: bool, complete: bool)
    ensures InOrder(rows, w) && AllJudged(rows, w) && |rows| <= |w.shapes| * w.inputs && |rows| <= maxRuns
    ensures complete <==> exhausted && |rows| == |w.shapes| * w.inputs && !halt
                          && forall k :: 0 <= k < |rows| ==> rows[k].passed
    ensures forall k :: 0 <= k < |rows| - 1 ==> rows[k].cleanupKnown
    ensures |rows| < |w.shapes| * w.inputs ==> halt
  {
    rows, halt := [], false;
    var completed, ids := 0, {};
    for shape := 0 to |w.shapes|
      invariant LoopState(rows, completed, ids, halt, shape * w.inputs, w, maxRuns)
    {
      for input := 0 to w.inputs
        invariant LoopState(rows, completed, ids, halt, shape * w.inputs + input, w, maxRuns)
      {
        rows, completed, ids, halt := RunOne(w, shape, input, maxRuns, rows, completed, ids, halt);
      }
      assert (shape + 1) * w.inputs == shape * w.inputs + w.inputs;
    }
    CountPassedBound(rows);
    var eligible := |w.shapes| * w.inputs;
    complete := exhausted && |rows| == eligible && completed == eligible && !halt;
  }

  /** A complete result is a proof by exhaustion: every interleaving of the declared
      chains within the bound has, on every input, a run whose receipt is of that
      interleaving and shows every step taken and cleaned up. */
  lemma {:induction false} CompleteMeansAllPassed(cs: seq<Chain>, max: nat, w: Space, rows: seq<Row>, s: seq<Step>, input: nat)
    requires ValidChains(cs) && input < w.inputs && w.shapes == AllSchedules(ByName(cs), max)
    requires InOrder(rows, w) && AllJudged(rows, w) && |rows| == |w.shapes| * w.inputs
    requires forall k :: 0 <= k < |rows| ==> rows[k].passed
    requires IsInterleaving(cs, s) && Preemptions(s) <= max
    ensures Acceptable(w.runner(s, input), s, w.required)
  {
    DeclaredEnumeration(cs, max, s);
    var shape :| 0 <= shape < |w.shapes| && w.shapes[shape] == s;
    var k := shape * w.inputs + input;
    RowInRange(shape, |w.shapes|, w.inputs, input);
    SamePosition(rows[k].shape, rows[k].input, shape, input, w.inputs);
    assert Judged(rows, w, k);
    assert SampleOf(rows[k], w) == w.runner(s, input);
  }

  /** `exploreFiniteSchedules`, from a declaration to its verdict. A complete result means
      that every interleaving of the declared chains within the bound was run on every
      input, with an accepted receipt of that interleaving. */
  method Explore(cs: seq<Chain>, maxPreemptions: nat, maxEnumerated: nat, inputs: nat, required: bool, maxRuns: nat, runner: Runner)
    returns (valid: bool, rows: seq<Row>, complete: bool)
    ensures valid <==> ValidChains(cs)
    ensures complete ==> valid && |rows| == |AllSchedules(ByName(cs), maxPreemptions)| * inputs
    ensures complete ==> forall s, input: nat :: IsInterleaving(cs, s) && Preemptions(s) <= maxPreemptions && input < inputs ==>
              Acceptable(runner(s, input), s, required)
  {
    rows, complete := [], false;
    valid := CheckDeclaration(cs);
    if !valid { return; }
    var shapes, exhausted, reason := EnumerateSchedules(ByName(cs), maxPreemptions, maxEnumerated);
    var w := Space(shapes, inputs, required, runner);
    var halt;
    rows, halt, complete := RunAll(w, exhausted, maxRuns);
    if complete {
      forall s, input: nat | IsInterleaving(cs, s) && Preemptions(s) <= maxPreemptions && input < inputs
        ensures Acceptable(runner(s, input), s, required)
      {
        CompleteMeansAllPassed(cs, maxPreemptions, w, rows, s, input);
      }
    }
  }

  lemma {:induction false} RowInRange(shape: nat, shapes: nat, inputs: nat, input: nat)
    requires shape < shapes && input < inputs
    ensures shape * inputs + input < shapes * inputs
  {
    assert (shape + 1) * inputs <= shapes * inputs;
    assert (shape + 1) * inputs == shape * inputs + inputs;
  }

  lemma {:induction false} SamePosition(a: nat, i: nat, b: nat, j: nat, inputs: nat)
    requires i < inputs && j < inputs && a * inputs + i == b * inputs + j
    ensures a == b && i == j
  {
    if a < b {
      RowInRange(a, b, inputs, i);
    } else if b < a {
      RowInRange(b, a, inputs, j);
    }
  }
}
