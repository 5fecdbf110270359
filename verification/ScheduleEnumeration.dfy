/** The finite explorer's declared space and the meaning of its enumeration:
    all interleavings of the actor chains within a preemption bound. */
module ScheduleSpace {
  import opened Wrappers
  import opened Sorting

  const COMPLETION := "$done"

  datatype Step = Step(actor: string, checkpoint: string)

  /** One actor, its operation, and the checkpoints it passes in order. */
  datatype Chain = Chain(actor: string, operation: string, checkpoints: seq<string>)

  predicate IdentifierChar(c: char) {
    'A' <= c <= 'Z' || 'a' <= c <= 'z' || '0' <= c <= '9' || c in {'_', '.', '/', '-'}
  }

  predicate Identifier(s: string) {
    1 <= |s| <= 128 && forall i :: 0 <= i < |s| ==> IdentifierChar(s[i])
  }

  /** Identifiers are ASCII, so UTF-8 byte order is character order. */
  function NameKey(s: string): seq<int> {
    seq(|s|, i requires 0 <= i < |s| => s[i] as int)
  }

  predicate ValidChain(c: Chain) {
    && Identifier(c.actor) && Identifier(c.operation)
    && c.checkpoints != [] && c.checkpoints[|c.checkpoints| - 1] == COMPLETION
    && forall k :: 0 <= k < |c.checkpoints| - 1 ==> Identifier(c.checkpoints[k])
  }

  ghost predicate DistinctNames(cs: seq<Chain>) {
    && (forall i, j :: 0 <= i < j < |cs| ==> cs[i].actor != cs[j].actor)
    && (forall i, j :: 0 <= i < j < |cs| ==> cs[i].operation != cs[j].operation)
  }

  function TotalSteps(cs: seq<Chain>): nat {
    if cs == [] then 0 else |cs[0].checkpoints| + TotalSteps(cs[1..])
  }

  /** The actor set a declaration must describe before anything is enumerated. */
  ghost predicate ValidChains(cs: seq<Chain>) {
    && 0 < |cs| <= 8
    && (forall i :: 0 <= i < |cs| ==> ValidChain(cs[i]))
    && DistinctNames(cs)
    && TotalSteps(cs) <= 64
  }

  /** Actors in ascending name order, as the explorer visits them. */
  ghost predicate NameOrdered(cs: seq<Chain>) {
    forall i, j :: 0 <= i < j < |cs| ==> LexLess(NameKey(cs[i].actor), NameKey(cs[j].actor))
  }

  // ----- What an interleaving is, without reference to the search -----

  /** The checkpoints one actor reaches within a step sequence. */
  function Projection(s: seq<Step>, actor: string): seq<string> {
    if s == [] then []
    else (if s[0].actor == actor then [s[0].checkpoint] else []) + Projection(s[1..], actor)
  }

  predicate Occurs(actor: string, s: seq<Step>) {
    exists j :: 0 <= j < |s| && s[j].actor == actor
  }

  predicate Declared(cs: seq<Chain>, actor: string) {
    exists i :: 0 <= i < |cs| && cs[i].actor == actor
  }

  ghost predicate IsInterleaving(cs: seq<Chain>, s: seq<Step>) {
    && (forall j :: 0 <= j < |s| ==> Declared(cs, s[j].actor))
    && (forall i :: 0 <= i < |cs| ==> Projection(s, cs[i].actor) == cs[i].checkpoints)
  }

  /** Switches away from an actor that still has steps to take. */
  function SwitchesAfter(prior: Option<string>, s: seq<Step>): nat
    decreases |s|
  {
    if s == [] then 0
    else
      (if prior.Some? && prior.value != s[0].actor && Occurs(prior.value, s) then 1 else 0)
      + SwitchesAfter(Some(s[0].actor), s[1..])
  }

  function Preemptions(s: seq<Step>): nat {
    SwitchesAfter(None, s)
  }

  /** Order of schedules: the actor name at the first difference decides. */
  predicate ScheduleLess(s: seq<Step>, t: seq<Step>) {
    s != [] && t != [] &&
    (LexLess(NameKey(s[0].actor), NameKey(t[0].actor)) || (s[0] == t[0] && ScheduleLess(s[1..], t[1..])))
  }

  ghost predicate StrictlyAscending(all: seq<seq<Step>>) {
    forall i, j :: 0 <= i < j < |all| ==> ScheduleLess(all[i], all[j])
  }

  lemma {:induction false} ScheduleLessIrreflexive(s: seq<Step>)
    ensures !ScheduleLess(s, s)
  {
    if s != [] {
      ScheduleLessIrreflexive(s[1..]);
    }
  }
}

/** The backtracking enumeration as a list of completions. */
module ScheduleCompletions {
  import opened Wrappers
  import opened ScheduleSpace

  /** How far each chain has advanced. */
  predicate Fits(cs: seq<Chain>, pos: seq<nat>) {
    |pos| == |cs| && forall i :: 0 <= i < |cs| ==> pos[i] <= |cs[i].checkpoints|
  }

  function Remaining(cs: seq<Chain>, pos: seq<nat>): nat
    requires Fits(cs, pos)
  {
    if cs == [] then 0
    else |cs[0].checkpoints| - pos[0] + Remaining(cs[1..], pos[1..])
  }

  predicate Unfinished(cs: seq<Chain>, pos: seq<nat>, i: nat)
    requires Fits(cs, pos) && i < |cs|
  {
    pos[i] < |cs[i].checkpoints|
  }

  lemma {:induction false} RemainingStep(cs: seq<Chain>, pos: seq<nat>, i: nat)
    requires Fits(cs, pos) && i < |cs| && Unfinished(cs, pos, i)
    ensures Remaining(cs, pos) > 0
    ensures Fits(cs, pos[i := pos[i] + 1])
    ensures Remaining(cs, pos[i := pos[i] + 1]) == Remaining(cs, pos) - 1
  {
    var next := pos[i := pos[i] + 1];
    if i == 0 {
      assert next[1..] == pos[1..];
    } else {
      RemainingStep(cs[1..], pos[1..], i - 1);
      assert next[1..] == pos[1..][i - 1 := pos[1..][i - 1] + 1];
    }
  }

  lemma {:induction false} RemainingZero(cs: seq<Chain>, pos: seq<nat>)
    requires Fits(cs, pos)
    ensures Remaining(cs, pos) == 0 <==> forall i :: 0 <= i < |cs| ==> !Unfinished(cs, pos, i)
  {
    if cs != [] {
      RemainingZero(cs[1..], pos[1..]);
      assert forall i :: 1 <= i < |cs| ==> Unfinished(cs, pos, i) == Unfinished(cs[1..], pos[1..], i - 1);
      if forall i :: 0 <= i < |cs| ==> !Unfinished(cs, pos, i) {
        assert !Unfinished(cs, pos, 0);
        forall i | 0 <= i < |cs| - 1 ensures !Unfinished(cs[1..], pos[1..], i) {
          assert !Unfinished(cs, pos, i + 1);
        }
      }
    }
  }

  function NextStep(cs: seq<Chain>, pos: seq<nat>, i: nat): Step
    requires Fits(cs, pos) && i < |cs| && Unfinished(cs, pos, i)
  {
    Step(cs[i].actor, cs[i].checkpoints[pos[i]])
  }

  /** One more preemption when `i` takes over from an unfinished other actor. */
  function Cost(cs: seq<Chain>, pos: seq<nat>, prior: Option<nat>, i: nat): nat
    requires Fits(cs, pos) && (prior.Some? ==> prior.value < |cs|)
  {
    if prior.Some? && prior.value != i && Unfinished(cs, pos, prior.value) then 1 else 0
  }

  predicate Eligible(cs: seq<Chain>, pos: seq<nat>, prior: Option<nat>, used: nat, max: nat, i: nat)
    requires Fits(cs, pos) && (prior.Some? ==> prior.value < |cs|) && i < |cs|
  {
    Unfinished(cs, pos, i) && used + Cost(cs, pos, prior, i) <= max
  }

  function Prepend(head: seq<Step>, all: seq<seq<Step>>): (r: seq<seq<Step>>)
  {
    seq(|all|, k requires 0 <= k < |all| => head + all[k])
  }

  /** Every way to finish the schedule from here, in the search's order. */
  function Completions(cs: seq<Chain>, pos: seq<nat>, prior: Option<nat>, used: nat, max: nat): seq<seq<Step>>
    requires Fits(cs, pos) && (prior.Some? ==> prior.value < |cs|)
    decreases Remaining(cs, pos), |cs| + 1
  {
    if Remaining(cs, pos) == 0 then [[]] else CompletionsFrom(cs, pos, prior, used, max, 0)
  }

  /** The completions whose next step belongs to actor `i` or a later one. */
  function CompletionsFrom(cs: seq<Chain>, pos: seq<nat>, prior: Option<nat>, used: nat, max: nat, i: nat): seq<seq<Step>>
    requires Fits(cs, pos) && (prior.Some? ==> prior.value < |cs|) && i <= |cs|
    decreases Remaining(cs, pos), |cs| - i
  {
    if i == |cs| then []
    else
      (if Eligible(cs, pos, prior, used, max, i) then Via(cs, pos, prior, used, max, i) else [])
      + CompletionsFrom(cs, pos, prior, used, max, i + 1)
  }

  /** The completions whose next step is actor `i`'s. */
  function Via(cs: seq<Chain>, pos: seq<nat>, prior: Option<nat>, used: nat, max: nat, i: nat): seq<seq<Step>>
    requires Fits(cs, pos) && (prior.Some? ==> prior.value < |cs|) && i < |cs|
    requires Eligible(cs, pos, prior, used, max, i)
    decreases Remaining(cs, pos), 0
  {
    RemainingStep(cs, pos, i);
    Prepend([NextStep(cs, pos, i)],
            Completions(cs, pos[i := pos[i] + 1], Some(i), used + Cost(cs, pos, prior, i), max))
  }

  function Start(cs: seq<Chain>): (pos: seq<nat>)
    ensures Fits(cs, pos)
  {
    seq(|cs|, i => 0)
  }

  /** The whole enumeration of a declared space. */
  function AllSchedules(cs: seq<Chain>, max: nat): seq<seq<Step>> {
    Completions(cs, Start(cs), None, 0, max)
  }

  // ----- Exactness: the list holds the bounded interleavings -----

  /** `s` finishes the schedule from `pos`: it is an interleaving of what is left. */
  ghost predicate Finishes(cs: seq<Chain>, pos: seq<nat>, s: seq<Step>)
    requires Fits(cs, pos)
  {
    && (forall j :: 0 <= j < |s| ==> Declared(cs, s[j].actor))
    && (forall i :: 0 <= i < |cs| ==> Projection(s, cs[i].actor) == cs[i].checkpoints[pos[i]..])
  }

  ghost predicate ActorsDistinct(cs: seq<Chain>) {
    forall i, j :: 0 <= i < j < |cs| ==> cs[i].actor != cs[j].actor
  }

  function PriorName(cs: seq<Chain>, prior: Option<nat>): Option<string>
    requires prior.Some? ==> prior.value < |cs|
  {
    if prior.Some? then Some(cs[prior.value].actor) else None
  }

  lemma {:induction false} ProjectionOccurs(s: seq<Step>, actor: string)
    ensures Projection(s, actor) == [] <==> !Occurs(actor, s)
  {
    if s != [] {
      ProjectionOccurs(s[1..], actor);
      assert s[0].actor == actor ==> Occurs(actor, s);
      if Occurs(actor, s[1..]) {
        var j :| 0 <= j < |s[1..]| && s[1..][j].actor == actor;
        assert s[j + 1].actor == actor;
      }
      if Occurs(actor, s) && s[0].actor != actor {
        var j :| 0 <= j < |s| && s[j].actor == actor;
        assert s[1..][j - 1].actor == actor;
      }
    }
  }

  /** Taking `i`'s next step turns a finish from the new position into one from here. */
  lemma {:induction false} FinishesVia(cs: seq<Chain>, pos: seq<nat>, i: nat, t: seq<Step>)
    requires Fits(cs, pos) && ActorsDistinct(cs) && i < |cs| && Unfinished(cs, pos, i)
    requires Fits(cs, pos[i := pos[i] + 1])
    ensures Finishes(cs, pos, [NextStep(cs, pos, i)] + t) <==> Finishes(cs, pos[i := pos[i] + 1], t)
  {
    var step := NextStep(cs, pos, i);
    var s := [step] + t;
    var next := pos[i := pos[i] + 1];
    assert s[1..] == t;
    assert cs[i].checkpoints[pos[i]..] == [step.checkpoint] + cs[i].checkpoints[next[i]..];
    forall k | 0 <= k < |cs|
      ensures Projection(s, cs[k].actor) == cs[k].checkpoints[pos[k]..]
         <==> Projection(t, cs[k].actor) == cs[k].checkpoints[next[k]..]
    {
      if k == i {
        var p := Projection(t, cs[k].actor);
        assert ([step.checkpoint] + p)[1..] == p;
      } else {
        assert cs[k].actor != step.actor;
        assert Projection(s, cs[k].actor) == [] + Projection(t, cs[k].actor);
      }
    }
    assert Declared(cs, step.actor);
    assert forall j :: 0 <= j < |t| ==> t[j] == s[j + 1];
  }

  /** The search's preemption charge is the independent count's first term. */
  lemma {:induction false} CostIsSwitch(cs: seq<Chain>, pos: seq<nat>, prior: Option<nat>, i: nat, s: seq<Step>)
    requires Fits(cs, pos) && ActorsDistinct(cs) && i < |cs| && (prior.Some? ==> prior.value < |cs|)
    requires Finishes(cs, pos, s) && s != [] && s[0].actor == cs[i].actor
    ensures SwitchesAfter(PriorName(cs, prior), s)
         == Cost(cs, pos, prior, i) + SwitchesAfter(Some(cs[i].actor), s[1..])
  {
    if prior.Some? {
      ProjectionOccurs(s, cs[prior.value].actor);
    }
  }

  /** The next step of a finish is the next step of some unfinished actor. */
  lemma {:induction false} FirstStepIs(cs: seq<Chain>, pos: seq<nat>, s: seq<Step>) returns (i: nat)
    requires Fits(cs, pos) && Finishes(cs, pos, s) && s != []
    ensures i < |cs| && Unfinished(cs, pos, i) && s[0] == NextStep(cs, pos, i)
  {
    assert Declared(cs, s[0].actor);
    i :| 0 <= i < |cs| && cs[i].actor == s[0].actor;
    assert Projection(s, cs[i].actor)[0] == s[0].checkpoint;
  }

  lemma {:induction false} EmptyFinish(cs: seq<Chain>, pos: seq<nat>)
    requires Fits(cs, pos)
    ensures Finishes(cs, pos, []) <==> Remaining(cs, pos) == 0
  {
    RemainingZero(cs, pos);
    if Remaining(cs, pos) == 0 {
      forall i | 0 <= i < |cs| ensures Projection([], cs[i].actor) == cs[i].checkpoints[pos[i]..] {
        assert !Unfinished(cs, pos, i);
      }
    }
    if Finishes(cs, pos, []) {
      forall i | 0 <= i < |cs| ensures !Unfinished(cs, pos, i) {
        assert Projection([], cs[i].actor) == cs[i].checkpoints[pos[i]..];
      }
    }
  }

  lemma {:induction false} InCompletionsFrom(cs: seq<Chain>, pos: seq<nat>, prior: Option<nat>, used: nat, max: nat, i: nat, s: seq<Step>)
    requires Fits(cs, pos) && (prior.Some? ==> prior.value < |cs|) && i <= |cs|
    ensures s in CompletionsFrom(cs, pos, prior, used, max, i)
       <==> exists k :: i <= k < |cs| && Eligible(cs, pos, prior, used, max, k) && s in Via(cs, pos, prior, used, max, k)
    decreases |cs| - i
  {
    if i < |cs| {
      InCompletionsFrom(cs, pos, prior, used, max, i + 1, s);
    }
  }

  lemma {:induction false} InVia(cs: seq<Chain>, pos: seq<nat>, prior: Option<nat>, used: nat, max: nat, i: nat, s: seq<Step>)
    requires Fits(cs, pos) && (prior.Some? ==> prior.value < |cs|) && i < |cs|
    requires Eligible(cs, pos, prior, used, max, i) && Fits(cs, pos[i := pos[i] + 1])
    ensures s in Via(cs, pos, prior, used, max, i)
       <==> s != [] && s[0] == NextStep(cs, pos, i)
            && s[1..] in Completions(cs, pos[i := pos[i] + 1], Some(i), used + Cost(cs, pos, prior, i), max)
  {
    var rest := Completions(cs, pos[i := pos[i] + 1], Some(i), used + Cost(cs, pos, prior, i), max);
    var step := NextStep(cs, pos, i);
    if s in Via(cs, pos, prior, used, max, i) {
      var k :| 0 <= k < |rest| && s == [step] + rest[k];
      assert s[1..] == rest[k];
    }
    if s != [] && s[0] == step && s[1..] in rest {
      var k :| 0 <= k < |rest| && rest[k] == s[1..];
      assert s == [step] + rest[k];
      assert Prepend([step], rest)[k] == s;
    }
  }

  /** A finish that stays within the bound, seen from a position of the search. */
  ghost predicate Within(cs: seq<Chain>, pos: seq<nat>, prior: Option<nat>, used: nat, max: nat, s: seq<Step>)
    requires Fits(cs, pos) && (prior.Some? ==> prior.value < |cs|)
  {
    Finishes(cs, pos, s) && used + SwitchesAfter(PriorName(cs, prior), s) <= max
  }

  lemma {:induction false} CompletionsExact(cs: seq<Chain>, pos: seq<nat>, prior: Option<nat>, used: nat, max: nat, s: seq<Step>)
    requires Fits(cs, pos) && ActorsDistinct(cs) && (prior.Some? ==> prior.value < |cs|) && used <= max
    ensures s in Completions(cs, pos, prior, used, max) <==> Within(cs, pos, prior, used, max, s)
    decreases Remaining(cs, pos)
  {
    EmptyFinish(cs, pos);
    if Remaining(cs, pos) == 0 {
      RemainingZero(cs, pos);
      if Finishes(cs, pos, s) && s != [] {
        var i := FirstStepIs(cs, pos, s);
        assert false;
      }
    } else {
      InCompletionsFrom(cs, pos, prior, used, max, 0, s);
      forall i | 0 <= i < |cs| && Eligible(cs, pos, prior, used, max, i)
        ensures s in Via(cs, pos, prior, used, max, i)
           <==> s != [] && s[0] == NextStep(cs, pos, i) && Within(cs, pos, prior, used, max, s)
      {
        ViaExact(cs, pos, prior, used, max, i, s);
      }
      if Within(cs, pos, prior, used, max, s) {
        var i := FirstStepIs(cs, pos, s);
        CostIsSwitch(cs, pos, prior, i, s);
        assert Eligible(cs, pos, prior, used, max, i);
      }
    }
  }

  lemma {:induction false} WithinVia(cs: seq<Chain>, pos: seq<nat>, prior: Option<nat>, used: nat, max: nat, i: nat, t: seq<Step>)
    requires Fits(cs, pos) && ActorsDistinct(cs) && (prior.Some? ==> prior.value < |cs|) && i < |cs|
    requires Eligible(cs, pos, prior, used, max, i) && Fits(cs, pos[i := pos[i] + 1])
    ensures Within(cs, pos, prior, used, max, [NextStep(cs, pos, i)] + t)
       <==> Within(cs, pos[i := pos[i] + 1], Some(i), used + Cost(cs, pos, prior, i), max, t)
  {
    var s := [NextStep(cs, pos, i)] + t;
    FinishesVia(cs, pos, i, t);
    assert s[1..] == t;
    if Finishes(cs, pos, s) {
      CostIsSwitch(cs, pos, prior, i, s);
    }
  }

  lemma {:induction false} ViaExact(cs: seq<Chain>, pos: seq<nat>, prior: Option<nat>, used: nat, max: nat, i: nat, s: seq<Step>)
    requires Fits(cs, pos) && ActorsDistinct(cs) && (prior.Some? ==> prior.value < |cs|) && i < |cs|
    requires Eligible(cs, pos, prior, used, max, i)
    ensures s in Via(cs, pos, prior, used, max, i)
       <==> s != [] && s[0] == NextStep(cs, pos, i) && Within(cs, pos, prior, used, max, s)
    decreases Remaining(cs, pos), 0
  {
    RemainingStep(cs, pos, i);
    InVia(cs, pos, prior, used, max, i, s);
    if s != [] && s[0] == NextStep(cs, pos, i) {
      CompletionsExact(cs, pos[i := pos[i] + 1], Some(i), used + Cost(cs, pos, prior, i), max, s[1..]);
      WithinVia(cs, pos, prior, used, max, i, s[1..]);
      assert s == [NextStep(cs, pos, i)] + s[1..];
    }
  }

  /** The enumeration holds exactly the interleavings within the preemption bound. */
  lemma {:induction false} EnumerationExact(cs: seq<Chain>, max: nat, s: seq<Step>)
    requires ActorsDistinct(cs)
    ensures s in AllSchedules(cs, max) <==> IsInterleaving(cs, s) && Preemptions(s) <= max
  {
    CompletionsExact(cs, Start(cs), None, 0, max, s);
    assert forall i :: 0 <= i < |cs| ==> cs[i].checkpoints[Start(cs)[i]..] == cs[i].checkpoints;
  }

  // ----- Order: strictly ascending, hence without repetition -----

  lemma {:induction false} PrependAscends(step: Step, all: seq<seq<Step>>)
    requires StrictlyAscending(all)
    ensures StrictlyAscending(Prepend([step], all))
  {
    var r := Prepend([step], all);
    forall i, j | 0 <= i < j < |r| ensures ScheduleLess(r[i], r[j]) {
      assert r[i][1..] == all[i] && r[j][1..] == all[j];
    }
  }

  lemma {:induction false} CompletionsAscend(cs: seq<Chain>, pos: seq<nat>, prior: Option<nat>, used: nat, max: nat)
    requires Fits(cs, pos) && (prior.Some? ==> prior.value < |cs|) && NameOrdered(cs)
    ensures StrictlyAscending(Completions(cs, pos, prior, used, max))
    decreases Remaining(cs, pos), |cs| + 1
  {
    if Remaining(cs, pos) > 0 {
      CompletionsFromAscend(cs, pos, prior, used, max, 0);
    }
  }

  lemma {:induction false} CompletionsFromAscend(cs: seq<Chain>, pos: seq<nat>, prior: Option<nat>, used: nat, max: nat, i: nat)
    requires Fits(cs, pos) && (prior.Some? ==> prior.value < |cs|) && i <= |cs| && NameOrdered(cs)
    ensures StrictlyAscending(CompletionsFrom(cs, pos, prior, used, max, i))
    decreases Remaining(cs, pos), |cs| - i
  {
    if i < |cs| {
      CompletionsFromAscend(cs, pos, prior, used, max, i + 1);
      if Eligible(cs, pos, prior, used, max, i) {
        RemainingStep(cs, pos, i);
        CompletionsAscend(cs, pos[i := pos[i] + 1], Some(i), used + Cost(cs, pos, prior, i), max);
        var first := Via(cs, pos, prior, used, max, i);
        PrependAscends(NextStep(cs, pos, i),
                       Completions(cs, pos[i := pos[i] + 1], Some(i), used + Cost(cs, pos, prior, i), max));
        var rest := CompletionsFrom(cs, pos, prior, used, max, i + 1);
        forall a, b | 0 <= a < |first| && 0 <= b < |rest| ensures ScheduleLess(first[a], rest[b]) {
          LaterActor(cs, pos, prior, used, max, i, first[a], rest[b]);
        }
      } else {
        assert CompletionsFrom(cs, pos, prior, used, max, i) == CompletionsFrom(cs, pos, prior, used, max, i + 1);
      }
    }
  }

  lemma {:induction false} LaterActor(cs: seq<Chain>, pos: seq<nat>, prior: Option<nat>, used: nat, max: nat, i: nat, s: seq<Step>, t: seq<Step>)
    requires Fits(cs, pos) && (prior.Some? ==> prior.value < |cs|) && i < |cs| && NameOrdered(cs)
    requires Eligible(cs, pos, prior, used, max, i)
    requires s in Via(cs, pos, prior, used, max, i) && t in CompletionsFrom(cs, pos, prior, used, max, i + 1)
    ensures ScheduleLess(s, t)
  {
    InCompletionsFrom(cs, pos, prior, used, max, i + 1, t);
    var k :| i + 1 <= k < |cs| && Eligible(cs, pos, prior, used, max, k) && t in Via(cs, pos, prior, used, max, k);
    RemainingStep(cs, pos, i);
    RemainingStep(cs, pos, k);
    InVia(cs, pos, prior, used, max, i, s);
    InVia(cs, pos, prior, used, max, k, t);
  }

  /** The list is in ascending schedule order, so nothing is listed twice. */
  lemma {:induction false} EnumerationOrdered(cs: seq<Chain>, max: nat)
    requires NameOrdered(cs)
    ensures StrictlyAscending(AllSchedules(cs, max))
    ensures forall i, j :: 0 <= i < j < |AllSchedules(cs, max)| ==> AllSchedules(cs, max)[i] != AllSchedules(cs, max)[j]
  {
    CompletionsAscend(cs, Start(cs), None, 0, max);
    var all := AllSchedules(cs, max);
    forall i, j | 0 <= i < j < |all| ensures all[i] != all[j] {
      ScheduleLessIrreflexive(all[i]);
    }
  }

  // ----- No dead ends -----

  /** A position reached within the bound always has a completion: the prior
      actor, or once it has finished any other, continues without charge. */
  lemma {:induction false} NoDeadEnd(cs: seq<Chain>, pos: seq<nat>, prior: Option<nat>, used: nat, max: nat)
    requires Fits(cs, pos) && (prior.Some? ==> prior.value < |cs|) && used <= max
    ensures Completions(cs, pos, prior, used, max) != []
    decreases Remaining(cs, pos)
  {
    if Remaining(cs, pos) > 0 {
      RemainingZero(cs, pos);
      var i :| 0 <= i < |cs| && Unfinished(cs, pos, i);
      if prior.Some? && Unfinished(cs, pos, prior.value) {
        i := prior.value;
      }
      RemainingStep(cs, pos, i);
      NoDeadEnd(cs, pos[i := pos[i] + 1], Some(i), used, max);
      var via := Via(cs, pos, prior, used, max, i);
      assert via[0] in via;
      InCompletionsFrom(cs, pos, prior, used, max, 0, via[0]);
    }
  }
}
