/** The explorer's backtracking search over shared position and path buffers. */
module ScheduleExplorer {
  import opened Wrappers
  import opened ScheduleSpace
  import opened ScheduleCompletions

  datatype StopReason = Running | Interrupted | EnumerationLimit

  lemma {:induction false} PrependConcat(head: seq<Step>, xs: seq<seq<Step>>, ys: seq<seq<Step>>)
    ensures Prepend(head, xs + ys) == Prepend(head, xs) + Prepend(head, ys)
  {
  }

  lemma {:induction false} PrependPrepend(head: seq<Step>, step: Step, xs: seq<seq<Step>>)
    ensures Prepend(head, Prepend([step], xs)) == Prepend(head + [step], xs)
  {
    forall k | 0 <= k < |xs| ensures head + ([step] + xs[k]) == (head + [step]) + xs[k] {
    }
  }

  lemma {:induction false} PrependNothing(xs: seq<seq<Step>>)
    ensures Prepend([], xs) == xs
  {
    forall k | 0 <= k < |xs| ensures [] + xs[k] == xs[k] {
    }
  }

  /** What one run of the search may have added to the shapes collected before. */
  ghost predicate Collected(before: seq<seq<Step>>, after: seq<seq<Step>>, goal: seq<seq<Step>>,
                            exhausted: bool, reason: StopReason, limit: nat)
  {
    if exhausted then after == before + goal
    else
      && before <= after && after[|before|..] <= goal
      && (reason == EnumerationLimit ==> |after| == limit && |after| - |before| < |goal|)
  }

  /** Where the recursion stands: chains, positions and the path taken so far. */
  ghost predicate OnPath(cs: seq<Chain>, pos: seq<nat>, path: seq<Step>) {
    Fits(cs, pos) && |path| + Remaining(cs, pos) == TotalSteps(cs)
  }

  lemma {:induction false} CollectedMore(before: seq<seq<Step>>, mid: seq<seq<Step>>, after: seq<seq<Step>>,
                      head: seq<seq<Step>>, tail: seq<seq<Step>>, exhausted: bool, reason: StopReason, limit: nat)
    requires mid == before + head
    requires Collected(mid, after, tail, exhausted, reason, limit)
    ensures Collected(before, after, head + tail, exhausted, reason, limit)
  {
    if !exhausted {
      assert after[|before|..] == head + after[|mid|..];
    }
  }

  /** Stopping inside the first part stops the whole. */
  lemma {:induction false} CollectedLess(before: seq<seq<Step>>, after: seq<seq<Step>>,
                      head: seq<seq<Step>>, tail: seq<seq<Step>>, reason: StopReason, limit: nat)
    requires Collected(before, after, head, false, reason, limit)
    ensures Collected(before, after, head + tail, false, reason, limit)
  {
    assert head <= head + tail;
  }

  /** After one branch: its completions joined those gathered before it, or the
      search stopped inside it. */
  lemma {:induction false} BranchDone(before: seq<seq<Step>>, mid: seq<seq<Step>>, after: seq<seq<Step>>, path: seq<Step>,
                   done: seq<seq<Step>>, via: seq<seq<Step>>, rest: seq<seq<Step>>,
                   exhausted: bool, reason: StopReason, limit: nat)
    requires mid == before + Prepend(path, done)
    requires Collected(mid, after, Prepend(path, via), exhausted, reason, limit)
    ensures exhausted ==> after == before + Prepend(path, done + via)
    ensures !exhausted ==> Collected(before, after, Prepend(path, done + (via + rest)), exhausted, reason, limit)
    ensures done + (via + rest) == (done + via) + rest
  {
    PrependConcat(path, done, via);
    PrependConcat(path, done + via, rest);
    assert done + (via + rest) == (done + via) + rest;
    CollectedMore(before, mid, after, Prepend(path, done), Prepend(path, via), exhausted, reason, limit);
    if !exhausted {
      CollectedLess(before, after, Prepend(path, done + via), Prepend(path, rest), reason, limit);
    }
  }

  class Explorer {
    const chains: seq<Chain>
    const maxPreemptions: nat
    const maxEnumerated: nat
    const positions: array<nat>
    var current: seq<Step>
    var shapes: seq<seq<Step>>
    var exhausted: bool
    var stopReason: StopReason

    ghost predicate Valid()
      reads this, positions
    {
      && OnPath(chains, positions[..], current)
      && |shapes| <= maxEnumerated
      && (exhausted ==> stopReason == Running)
    }

    constructor (chains: seq<Chain>, maxPreemptions: nat, maxEnumerated: nat)
      ensures Valid() && fresh(positions)
      ensures this.chains == chains && this.maxPreemptions == maxPreemptions && this.maxEnumerated == maxEnumerated
      ensures positions[..] == Start(chains) && current == [] && shapes == [] && exhausted
    {
      this.chains := chains;
      this.maxPreemptions := maxPreemptions;
      this.maxEnumerated := maxEnumerated;
      positions := new nat[|chains|](i => 0);
      current, shapes, exhausted, stopReason := [], [], true, Running;
      new;
      assert positions[..] == Start(chains);
      RemainingAtStart(chains);
    }

    /** One node of the search. The caller's positions and path are restored on
        return, whatever happened; the shapes gained are the completions of this
        node, or a prefix of them once the search has been stopped. */
    method Visit(prior: Option<nat>, preemptions: nat)
      requires Valid() && (prior.Some? ==> prior.value < |chains|)
      modifies this, positions
      ensures Valid()
      ensures positions[..] == old(positions[..]) && current == old(current)
      ensures !old(exhausted) ==> !exhausted && shapes == old(shapes) && stopReason == old(stopReason)
      ensures old(exhausted) ==>
        Collected(old(shapes), shapes,
                  Prepend(current, Completions(chains, positions[..], prior, preemptions, maxPreemptions)),
                  exhausted, stopReason, maxEnumerated)
      decreases Remaining(chains, positions[..]), 2
    {
      if !exhausted { return; }
      var interrupted := *;  // an abort signal or the deadline, at any node
      if interrupted {
        exhausted, stopReason := false, Interrupted;
        return;
      }
      var total := CountSteps();
      if |current| == total {
        assert current + [] == current;
        assert Prepend(current, [[]]) == [current];
        if |shapes| == maxEnumerated {
          exhausted, stopReason := false, EnumerationLimit;
        } else {
          shapes := shapes + [current];
        }
        return;
      }
      Expand(prior, preemptions);
    }

    /** Try every actor that may take the next step, in name order. */
    method Expand(prior: Option<nat>, preemptions: nat)
      requires Valid() && exhausted && (prior.Some? ==> prior.value < |chains|)
      requires Remaining(chains, positions[..]) > 0
      modifies this, positions
      ensures Valid()
      ensures positions[..] == old(positions[..]) && current == old(current)
      ensures Collected(old(shapes), shapes,
                        Prepend(current, Completions(chains, positions[..], prior, preemptions, maxPreemptions)),
                        exhausted, stopReason, maxEnumerated)
      decreases Remaining(chains, positions[..]), 1
    {
      ghost var pos, path, before := positions[..], current, shapes;
      ghost var all := Completions(chains, pos, prior, preemptions, maxPreemptions);
      ghost var done: seq<seq<Step>> := [];
      var i := 0;
      while i < |chains|
        invariant 0 <= i <= |chains|
        invariant Valid() && exhausted && positions[..] == pos && current == path
        invariant shapes == before + Prepend(path, done)
        invariant done + CompletionsFrom(chains, pos, prior, preemptions, maxPreemptions, i) == all
      {
        var extra := if prior.Some? && prior.value != i && positions[prior.value] < |chains[prior.value].checkpoints| then 1 else 0;
        if positions[i] != |chains[i].checkpoints| && preemptions + extra <= maxPreemptions {
          ghost var via := Via(chains, pos, prior, preemptions, maxPreemptions, i);
          ghost var rest := CompletionsFrom(chains, pos, prior, preemptions, maxPreemptions, i + 1);
          ghost var mid := shapes;
          Branch(prior, preemptions, extra, i);
          BranchDone(before, mid, shapes, path, done, via, rest, exhausted, stopReason, maxEnumerated);
          if !exhausted { return; }
          done := done + via;
        }
        i := i + 1;
      }
      assert done == all;
    }

    /** Take actor `i`'s next step, search below it, and take it back. */
    method Branch(ghost prior: Option<nat>, preemptions: nat, extra: nat, i: nat)
      requires Valid() && exhausted && (prior.Some? ==> prior.value < |chains|) && i < |chains|
      requires Eligible(chains, positions[..], prior, preemptions, maxPreemptions, i)
      requires extra == Cost(chains, positions[..], prior, i)
      modifies this, positions
      ensures Valid()
      ensures positions[..] == old(positions[..]) && current == old(current)
      ensures Collected(old(shapes), shapes,
                        Prepend(current, Via(chains, positions[..], prior, preemptions, maxPreemptions, i)),
                        exhausted, stopReason, maxEnumerated)
      decreases Remaining(chains, positions[..]), 0
    {
      ghost var pos, path := positions[..], current;
      var at := positions[i];
      var step := Step(chains[i].actor, chains[i].checkpoints[at]);
      RemainingStep(chains, pos, i);
      positions[i] := at + 1;
      assert positions[..] == pos[i := pos[i] + 1];
      current := current + [step];
      Visit(Some(i), preemptions + extra);
      PrependPrepend(path, step, Completions(chains, pos[i := pos[i] + 1], Some(i), preemptions + extra, maxPreemptions));
      current := current[..|current| - 1];
      positions[i] := at;
      assert current == path && positions[..] == pos;
    }

    method CountSteps() returns (n: nat)
      ensures n == TotalSteps(chains)
    {
      n := 0;
      for i := 0 to |chains|
        invariant n + TotalSteps(chains[i..]) == TotalSteps(chains)
      {
        assert chains[i..][1..] == chains[i + 1..];
        n := n + |chains[i].checkpoints|;
      }
    }
  }

  lemma {:induction false} RemainingAtStart(cs: seq<Chain>)
    ensures Remaining(cs, Start(cs)) == TotalSteps(cs)
  {
    if cs != [] {
      RemainingAtStart(cs[1..]);
      assert Start(cs)[1..] == Start(cs[1..]);
    }
  }

  /** The search as the explorer runs it: everything, or a prefix cut short by
      an interruption or by the limit with a further schedule left over. */
  method EnumerateSchedules(chains: seq<Chain>, maxPreemptions: nat, maxEnumerated: nat)
    returns (shapes: seq<seq<Step>>, exhausted: bool, reason: StopReason)
    ensures exhausted ==> shapes == AllSchedules(chains, maxPreemptions) && reason == Running
    ensures !exhausted ==> shapes <= AllSchedules(chains, maxPreemptions)
    ensures !exhausted && reason == EnumerationLimit ==>
      |shapes| == maxEnumerated && |AllSchedules(chains, maxPreemptions)| > maxEnumerated
    ensures |shapes| <= maxEnumerated
  {
    var search := new Explorer(chains, maxPreemptions, maxEnumerated);
    search.Visit(None, 0);
    PrependNothing(AllSchedules(chains, maxPreemptions));
    shapes, exhausted, reason := search.shapes, search.exhausted, search.stopReason;
  }
}
