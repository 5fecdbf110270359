/** Shortening a reproduction: a descending search over the prefixes of a trace. */
module PrefixReduction {
  import opened Wrappers

  datatype Interruption = TimedOut | Cancelled

  /** What comes of validating a prefix: an answer, an interruption or an exception. */
  datatype Validation = Judged(valid: bool) | NotJudged(cause: Interruption) | ValidationThrew

  /** What comes of replaying a prefix. `matches` says that the expected signature, and
      the observed one of a reproduction, are those of the bundle; `clean` that cleanup
      is known to have succeeded. */
  datatype Evaluation =
    | Replayed(matches: bool, clean: bool, reproduced: bool)
    | NotReplayed(cause: Interruption, cleanLater: bool)
    | EvaluationThrew

  /** Everything a round of the search meets. */
  datatype Round = Round(aborted: bool, budgetLeft: bool, validation: Validation, abortedBetween: bool, evaluation: Evaluation)

  datatype Outcome = Reproduced | NotReproduced | Interrupted(cause: Interruption) | Failed | CleanupUnconfirmed | NotRun

  datatype Candidate = Candidate(order: nat, prefixLength: nat, valid: bool, outcome: Outcome)

  datatype Claim = ShortestReproducingPrefix | SmallestObserved | NotReduced

  datatype StopReason = Complete | CandidateLimit | TotalBudget | Aborted | CleanupIndependenceLost | CandidateFailure | NotEligible

  datatype Report = Report(best: Option<nat>, claim: Claim, minimalityComplete: bool, stop: StopReason, candidates: seq<Candidate>)

  // ----- One round -----

  /** Why a round does not start. */
  function Barred(w: Round, tried: nat, limit: nat): Option<StopReason> {
    if w.aborted then Some(Aborted)
    else if tried >= limit then Some(CandidateLimit)
    else if !w.budgetLeft then Some(TotalBudget)
    else None
  }

  /** A valid prefix was replayed to its end, against the right bundle, and cleaned up. */
  predicate Settled(w: Round, reproduced: bool) {
    w.validation == Judged(true) && !w.abortedBetween && w.evaluation == Replayed(true, true, reproduced)
  }

  /** A round that begins, and one that gets as far as the replay. */
  predicate Begins(w: Round, tried: nat, limit: nat) { !w.aborted && tried < limit && w.budgetLeft }

  predicate Replays(w: Round) { w.validation == Judged(true) && !w.abortedBetween }

  /** When the search ends with which reason. */
  predicate Halts(w: Round, tried: nat, limit: nat, stop: StopReason) {
    match stop
    case CandidateLimit => !w.aborted && tried >= limit
    case TotalBudget => !w.aborted && tried < limit && !w.budgetLeft
    case Aborted =>
      w.aborted
      || (Begins(w, tried, limit)
          && (w.validation == NotJudged(Cancelled) || (w.validation == Judged(true) && w.abortedBetween)
              || (Replays(w) && w.evaluation == NotReplayed(Cancelled, true))))
    case CleanupIndependenceLost => Begins(w, tried, limit) && Unclean(w)
    case CandidateFailure => Begins(w, tried, limit) && (w.validation == NotJudged(TimedOut) || Fails(w) || TimesOut(w))
    case _ => false
  }

  /** The replay left a cleanup that is not known to have succeeded. */
  predicate Unclean(w: Round) {
    Replays(w) && match w.evaluation
      case NotReplayed(_, cleanLater) => !cleanLater
      case Replayed(matches, clean, _) => matches && !clean
      case EvaluationThrew => false
  }

  /** An exception, or a replay of something else. */
  predicate Fails(w: Round) {
    w.validation.ValidationThrew? || (Replays(w) && (w.evaluation.EvaluationThrew? || (w.evaluation.Replayed? && !w.evaluation.matches)))
  }

  predicate TimesOut(w: Round) { Replays(w) && w.evaluation == NotReplayed(TimedOut, true) }

  /** A round after which the search goes on. */
  predicate Passes(w: Round, tried: nat, limit: nat) {
    Barred(w, tried, limit).None? && (w.validation == Judged(false) || Settled(w, true) || Settled(w, false))
  }

  /** What a candidate says of its round. */
  predicate Truthful(c: Candidate, w: Round) {
    && (c.outcome == Reproduced <==> Settled(w, true))
    && (c.outcome == NotReproduced <==> Settled(w, false))
    && (c.outcome == NotRun <==> w.validation == Judged(false))
    && (c.valid <==> w.validation != Judged(false))
    && (c.outcome == CleanupUnconfirmed <==> Unclean(w))
    && (c.outcome == Failed <==> Fails(w))
    && (forall cause :: c.outcome == Interrupted(cause) <==>
          w.validation == NotJudged(cause) || (Replays(w) && w.evaluation == NotReplayed(cause, true)))
  }

  /** The search reached `length` or stopped there: one candidate for each length
      from the whole trace down. */
  ghost predicate Log(world: nat -> Round, n: nat, candidates: seq<Candidate>) {
    |candidates| <= n && forall i :: 0 <= i < |candidates| ==>
      candidates[i].order == i + 1 && candidates[i].prefixLength == n - i && Truthful(candidates[i], world(n - i))
  }

  /** All rounds above `length` let the search go on. */
  ghost predicate PassedDownTo(world: nat -> Round, n: nat, length: nat, limit: nat) {
    forall l :: length < l <= n ==> Passes(world(l), n - l, limit)
  }

  /** The least length recorded as reproduced, if any. */
  ghost predicate IsBest(best: Option<nat>, candidates: seq<Candidate>) {
    && (best.Some? ==> exists i :: 0 <= i < |candidates| && candidates[i].outcome == Reproduced && candidates[i].prefixLength == best.value)
    && (forall i :: 0 <= i < |candidates| && candidates[i].outcome == Reproduced ==> best.Some? && best.value <= candidates[i].prefixLength)
  }

  // ----- The search -----

  /** A report given before all prefixes were tried. */
  function Unfinished(best: Option<nat>, stop: StopReason, candidates: seq<Candidate>): Report {
    Report(best, if best.None? then NotReduced else SmallestObserved, false, stop, candidates)
  }

  /** Every round above `length` passed, and the one there halted the search, leaving a
      candidate unless it did not begin or was cancelled between its two halves. */
  ghost predicate StoppedAt(world: nat -> Round, n: nat, length: nat, limit: nat, stop: StopReason, tried: nat) {
    && length <= n && PassedDownTo(world, n, length, limit)
    && Halts(world(length), n - length, limit, stop)
    && tried == n - length + if Barred(world(length), n - length, limit).Some? || Between(world(length)) then 0 else 1
  }

  predicate Between(w: Round) { w.validation == Judged(true) && w.abortedBetween }

  /** What the report promises, whatever the rounds bring. */
  ghost predicate Sound(world: nat -> Round, n: nat, limit: nat, r: Report) {
    && Log(world, n, r.candidates) && |r.candidates| <= limit && IsBest(r.best, r.candidates)
    && (r.claim == NotReduced <==> r.best.None?)
    && (r.stop == Complete <==> PassedDownTo(world, n, 0, limit))
    && (r.stop == Complete ==> |r.candidates| == n)
    && (r.stop != Complete ==> exists length :: 1 <= length <= n && StoppedAt(world, n, length, limit, r.stop, |r.candidates|))
    && (r.claim == ShortestReproducingPrefix <==>
        r.stop == Complete && r.best.Some? && forall l :: 1 <= l < r.best.value ==> Settled(world(l), false))
    && (r.minimalityComplete <==> r.stop == Complete && (r.best.None? || r.claim == ShortestReproducingPrefix))
  }

  /** `reduceReproductionPrefix` on an eligible bundle: a loop from the whole trace
      down to one step. */
  method Reduce(world: nat -> Round, eligible: bool, n: nat, limit: nat) returns (r: Report)
    requires limit >= 1
    ensures r.stop == NotEligible <==> !eligible || n == 0
    ensures r.stop == NotEligible ==> r == Report(None, NotReduced, false, NotEligible, [])
    ensures r.stop != NotEligible ==> Sound(world, n, limit, r)
  {
    if !eligible || n == 0 { return Report(None, NotReduced, false, NotEligible, []); }
    var candidates: seq<Candidate> := [];
    var best: Option<nat> := None;
    var length := n;
    while length >= 1
      invariant 0 <= length <= n && |candidates| == n - length && |candidates| <= limit
      invariant Log(world, n, candidates) && IsBest(best, candidates) && PassedDownTo(world, n, length, limit)
    {
      var w := world(length);
      var barred := Barred(w, |candidates|, limit);
      if barred.Some? {
        NotStarted(world, n, limit, length, best, candidates);
        return Unfinished(best, barred.value, candidates);
      }
      var outcome, stop := Try(w);
      if outcome.Some? {
        var c := Candidate(|candidates| + 1, length, outcome.value != NotRun, outcome.value);
        Recorded(world, n, candidates, c, best);
        candidates := candidates + [c];
      }
      if stop.Some? {
        Broken(world, n, limit, length, best, candidates, stop.value);
        return Unfinished(best, stop.value, candidates);
      }
      if outcome == Some(Reproduced) { best := Some(length); }
      length := length - 1;
    }
    var invalidShorter := best.Some? && InvalidBelow(candidates, best.value);
    Concluded(world, n, candidates, best);
    r := Report(best, if best.None? then NotReduced else if invalidShorter then SmallestObserved else ShortestReproducingPrefix,
      !invalidShorter, Complete, candidates);
  }

  /** One round: the outcome to record, if any, and why the search ends, if it does. */
  method Try(w: Round) returns (outcome: Option<Outcome>, stop: Option<StopReason>)
    ensures outcome.Some? ==> Truthful(Candidate(0, 0, outcome.value != NotRun, outcome.value), w)
    ensures outcome.None? <==> Between(w)
    ensures stop.None? <==> w.validation == Judged(false) || Settled(w, true) || Settled(w, false)
    ensures stop.Some? ==> stop.value !in {Complete, NotEligible, CandidateLimit, TotalBudget} && outcome != Some(Reproduced)
    ensures stop.Some? ==> forall tried: nat, limit: nat :: Begins(w, tried, limit) ==> Halts(w, tried, limit, stop.value)
  {
    match w.validation {
      case NotJudged(cause) => return Some(Interrupted(cause)), Some(if cause == Cancelled then Aborted else CandidateFailure);
      case ValidationThrew => return Some(Failed), Some(CandidateFailure);
      case Judged(valid) =>
        if !valid { return Some(NotRun), None; }
        if w.abortedBetween { return None, Some(Aborted); }
        match w.evaluation {
          case EvaluationThrew => return Some(Failed), Some(CandidateFailure);
          case NotReplayed(cause, cleanLater) =>
            if !cleanLater { return Some(CleanupUnconfirmed), Some(CleanupIndependenceLost); }
            return Some(Interrupted(cause)), Some(if cause == Cancelled then Aborted else CandidateFailure);
          case Replayed(matches, clean, reproduced) =>
            if !matches { return Some(Failed), Some(CandidateFailure); }
            if !clean { return Some(CleanupUnconfirmed), Some(CleanupIndependenceLost); }
            return Some(if reproduced then Reproduced else NotReproduced), None;
        }
    }
  }

  /** `candidates.some`: an invalid candidate shorter than the best. */
  predicate InvalidBelow(candidates: seq<Candidate>, best: nat) {
    exists i :: 0 <= i < |candidates| && !candidates[i].valid && candidates[i].prefixLength < best
  }

  lemma {:induction false} Recorded(world: nat -> Round, n: nat, candidates: seq<Candidate>, c: Candidate, best: Option<nat>)
    requires Log(world, n, candidates) && |candidates| < n && IsBest(best, candidates)
    requires c.order == |candidates| + 1 && c.prefixLength == n - |candidates| && Truthful(c, world(c.prefixLength))
    ensures Log(world, n, candidates + [c])
    ensures IsBest(if c.outcome == Reproduced then Some(c.prefixLength) else best, candidates + [c])
  {
    var all := candidates + [c];
    assert all[|candidates|] == c;
    assert forall i :: 0 <= i < |candidates| ==> all[i] == candidates[i];
  }

  lemma {:induction false} NotStarted(world: nat -> Round, n: nat, limit: nat, length: nat, best: Option<nat>, candidates: seq<Candidate>)
    requires 1 <= length <= n && |candidates| == n - length && |candidates| <= limit
    requires Log(world, n, candidates) && IsBest(best, candidates) && PassedDownTo(world, n, length, limit)
    requires Barred(world(length), n - length, limit).Some?
    ensures Sound(world, n, limit, Unfinished(best, Barred(world(length), n - length, limit).value, candidates))
  {
    assert !Passes(world(length), n - length, limit);
    assert StoppedAt(world, n, length, limit, Barred(world(length), n - length, limit).value, |candidates|);
  }

  lemma {:induction false} Broken(world: nat -> Round, n: nat, limit: nat, length: nat, best: Option<nat>, candidates: seq<Candidate>, stop: StopReason)
    requires 1 <= length <= n && n - length < limit && Begins(world(length), n - length, limit)
    requires Log(world, n, candidates) && IsBest(best, candidates) && PassedDownTo(world, n, length, limit)
    requires !Passes(world(length), n - length, limit) && Halts(world(length), n - length, limit, stop)
    requires |candidates| == n - length + if Between(world(length)) then 0 else 1
    ensures Sound(world, n, limit, Unfinished(best, stop, candidates))
  {
    assert StoppedAt(world, n, length, limit, stop, |candidates|);
  }

  /** With every prefix tried, the best is shortest unless a shorter one was invalid. */
  lemma {:induction false} Concluded(world: nat -> Round, n: nat, candidates: seq<Candidate>, best: Option<nat>)
    requires Log(world, n, candidates) && |candidates| == n && IsBest(best, candidates)
    requires forall l :: 0 < l <= n ==> world(l).validation == Judged(false) || Settled(world(l), true) || Settled(world(l), false)
    ensures best.Some? ==> (InvalidBelow(candidates, best.value) <==> !forall l :: 1 <= l < best.value ==> Settled(world(l), false))
  {
    if best.Some? {
      forall l | 1 <= l < best.value && l <= n && !Settled(world(l), false) ensures InvalidBelow(candidates, best.value) {
        var c := candidates[n - l];
        assert c.prefixLength == l && Truthful(c, world(l));
      }
      if InvalidBelow(candidates, best.value) {
        var i :| 0 <= i < |candidates| && !candidates[i].valid && candidates[i].prefixLength < best.value;
        assert Truthful(candidates[i], world(n - i)) && !Settled(world(n - i), false);
      }
    }
  }
}
