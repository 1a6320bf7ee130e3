/** What the estimate-driven compactor removes, for any counter: its window, its first fit, and its messages. */
module LegacyWindow {
  import opened Wrappers
  import opened Transcript
  import opened Units
  import opened Pruning
  import opened PruneShape
  import opened PruneWindow
  import opened LegacyPruning

  /** Tokens of some messages alone, as the estimate gives them: a machine word, less the framing of a request. */
  function Alone(m: Measure, ms: seq<Message>): nat {
    SatSub(Min(m.bare(ms), 0xFFFF_FFFF_FFFF_FFFF), 16)
  }

  lemma EstimatesAlone(m: Measure, ms: seq<Message>, units: seq<Unit>)
    requires forall u <- units :: u.start <= u.end <= |ms|
    ensures |Estimates(m, ms, units)| == |units| && Words(Estimates(m, ms, units))
    ensures forall i :: 0 <= i < |units| ==> Estimates(m, ms, units)[i] == Alone(m, ms[units[i].start..units[i].end])
  {
    var costs := Estimates(m, ms, units);
    forall c <- costs ensures c <= WORD_MAX {
      var k :| 0 <= k < |costs| && costs[k] == c;
    }
    forall i | 0 <= i < |units| ensures costs[i] == Alone(m, ms[units[i].start..units[i].end]) {
      assert units[i] in units;
    }
  }

  /** A removable unit that is not the newest one, and that the window does not reach back to. */
  predicate BeyondReach(units: seq<Unit>, costs: seq<nat>, preserve: nat, i: nat)
    requires |units| == |costs|
  {
    && i < |units| && units[i].removable
    && (exists j :: i < j < |units| && units[j].removable)
    && Min(CostBetween(units, costs, i, |units|), WORD_MAX) > preserve
  }

  /** The candidates of the estimate-driven compactor are the units outside the window its estimates measure. */
  lemma LegacyCandidatesIff(m: Measure, preserve: nat, ms: seq<Message>)
    ensures
      var units, costs := UnitsFrom(ms, 0), Estimates(m, ms, UnitsFrom(ms, 0));
      && (forall u <- units :: u.start <= u.end <= |ms|)
      && forall i :: 0 <= i < |units| ==> costs[i] == Alone(m, ms[units[i].start..units[i].end])
    ensures Ascending(LegacyPlan(m, preserve, ms).candidates)
    ensures forall i: nat :: i in LegacyPlan(m, preserve, ms).candidates <==>
      BeyondReach(UnitsFrom(ms, 0), Estimates(m, ms, UnitsFrom(ms, 0)), preserve, i)
  {
    var units := UnitsFrom(ms, 0);
    var costs := Estimates(m, ms, units);
    UnitRanges(ms, 0);
    EstimatesAlone(m, ms, units);
    PlannedIff(ms, costs, preserve);
  }

  lemma PlannedIff(ms: seq<Message>, costs: seq<nat>, preserve: nat)
    requires |costs| == |UnitsFrom(ms, 0)| && Words(costs)
    ensures Ascending(Planned(ms, costs, preserve).candidates)
    ensures forall i: nat :: i in Planned(ms, costs, preserve).candidates <==>
      BeyondReach(UnitsFrom(ms, 0), costs, preserve, i)
  {
    var units := UnitsFrom(ms, 0);
    CandidatesExact(units, Protect(units, costs, preserve, 0, true, false), 0);
    forall i: nat | i < |units|
      ensures units[i].removable && !Protect(units, costs, preserve, 0, true, false)[i] <==>
        BeyondReach(units, costs, preserve, i)
    {
      UnprotectedIff(units, costs, preserve, i);
    }
  }

  lemma UnprotectedIff(units: seq<Unit>, costs: seq<nat>, preserve: nat, i: nat)
    requires |units| == |costs| && Words(costs) && i < |units|
    ensures units[i].removable && !Protect(units, costs, preserve, 0, true, false)[i] <==>
      BeyondReach(units, costs, preserve, i)
  {
    ProtectIff(units, costs, preserve, 0, true, false, |units|, i);
    assert units[..|units|] == units && costs[..|units|] == costs;
  }

  // ----- the scan -----

  /** Estimated tokens of the `k` oldest candidates. */
  function AloneOfFirst(m: Measure, ms: seq<Message>, plan: Plan, k: nat): nat
    requires Sensible(ms, plan) && k <= |plan.candidates|
  {
    if k == 0 then 0
    else
      var u := Candidate(ms, plan, k - 1);
      AloneOfFirst(m, ms, plan, k - 1) + Alone(m, ms[u.start..u.end])
  }

  /** The running estimate after `k` candidates are gone: what was counted, less those, plus the marker. */
  function LeftAfter(m: Measure, ms: seq<Message>, plan: Plan, before: nat, k: nat): nat
    requires Sensible(ms, plan) && k <= |plan.candidates|
  {
    Min(SatSub(before, AloneOfFirst(m, ms, plan, k)) + Alone(m, [Marker(SizeOfFirst(ms, plan, k))]), WORD_MAX)
  }

  function ScanAfter(m: Measure, ms: seq<Message>, plan: Plan, before: nat, k: nat): Option<(nat, nat)>
    requires Sensible(ms, plan) && k <= |plan.candidates|
  {
    Scan(m, plan, Estimates(m, ms, plan.units), k, SatSub(before, AloneOfFirst(m, ms, plan, k)),
         SizeOfFirst(ms, plan, k))
  }

  lemma ScanCosts(m: Measure, ms: seq<Message>, plan: Plan, k: nat)
    requires Sensible(ms, plan) && k < |plan.candidates|
    ensures
      var u := Candidate(ms, plan, k);
      && CostOf(plan, Estimates(m, ms, plan.units), k) == Alone(m, ms[u.start..u.end])
      && SizeOf(plan, k) == u.end - u.start
  {
    var u := Candidate(ms, plan, k);
    assert Estimates(m, ms, plan.units)[plan.candidates[k]] == Estimate(m, Slice(ms, u));
  }

  lemma ScanUnfold(m: Measure, plan: Plan, costs: seq<nat>, k: nat, left: nat, gone: nat)
    requires k < |plan.candidates|
    ensures
      var left', gone' := SatSub(left, CostOf(plan, costs, k)), gone + SizeOf(plan, k);
      var after := SatAdd(left', Estimate(m, [Marker(gone')]));
      Scan(m, plan, costs, k, left, gone) ==
        if after <= m.target then Some((k + 1, after)) else Scan(m, plan, costs, k + 1, left', gone')
  {}

  lemma ScanStep(m: Measure, ms: seq<Message>, plan: Plan, before: nat, k: nat)
    requires Sensible(ms, plan) && k < |plan.candidates|
    ensures
      var after := LeftAfter(m, ms, plan, before, k + 1);
      ScanAfter(m, ms, plan, before, k) ==
        if after <= m.target then Some((k + 1, after)) else ScanAfter(m, ms, plan, before, k + 1)
  {
    var cost, size := AloneOfFirst(m, ms, plan, k), SizeOfFirst(ms, plan, k);
    ScanCosts(m, ms, plan, k);
    ScanUnfold(m, plan, Estimates(m, ms, plan.units), k, SatSub(before, cost), size);
    var u := Candidate(ms, plan, k);
    assert SatSub(SatSub(before, cost), Alone(m, ms[u.start..u.end])) ==
      SatSub(before, AloneOfFirst(m, ms, plan, k + 1));
  }

  /** The scan's answer: the first number of candidates, after `k`, whose running estimate fits, with that estimate. */
  predicate FirstFit(m: Measure, ms: seq<Message>, plan: Plan, before: nat, k: nat, r: Option<(nat, nat)>)
    requires Sensible(ms, plan)
  {
    match r
    case Some((n, after)) =>
      && k < n <= |plan.candidates| && after == LeftAfter(m, ms, plan, before, n) <= m.target
      && forall j :: k < j < n ==> LeftAfter(m, ms, plan, before, j) > m.target
    case None => forall j :: k < j <= |plan.candidates| ==> LeftAfter(m, ms, plan, before, j) > m.target
  }

  /** What the scan answers from `k` on; under a quantifier, so that it is unfolded only on request. */
  ghost predicate Scans(m: Measure, ms: seq<Message>, plan: Plan, before: nat, k: nat, r: Option<(nat, nat)>)
    requires Sensible(ms, plan)
  {
    forall j: nat :: j == k && j <= |plan.candidates| ==> r == ScanAfter(m, ms, plan, before, j)
  }

  lemma {:induction false} ScanIsFirst(m: Measure, ms: seq<Message>, plan: Plan, before: nat, k: nat)
    returns (r: Option<(nat, nat)>)
    requires Sensible(ms, plan) && k <= |plan.candidates|
    ensures Scans(m, ms, plan, before, k, r) && FirstFit(m, ms, plan, before, k, r)
    decreases |plan.candidates| - k
  {
    if k < |plan.candidates| {
      var later := ScanIsFirst(m, ms, plan, before, k + 1);
      r := ScanBack(m, ms, plan, before, k, later);
    } else {
      r := None;
    }
  }

  lemma ScanBack(m: Measure, ms: seq<Message>, plan: Plan, before: nat, k: nat, later: Option<(nat, nat)>)
    returns (r: Option<(nat, nat)>)
    requires Sensible(ms, plan) && k < |plan.candidates|
    requires Scans(m, ms, plan, before, k + 1, later) && FirstFit(m, ms, plan, before, k + 1, later)
    ensures Scans(m, ms, plan, before, k, r) && FirstFit(m, ms, plan, before, k, r)
  {
    r := ScanNext(m, ms, plan, before, k, later);
    FirstFitBack(m, ms, plan, before, k, r, later);
  }

  lemma ScanNext(m: Measure, ms: seq<Message>, plan: Plan, before: nat, k: nat, later: Option<(nat, nat)>)
    returns (r: Option<(nat, nat)>)
    requires Sensible(ms, plan) && k < |plan.candidates| && Scans(m, ms, plan, before, k + 1, later)
    ensures Scans(m, ms, plan, before, k, r)
    ensures
      var after := LeftAfter(m, ms, plan, before, k + 1);
      r == if after <= m.target then Some((k + 1, after)) else later
  {
    ScanStep(m, ms, plan, before, k);
    r := ScanAfter(m, ms, plan, before, k);
  }

  lemma FirstFitBack(
    m: Measure, ms: seq<Message>, plan: Plan, before: nat, k: nat, r: Option<(nat, nat)>, later: Option<(nat, nat)>)
    requires Sensible(ms, plan) && k < |plan.candidates|
    requires
      var after := LeftAfter(m, ms, plan, before, k + 1);
      r == if after <= m.target then Some((k + 1, after)) else later
    requires FirstFit(m, ms, plan, before, k + 1, later)
    ensures FirstFit(m, ms, plan, before, k, r)
  {}

  lemma {:induction false} GoneIsSize(ms: seq<Message>, plan: Plan, k: nat)
    requires Sensible(ms, plan) && Proper(plan) && k <= |plan.candidates|
    ensures Gone(plan, k) == SizeOfFirst(ms, plan, k)
    decreases k
  {
    if k == 0 {
      NothingGone(msg => 0, plan);
    } else {
      GoneIsSize(ms, plan, k - 1);
      OneMoreCandidate(msg => 0, plan, k - 1);
    }
  }

  lemma PlanSensible(m: Measure, preserve: nat, ms: seq<Message>)
    ensures Sensible(ms, LegacyPlan(m, preserve, ms)) && Proper(LegacyPlan(m, preserve, ms))
    ensures LegacyPlan(m, preserve, ms).units == UnitsFrom(ms, 0) && LegacyPlan(m, preserve, ms).messages == ms
  {
    var plan := LegacyPlan(m, preserve, ms);
    PlannedProper(ms, Estimates(m, ms, UnitsFrom(ms, 0)), preserve);
    UnitRanges(ms, 0);
    forall k | 0 <= k < |plan.candidates| ensures plan.candidates[k] < |plan.units| {
      assert plan.candidates[k] in plan.candidates;
    }
    forall i | 0 <= i < |plan.units| ensures plan.units[i].start <= plan.units[i].end <= |ms| {
      assert plan.units[i] in plan.units;
    }
  }

  /**
   For any counter, the estimate-driven compactor removes the smallest nonempty number of its oldest candidates
   whose running estimate fits, reports that estimate and the number of removed messages, and refuses when no
   number of candidates fits.
   */
  lemma LegacyExact(m: Measure, preserve: nat, ms: seq<Message>)
    requires Count(m, ms) > m.target > 0
    ensures Sensible(ms, LegacyPlan(m, preserve, ms))
    ensures
      var plan, before := LegacyPlan(m, preserve, ms), Count(m, ms);
      match Compact(m, preserve, ms)
      case Ok(c) =>
        && c.before == before
        && exists n: nat ::
             && FirstFit(m, ms, plan, before, 0, Some((n, c.after)))
             && c.messages == Without(plan, n) && c.removedMessages == SizeOfFirst(ms, plan, n)
      case Err(refusal) => refusal == CannotFit && FirstFit(m, ms, plan, before, 0, None)
  {
    var plan, before := LegacyPlan(m, preserve, ms), Count(m, ms);
    PlanSensible(m, preserve, ms);
    var r := ScanIsFirst(m, ms, plan, before, 0);
    assert r == ScanAfter(m, ms, plan, before, 0);
    if r.Some? {
      GoneIsSize(ms, plan, r.value.0);
    }
  }

  lemma CutOfFirst(ms: seq<Message>, costs: seq<nat>, preserve: nat, n: nat) returns (p: nat)
    requires |costs| == |UnitsFrom(ms, 0)| && 0 < n <= |Planned(ms, costs, preserve).candidates|
    ensures
      var plan, a := Planned(ms, costs, preserve), FirstOther(ms, 0);
      && a < p <= |ms|
      && Gone(plan, n) == (p - a) - |SystemMessages(ms[a..p])|
      && Without(plan, n) == ms[..a] + [Marker(Gone(plan, n))] + SystemMessages(ms[a..p]) + ms[p..]
      && exists j :: p <= j < |ms| && ms[j].role != System
  {
    var units, plan := UnitsFrom(ms, 0), Planned(ms, costs, preserve);
    var guarded := Protect(units, costs, preserve, 0, true, false);
    var mandatory := ProtectedSuffix(units, costs, preserve, 0, true, false);
    var removed := MarkFirst(|units|, plan.candidates, n);
    var cut := FirstCandidatesAreOldest(units, guarded, mandatory, n);
    CandidatesExact(units, guarded, 0);
    assert plan.candidates[0] in plan.candidates && plan.candidates[..n][0] == plan.candidates[0];
    assert removed[plan.candidates[0]];
    var i :| mandatory <= i < |units| && units[i].removable;
    p := CutMessages(ms, removed, cut);
  }

  /** What the estimate-driven compactor returns, message by message: the same shape counted pruning gives. */
  lemma CompactedExactly(m: Measure, preserve: nat, ms: seq<Message>) returns (p: nat)
    requires Compact(m, preserve, ms).Ok?
    ensures
      var c, a := Compact(m, preserve, ms).value, FirstOther(ms, 0);
      if Count(m, ms) <= m.target then c.messages == ms && c.removedMessages == 0
      else
        && a < p <= |ms|
        && c.removedMessages == (p - a) - |SystemMessages(ms[a..p])|
        && c.messages == ms[..a] + [Marker(c.removedMessages)] + SystemMessages(ms[a..p]) + ms[p..]
        && exists j :: p <= j < |ms| && ms[j].role != System
  {
    p := 0;
    if Count(m, ms) > m.target {
      var costs := Estimates(m, ms, UnitsFrom(ms, 0));
      var n := Scan(m, LegacyPlan(m, preserve, ms), costs, 0, Count(m, ms), 0).value.0;
      p := CutOfFirst(ms, costs, preserve, n);
    }
  }
}
