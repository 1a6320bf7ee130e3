/** Deterministic pruning under an arbitrary token counter. */
module Pruning {
  import opened Wrappers
  import opened Transcript
  import opened ModelView
  import opened Units

  /**
   The shared measurement of a message list, with (`total`) and without (`bare`) the request's tools
   and formats. Nothing is assumed about either function.
   */
  datatype Measure = Measure(total: seq<Message> -> nat, bare: seq<Message> -> nat, additive: bool, target: nat)

  /** The measurement the executor builds: every list is projected before the counter sees it. */
  function ProjectedMeasure(
    spec: ModelSpec, request: seq<Message> -> nat, bare: seq<Message> -> nat, additive: bool, target: nat): Measure
  {
    Measure(ms => request(Project(spec, ms)), ms => bare(Project(spec, ms)), additive, target)
  }

  function Count(m: Measure, ms: seq<Message>): (r: nat)
    ensures r <= WORD_MAX
  {
    Min(m.total(ms), WORD_MAX)
  }

  function UnitCost(m: Measure, ms: seq<Message>): nat {
    Min(SatSub(m.bare(ms), m.bare([])), WORD_MAX)
  }

  function UnitCosts(m: Measure, ms: seq<Message>, units: seq<Unit>): (r: seq<nat>)
    ensures |r| == |units|
  {
    seq(|units|, i requires 0 <= i < |units| => UnitCost(m, Slice(ms, units[i])))
  }

  datatype Refusal = NoCapacity | CannotFit
  datatype Compaction = Compaction(messages: seq<Message>, before: nat, after: nat, removedMessages: nat)

  // ----- which units are protected -----

  /**
   From the newest unit back: system units are protected, the newest removable unit is protected,
   and so are the removable units before it until one no longer fits the recent window.
   */
  function Protect(units: seq<Unit>, costs: seq<nat>, preserve: nat, recent: nat, newest: bool, closed: bool)
    : (r: seq<bool>)
    requires |units| == |costs|
    ensures |r| == |units|
  {
    if units == [] then []
    else
      var last := |units| - 1;
      if !units[last].removable then
        Protect(units[..last], costs[..last], preserve, recent, newest, closed) + [true]
      else if newest || (!closed && SatAdd(recent, costs[last]) <= preserve) then
        Protect(units[..last], costs[..last], preserve, SatAdd(recent, costs[last]), false, closed) + [true]
      else
        Protect(units[..last], costs[..last], preserve, recent, newest, true) + [false]
  }

  /** The positions, offset by `base`, of removable units that are not protected. */
  function Candidates(units: seq<Unit>, guarded: seq<bool>, base: nat): seq<nat>
    requires |units| == |guarded|
  {
    if units == [] then []
    else (if units[0].removable && !guarded[0] then [base] else []) + Candidates(units[1..], guarded[1..], base + 1)
  }

  function MarkFirst(n: nat, candidates: seq<nat>, k: nat): (r: seq<bool>)
    requires k <= |candidates|
    ensures |r| == n && forall i :: 0 <= i < n ==> (r[i] <==> i in candidates[..k])
  {
    seq(n, i => i in candidates[..k])
  }

  /** Everything the search looks at: the transcript, its units and the removable, unprotected ones. */
  datatype Plan = Plan(messages: seq<Message>, units: seq<Unit>, candidates: seq<nat>)

  function Planned(ms: seq<Message>, costs: seq<nat>, preserve: nat): Plan
    requires |costs| == |UnitsFrom(ms, 0)|
  {
    var units := UnitsFrom(ms, 0);
    Plan(ms, units, Candidates(units, Protect(units, costs, preserve, 0, true, false), 0))
  }

  /** The transcript without the `k` oldest candidates. */
  function Without(plan: Plan, k: nat): seq<Message>
    requires k <= |plan.candidates|
  {
    Rebuild(plan.messages, plan.units, MarkFirst(|plan.units|, plan.candidates, k))
  }

  function SizeOf(plan: Plan, k: nat): nat
    requires k < |plan.candidates|
  {
    if plan.candidates[k] < |plan.units|
    then SatSub(plan.units[plan.candidates[k]].end, plan.units[plan.candidates[k]].start) else 0
  }

  function CostOf(plan: Plan, costs: seq<nat>, k: nat): nat
    requires k < |plan.candidates|
  {
    if plan.candidates[k] < |costs| then costs[plan.candidates[k]] else 0
  }

  // ----- the counted search -----

  /** The additive first pass: how many candidates go before the running estimate first fits. */
  function FirstGuess(m: Measure, plan: Plan, costs: seq<nat>, position: nat, remaining: nat, gone: nat): (r: nat)
    requires position <= |plan.candidates|
    ensures position <= r <= |plan.candidates|
    ensures position < |plan.candidates| ==> position < r
    decreases |plan.candidates| - position
  {
    if position == |plan.candidates| then position
    else
      var left := SatSub(remaining, CostOf(plan, costs, position));
      var total := SatAdd(gone, SizeOf(plan, position));
      if SatAdd(left, UnitCost(m, [Marker(total)])) <= m.target then position + 1
      else FirstGuess(m, plan, costs, position + 1, left, total)
  }

  lemma GuessUnfold(m: Measure, plan: Plan, costs: seq<nat>, k: nat, left: nat, gone: nat)
    requires k < |plan.candidates|
    ensures
      var left' := SatSub(left, CostOf(plan, costs, k));
      var gone' := SatAdd(gone, SizeOf(plan, k));
      FirstGuess(m, plan, costs, k, left, gone) ==
        if SatAdd(left', UnitCost(m, [Marker(gone')])) <= m.target then k + 1
        else FirstGuess(m, plan, costs, k + 1, left', gone')
  {}

  function Fits(m: Measure, plan: Plan, before: nat, k: nat): bool
    requires k <= |plan.candidates|
  {
    Count(m, Without(plan, k)) <= m.target && Count(m, Without(plan, k)) < before
  }

  /** Halve the candidates that are left until a recount of the whole view fits. */
  function Search(m: Measure, plan: Plan, before: nat, k: nat): (r: Option<nat>)
    requires k <= |plan.candidates|
    ensures r.Some? ==> k <= r.value <= |plan.candidates| && Fits(m, plan, before, r.value)
    ensures r.None? ==> !Fits(m, plan, before, |plan.candidates|)
    decreases |plan.candidates| - k
  {
    if Fits(m, plan, before, k) then Some(k)
    else if k == |plan.candidates| then None
    else Search(m, plan, before, Halfway(|plan.candidates|, k))
  }

  function StartOf(m: Measure, plan: Plan, costs: seq<nat>, before: nat): (r: nat)
    ensures r <= |plan.candidates|
    ensures plan.candidates != [] ==> 1 <= r
  {
    if m.additive then FirstGuess(m, plan, costs, 0, before, 0) else Min(1, |plan.candidates|)
  }

  function PlanFor(m: Measure, preserve: nat, ms: seq<Message>): Plan {
    Planned(ms, UnitCosts(m, ms, UnitsFrom(ms, 0)), preserve)
  }

  /** How many of the oldest candidates pruning removes, when it can meet the target at all. */
  function Chosen(m: Measure, preserve: nat, ms: seq<Message>): (r: Option<nat>)
    ensures r.Some? ==> r.value <= |PlanFor(m, preserve, ms).candidates|
  {
    var plan := PlanFor(m, preserve, ms);
    Search(m, plan, Count(m, ms), StartOf(m, plan, UnitCosts(m, ms, UnitsFrom(ms, 0)), Count(m, ms)))
  }

  function Prune(m: Measure, preserve: nat, ms: seq<Message>): Result<Compaction, Refusal> {
    var before := Count(m, ms);
    if m.target == 0 then Err(NoCapacity)
    else if before <= m.target then Ok(Compaction(ms, before, before, 0))
    else
      match Chosen(m, preserve, ms)
      case None => Err(CannotFit)
      case Some(k) =>
        var plan := PlanFor(m, preserve, ms);
        Ok(Compaction(Without(plan, k), before, Count(m, Without(plan, k)),
                      RemovedCount(plan.units, MarkFirst(|plan.units|, plan.candidates, k))))
  }

  // ----- the imperative form -----

  /** The reverse pass that protects system and recent units. */
  method MarkMandatory(m: Measure, preserve: nat, ms: seq<Message>, units: seq<Unit>) returns (mandatory: seq<bool>)
    ensures mandatory == Protect(units, UnitCosts(m, ms, units), preserve, 0, true, false)
  {
    mandatory := [];
    var recent, newest, closed := 0, true, false;
    ghost var costs := UnitCosts(m, ms, units);
    ghost var all := Protect(units, costs, preserve, 0, true, false);
    assert units[..|units|] == units && costs[..|units|] == costs;
    for i := |units| downto 0
      invariant all == Protect(units[..i], costs[..i], preserve, recent, newest, closed) + mandatory
    {
      ProtectStep(units, costs, i, preserve, recent, newest, closed);
      var unit := units[i];
      var cost := UnitCost(m, Slice(ms, unit));
      var guarded := !unit.removable || newest || (!closed && SatAdd(recent, cost) <= preserve);
      if unit.removable {
        if guarded {
          recent := SatAdd(recent, cost);
          newest := false;
        } else {
          closed := true;
        }
      }
      Assoc(Protect(units[..i], costs[..i], preserve, recent, newest, closed), [guarded], mandatory);
      mandatory := [guarded] + mandatory;
    }
    assert units[..0] == [];
  }

  lemma ProtectStep(units: seq<Unit>, costs: seq<nat>, i: nat, preserve: nat, recent: nat, newest: bool, closed: bool)
    requires |units| == |costs| && i < |units|
    ensures Protect(units[..i + 1], costs[..i + 1], preserve, recent, newest, closed) ==
      if !units[i].removable then Protect(units[..i], costs[..i], preserve, recent, newest, closed) + [true]
      else if newest || (!closed && SatAdd(recent, costs[i]) <= preserve) then
        Protect(units[..i], costs[..i], preserve, SatAdd(recent, costs[i]), false, closed) + [true]
      else Protect(units[..i], costs[..i], preserve, recent, newest, true) + [false]
  {
    assert units[..i + 1][..i] == units[..i] && costs[..i + 1][..i] == costs[..i];
  }

  /** Number of binary digits: the halving search takes one recount per digit. */
  function Bits(n: nat): nat {
    if n == 0 then 0 else 1 + Bits(n / 2)
  }

  function Pow2(n: nat): nat {
    if n == 0 then 1 else 2 * Pow2(n - 1)
  }

  lemma {:induction false} BitsAreLog(n: nat)
    requires n > 0
    ensures Bits(n) >= 1 && Pow2(Bits(n) - 1) <= n < Pow2(Bits(n))
  {
    if n > 1 {
      BitsAreLog(n / 2);
    }
  }

  function Halfway(n: nat, position: nat): (r: nat)
    requires position < n
    ensures position < r <= n && n - r == (n - position) / 2
  {
    position + Max((n - position + 1) / 2, 1)
  }

  /** Rebuild and recount, removing half of what is left each time it does not fit. */
  method HalvingSearch(m: Measure, plan: Plan, before: nat, start: nat)
    returns (found: Option<nat>, messages: seq<Message>, after: nat, recounts: nat)
    requires start <= |plan.candidates|
    ensures found == Search(m, plan, before, start)
    ensures found.Some? ==> messages == Without(plan, found.value) && after == Count(m, messages)
    ensures recounts <= 1 + Bits(|plan.candidates| - start)
  {
    recounts := 0;
    var position := start;
    while true
      invariant position <= |plan.candidates|
      invariant Search(m, plan, before, start) == Search(m, plan, before, position)
      invariant recounts + Bits(|plan.candidates| - position) <= Bits(|plan.candidates| - start)
      decreases |plan.candidates| - position
    {
      var removed := MarkFirst(|plan.units|, plan.candidates, position);
      messages := RebuildMessages(plan.messages, plan.units, removed);
      after := Count(m, messages);
      recounts := recounts + 1;
      if after <= m.target && after < before {
        return Some(position), messages, after, recounts;
      }
      if position >= |plan.candidates| {
        return None, messages, after, recounts;
      }
      var n := |plan.candidates|;
      assert Bits(n - position) == 1 + Bits((n - position) / 2);
      position := Halfway(n, position);
    }
  }

  method MakePlan(m: Measure, preserve: nat, messages: seq<Message>) returns (plan: Plan)
    ensures plan == PlanFor(m, preserve, messages)
  {
    var units := MessageUnits(messages);
    var mandatory := MarkMandatory(m, preserve, messages, units);
    plan := Plan(messages, units, Candidates(units, mandatory, 0));
  }

  method PruneCounted(m: Measure, preserve: nat, messages: seq<Message>)
    returns (result: Result<Compaction, Refusal>, recounts: nat)
    ensures result == Prune(m, preserve, messages)
    ensures recounts <= 1 + Bits(SatSub(|PlanFor(m, preserve, messages).candidates|, 1))
  {
    var before := Count(m, messages);
    if m.target == 0 {
      return Err(NoCapacity), 0;
    }
    if before <= m.target {
      return Ok(Compaction(messages, before, before, 0)), 0;
    }
    var plan := MakePlan(m, preserve, messages);
    var position := 0;
    if m.additive {
      position := AdditivePass(m, plan, UnitCosts(m, messages, plan.units), before);
    }
    if position == 0 && position < |plan.candidates| {
      position := 1;
    }
    assert position == StartOf(m, plan, UnitCosts(m, messages, UnitsFrom(messages, 0)), before);
    var found, rebuilt, after;
    found, rebuilt, after, recounts := HalvingSearch(m, plan, before, position);
    BitsGrow(|plan.candidates| - position, SatSub(|plan.candidates|, 1));
    assert found == Chosen(m, preserve, messages);
    PruneUnfold(m, preserve, messages);
    if found.None? {
      result := Err(CannotFit);
    } else {
      var removed := MarkFirst(|plan.units|, plan.candidates, found.value);
      result := Ok(Compaction(rebuilt, before, after, RemovedCount(plan.units, removed)));
    }
  }

  lemma PruneUnfold(m: Measure, preserve: nat, ms: seq<Message>)
    requires 0 < m.target < Count(m, ms)
    ensures
      var plan, chosen := PlanFor(m, preserve, ms), Chosen(m, preserve, ms);
      Prune(m, preserve, ms) ==
        if chosen.None? then Err(CannotFit)
        else
          var messages := Without(plan, chosen.value);
          Ok(Compaction(messages, Count(m, ms), Count(m, messages),
                        RemovedCount(plan.units, MarkFirst(|plan.units|, plan.candidates, chosen.value))))
  {}

  lemma BitsGrow(a: nat, b: nat)
    requires a <= b
    ensures Bits(a) <= Bits(b)
  {}

  method AdditivePass(m: Measure, plan: Plan, costs: seq<nat>, before: nat) returns (position: nat)
    ensures position == FirstGuess(m, plan, costs, 0, before, 0)
  {
    position := 0;
    var remaining, gone := before, 0;
    while position < |plan.candidates|
      invariant position <= |plan.candidates|
      invariant FirstGuess(m, plan, costs, 0, before, 0) == FirstGuess(m, plan, costs, position, remaining, gone)
    {
      GuessUnfold(m, plan, costs, position, remaining, gone);
      remaining := SatSub(remaining, CostOf(plan, costs, position));
      gone := SatAdd(gone, SizeOf(plan, position));
      position := position + 1;
      if SatAdd(remaining, UnitCost(m, [Marker(gone)])) <= m.target {
        break;
      }
    }
  }
}
