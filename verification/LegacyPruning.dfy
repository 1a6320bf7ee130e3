/** The estimate-driven compactor and its agreement with counted pruning under an additive counter. */
module LegacyPruning {
  import opened Wrappers
  import opened Transcript
  import opened ModelView
  import opened Units
  import opened Pruning
  import opened PruneShape

  /** Framing tokens of an empty request, which the estimate of a message list leaves out. */
  const FRAME_TOKENS: nat := 16

  /** Estimated tokens of some messages alone; the legacy path never projects. */
  function Estimate(m: Measure, ms: seq<Message>): (r: nat)
    ensures r <= WORD_MAX
  {
    SatSub(Min(m.bare(ms), WORD_MAX), FRAME_TOKENS)
  }

  function Estimates(m: Measure, ms: seq<Message>, units: seq<Unit>): (r: seq<nat>)
    ensures |r| == |units|
  {
    seq(|units|, i requires 0 <= i < |units| => Estimate(m, Slice(ms, units[i])))
  }

  /** Remove candidates one by one; the first running estimate within the target decides. */
  function Scan(m: Measure, plan: Plan, costs: seq<nat>, position: nat, remaining: nat, gone: nat)
    : (r: Option<(nat, nat)>)
    requires position <= |plan.candidates|
    ensures r.Some? ==> position < r.value.0 <= |plan.candidates|
    decreases |plan.candidates| - position
  {
    if position == |plan.candidates| then None
    else
      var left := SatSub(remaining, CostOf(plan, costs, position));
      var total := gone + SizeOf(plan, position);
      var after := SatAdd(left, Estimate(m, [Marker(total)]));
      if after <= m.target then Some((position + 1, after)) else Scan(m, plan, costs, position + 1, left, total)
  }

  function LegacyPlan(m: Measure, preserve: nat, ms: seq<Message>): Plan {
    Planned(ms, Estimates(m, ms, UnitsFrom(ms, 0)), preserve)
  }

  function Compact(m: Measure, preserve: nat, ms: seq<Message>): Result<Compaction, Refusal> {
    var before := Count(m, ms);
    if m.target == 0 then Err(NoCapacity)
    else if before <= m.target then Ok(Compaction(ms, before, before, 0))
    else
      var plan := LegacyPlan(m, preserve, ms);
      match Scan(m, plan, Estimates(m, ms, UnitsFrom(ms, 0)), 0, before, 0)
      case None => Err(CannotFit)
      case Some((k, after)) =>
        Ok(Compaction(Without(plan, k), before, after,
                      RemovedCount(plan.units, MarkFirst(|plan.units|, plan.candidates, k))))
  }

  /** The reverse pass with plain addition: the recent total never leaves the machine word. */
  method MarkRecent(m: Measure, preserve: nat, ms: seq<Message>, units: seq<Unit>) returns (mandatory: seq<bool>)
    requires preserve < WORD_MAX
    ensures mandatory == Protect(units, Estimates(m, ms, units), preserve, 0, true, false)
  {
    mandatory := [];
    var recent: nat, retained, closed := 0, false, false;
    ghost var costs := Estimates(m, ms, units);
    ghost var all := Protect(units, costs, preserve, 0, true, false);
    assert units[..|units|] == units && costs[..|units|] == costs;
    for i := |units| downto 0
      invariant recent <= WORD_MAX && (!retained ==> recent == 0)
      invariant all == Protect(units[..i], costs[..i], preserve, recent, !retained, closed) + mandatory
    {
      RecentStep(m, ms, units, i, preserve, recent, retained, closed, mandatory);
      var unit := units[i];
      var cost := Estimate(m, Slice(ms, unit));
      var guarded := !unit.removable || !retained || (!closed && SatAdd(recent, cost) <= preserve);
      if unit.removable {
        if guarded {
          retained := true;
          recent := recent + cost;
        } else {
          closed := true;
        }
      }
      mandatory := [guarded] + mandatory;
    }
    assert units[..0] == [];
  }

  /** The first addition starts from nothing, and a later one is made only when the sum is within the window. */
  lemma RecentStep(
    m: Measure, ms: seq<Message>, units: seq<Unit>, i: nat, preserve: nat,
    recent: nat, retained: bool, closed: bool, done: seq<bool>)
    requires i < |units| && preserve < WORD_MAX && recent <= WORD_MAX && (!retained ==> recent == 0)
    ensures
      var costs, cost := Estimates(m, ms, units), Estimate(m, Slice(ms, units[i]));
      var guarded := !units[i].removable || !retained || (!closed && SatAdd(recent, cost) <= preserve);
      var counted := units[i].removable && guarded;
      var recent' := if counted then recent + cost else recent;
      && recent' <= WORD_MAX
      && Protect(units[..i + 1], costs[..i + 1], preserve, recent, !retained, closed) + done
        == Protect(units[..i], costs[..i], preserve, recent', !(retained || counted), closed || !guarded)
          + ([guarded] + done)
  {
    var costs, cost := Estimates(m, ms, units), Estimate(m, Slice(ms, units[i]));
    assert costs[i] == cost;
    ProtectStep(units, costs, i, preserve, recent, !retained, closed);
    var guarded := !units[i].removable || !retained || (!closed && SatAdd(recent, cost) <= preserve);
    var counted := units[i].removable && guarded;
    var recent' := if counted then recent + cost else recent;
    var older := Protect(units[..i], costs[..i], preserve, recent', !(retained || counted), closed || !guarded);
    Assoc(older, [guarded], done);
  }

  method ScanUnits(m: Measure, plan: Plan, costs: seq<nat>, before: nat) returns (found: Option<(nat, nat)>)
    ensures found == Scan(m, plan, costs, 0, before, 0)
  {
    var remaining, count: nat, position := before, 0, 0;
    while position < |plan.candidates|
      invariant position <= |plan.candidates|
      invariant Scan(m, plan, costs, 0, before, 0) == Scan(m, plan, costs, position, remaining, count)
    {
      count := count + SizeOf(plan, position);
      remaining := SatSub(remaining, CostOf(plan, costs, position));
      position := position + 1;
      var after := SatAdd(remaining, Estimate(m, [Marker(count)]));
      if after <= m.target {
        return Some((position, after));
      }
    }
    found := None;
  }

  method CompactEstimated(
    m: Measure, preserve: nat, messages: seq<Message>) returns (result: Result<Compaction, Refusal>)
    requires preserve < WORD_MAX
    ensures result == Compact(m, preserve, messages)
  {
    var before := Count(m, messages);
    if m.target == 0 {
      return Err(NoCapacity);
    }
    if before <= m.target {
      return Ok(Compaction(messages, before, before, 0));
    }
    var units := MessageUnits(messages);
    var mandatory := MarkRecent(m, preserve, messages, units);
    var plan := Plan(messages, units, Candidates(units, mandatory, 0));
    var found := ScanUnits(m, plan, Estimates(m, messages, units), before);
    if found.None? {
      return Err(CannotFit);
    }
    var removed := MarkFirst(|units|, plan.candidates, found.value.0);
    var rebuilt := RebuildMessages(messages, units, removed);
    result := Ok(Compaction(rebuilt, before, found.value.1, RemovedCount(units, removed)));
  }

  // ----- additive counters -----

  function Sum(cost: Message -> nat, ms: seq<Message>): nat {
    if ms == [] then 0 else cost(ms[0]) + Sum(cost, ms[1..])
  }

  lemma {:induction false} SumConcat(cost: Message -> nat, a: seq<Message>, b: seq<Message>)
    ensures Sum(cost, a + b) == Sum(cost, a) + Sum(cost, b)
  {
    if a == [] {
      assert a + b == b;
    } else {
      assert (a + b)[0] == a[0] && (a + b)[1..] == a[1..] + b;
      SumConcat(cost, a[1..], b);
    }
  }

  /** Per-message costs plus a constant, with tools (`base`) and without. */
  ghost predicate Additive(request: seq<Message> -> nat, bare: seq<Message> -> nat, base: nat, cost: Message -> nat) {
    && (forall ms :: request(ms) == base + Sum(cost, ms))
    && (forall ms :: bare(ms) == FRAME_TOKENS + Sum(cost, ms))
  }

  function RemovedCost(cost: Message -> nat, ms: seq<Message>, units: seq<Unit>, removed: seq<bool>): nat
    requires |units| == |removed|
  {
    if units == [] then 0
    else (if removed[0] then Sum(cost, Slice(ms, units[0])) else 0) + RemovedCost(cost, ms, units[1..], removed[1..])
  }

  /** A full recount of a rebuilt transcript is the old total, less what is gone, plus the marker. */
  lemma {:induction false} RecountIsIncremental(
    cost: Message -> nat, ms: seq<Message>, i: nat, removed: seq<bool>, inserted: bool, count: nat)
    requires i <= |ms| && |removed| == |UnitsFrom(ms, i)|
    ensures
      Sum(cost, RebuildFrom(ms, UnitsFrom(ms, i), removed, inserted, count))
        + RemovedCost(cost, ms, UnitsFrom(ms, i), removed)
      == Sum(cost, ms[i..]) + if !inserted && true in removed then cost(Marker(count)) else 0
    decreases |ms| - i
  {
    if i < |ms| {
      var e := UnitEnd(ms, i);
      UnitsStep(ms, i);
      SumConcat(cost, ms[i..e], ms[e..]);
      assert removed == [removed[0]] + removed[1..];
      var rest := RebuildFrom(ms, UnitsFrom(ms, e), removed[1..], inserted || removed[0], count);
      RecountIsIncremental(cost, ms, e, removed[1..], inserted || removed[0], count);
      if removed[0] {
        var marker := if inserted then [] else [Marker(count)];
        SumConcat(cost, marker, rest);
        assert [Marker(count)][1..] == [];
      } else {
        SumConcat(cost, ms[i..e], rest);
      }
    }
  }

  lemma {:induction false} RemoveOneMore(
    cost: Message -> nat, ms: seq<Message>, units: seq<Unit>, removed: seq<bool>, c: nat)
    requires |units| == |removed| && c < |units| && !removed[c]
    ensures RemovedCost(cost, ms, units, removed[c := true]) ==
      RemovedCost(cost, ms, units, removed) + Sum(cost, Slice(ms, units[c]))
    ensures RemovedCount(units, removed[c := true]) ==
      RemovedCount(units, removed) + SatSub(units[c].end, units[c].start)
  {
    if c > 0 {
      RemoveOneMore(cost, ms, units[1..], removed[1..], c - 1);
      assert removed[c := true][1..] == removed[1..][c - 1 := true];
    } else {
      assert removed[c := true][1..] == removed[1..];
    }
  }

  lemma {:induction false} RemovedNone(cost: Message -> nat, ms: seq<Message>, units: seq<Unit>, removed: seq<bool>)
    requires |units| == |removed| && forall i :: 0 <= i < |removed| ==> !removed[i]
    ensures RemovedCost(cost, ms, units, removed) == 0
  {
    if units != [] {
      RemovedNone(cost, ms, units[1..], removed[1..]);
    }
  }

  lemma {:induction false} RemovedAtMost(cost: Message -> nat, ms: seq<Message>, i: nat, removed: seq<bool>)
    requires i <= |ms| && |removed| == |UnitsFrom(ms, i)|
    ensures RemovedCost(cost, ms, UnitsFrom(ms, i), removed) <= Sum(cost, ms[i..])
    ensures RemovedCount(UnitsFrom(ms, i), removed) <= |ms| - i
    decreases |ms| - i
  {
    if i < |ms| {
      UnitsStep(ms, i);
      SumConcat(cost, ms[i..UnitEnd(ms, i)], ms[UnitEnd(ms, i)..]);
      RemovedAtMost(cost, ms, UnitEnd(ms, i), removed[1..]);
    }
  }

  /** A plan whose candidates are real, distinct, removable units of its transcript. */
  predicate Proper(plan: Plan) {
    && plan.units == UnitsFrom(plan.messages, 0)
    && Ascending(plan.candidates)
    && forall c :: c in plan.candidates ==> c < |plan.units|
  }

  lemma PlannedProper(ms: seq<Message>, costs: seq<nat>, preserve: nat)
    requires |costs| == |UnitsFrom(ms, 0)|
    ensures Proper(Planned(ms, costs, preserve))
  {
    CandidatesExact(UnitsFrom(ms, 0), Protect(UnitsFrom(ms, 0), costs, preserve, 0, true, false), 0);
  }

  function Gone(plan: Plan, k: nat): nat
    requires k <= |plan.candidates|
  {
    RemovedCount(plan.units, MarkFirst(|plan.units|, plan.candidates, k))
  }

  function Saved(cost: Message -> nat, plan: Plan, k: nat): nat
    requires k <= |plan.candidates|
  {
    RemovedCost(cost, plan.messages, plan.units, MarkFirst(|plan.units|, plan.candidates, k))
  }

  lemma OneMoreCandidate(cost: Message -> nat, plan: Plan, k: nat)
    requires Proper(plan) && k < |plan.candidates|
    ensures plan.candidates[k] < |plan.units|
    ensures Gone(plan, k + 1) == Gone(plan, k) + SizeOf(plan, k)
    ensures Saved(cost, plan, k + 1) ==
      Saved(cost, plan, k) + Sum(cost, Slice(plan.messages, plan.units[plan.candidates[k]]))
  {
    var n, cs := |plan.units|, plan.candidates;
    var c := cs[k];
    assert c in cs;
    var removed := MarkFirst(n, cs, k);
    assert cs[..k + 1] == cs[..k] + [c];
    assert !removed[c] by {
      assert forall j :: 0 <= j < k ==> cs[..k][j] == cs[j] < cs[k];
    }
    assert MarkFirst(n, cs, k + 1) == removed[c := true];
    RemoveOneMore(cost, plan.messages, plan.units, removed, c);
  }

  /** What a recount of the transcript without its first k candidates comes to. */
  lemma RecountWithout(cost: Message -> nat, plan: Plan, k: nat)
    requires Proper(plan) && k <= |plan.candidates|
    ensures Saved(cost, plan, k) <= Sum(cost, plan.messages) && Gone(plan, k) <= |plan.messages|
    ensures Sum(cost, Without(plan, k)) + Saved(cost, plan, k)
      == Sum(cost, plan.messages) + if k == 0 then 0 else cost(Marker(Gone(plan, k)))
  {
    var removed := MarkFirst(|plan.units|, plan.candidates, k);
    assert plan.messages[0..] == plan.messages;
    RecountIsIncremental(cost, plan.messages, 0, removed, false, Gone(plan, k));
    RemovedAtMost(cost, plan.messages, 0, removed);
    assert k > 0 <==> true in removed by {
      if k > 0 {
        assert plan.candidates[0] in plan.candidates && plan.candidates[..k][0] == plan.candidates[0];
        assert removed[plan.candidates[0]];
      }
    }
  }

  /** The total after deleting k candidates, as a full recount would give it. */
  function Total(base: nat, cost: Message -> nat, plan: Plan, k: nat): nat
    requires k <= |plan.candidates|
  {
    base + Sum(cost, Without(plan, k))
  }

  /** k is the shortest nonempty prefix of the candidates from `low` on whose removal fits. */
  predicate Shortest(base: nat, cost: Message -> nat, plan: Plan, target: nat, low: nat, k: nat) {
    && low < k <= |plan.candidates|
    && Total(base, cost, plan, k) <= target
    && forall j :: low < j < k ==> Total(base, cost, plan, j) > target
  }

  predicate NoneFit(base: nat, cost: Message -> nat, plan: Plan, target: nat, low: nat) {
    forall j :: low < j <= |plan.candidates| ==> Total(base, cost, plan, j) > target
  }

  /** The counted and the legacy measurements of one additive counter, and room for every total in a word. */
  ghost predicate Setting(m: Measure, base: nat, cost: Message -> nat, plan: Plan, costs: seq<nat>) {
    && Proper(plan)
    && |costs| == |plan.units|
    && (forall i :: 0 <= i < |costs| ==> costs[i] == Sum(cost, Slice(plan.messages, plan.units[i])))
    && InWord(base, cost, plan.messages)
    && |plan.messages| <= WORD_MAX
    && (forall n: nat :: n <= |plan.messages| ==>
          UnitCost(m, [Marker(n)]) == Estimate(m, [Marker(n)]) == cost(Marker(n)))
  }

  predicate InWord(base: nat, cost: Message -> nat, ms: seq<Message>) {
    forall n: nat :: n <= |ms| ==> base + FRAME_TOKENS + Sum(cost, ms) + cost(Marker(n)) <= WORD_MAX
  }

  /** The running estimate after deleting k candidates, marker aside. */
  function Running(base: nat, cost: Message -> nat, plan: Plan, k: nat): nat
    requires k <= |plan.candidates|
  {
    SatSub(base + Sum(cost, plan.messages), Saved(cost, plan, k))
  }

  /** One step of the running totals, in terms of a full recount. */
  lemma StepTotals(m: Measure, base: nat, cost: Message -> nat, plan: Plan, costs: seq<nat>, k: nat)
    requires Setting(m, base, cost, plan, costs) && k < |plan.candidates|
    ensures SatSub(Running(base, cost, plan, k), CostOf(plan, costs, k)) == Running(base, cost, plan, k + 1)
    ensures SatAdd(Gone(plan, k), SizeOf(plan, k)) == Gone(plan, k) + SizeOf(plan, k) == Gone(plan, k + 1)
    ensures
      var running, marker := Running(base, cost, plan, k + 1), [Marker(Gone(plan, k + 1))];
      && SatAdd(running, UnitCost(m, marker)) == Total(base, cost, plan, k + 1)
      && SatAdd(running, Estimate(m, marker)) == Total(base, cost, plan, k + 1)
  {
    OneMoreCandidate(cost, plan, k);
    RecountWithout(cost, plan, k + 1);
    var n := Gone(plan, k + 1);
    assert UnitCost(m, [Marker(n)]) == cost(Marker(n));
  }

  /** The additive first pass finds the shortest prefix that fits, or takes every candidate. */
  lemma {:induction false} FirstGuessIsShortest(
    m: Measure, base: nat, cost: Message -> nat, plan: Plan, costs: seq<nat>, k: nat)
    requires Setting(m, base, cost, plan, costs) && k <= |plan.candidates|
    ensures GuessOutcome(base, cost, plan, m.target, k,
                         FirstGuess(m, plan, costs, k, Running(base, cost, plan, k), Gone(plan, k)))
    decreases |plan.candidates| - k
  {
    var r := FirstGuess(m, plan, costs, k, Running(base, cost, plan, k), Gone(plan, k));
    if k < |plan.candidates| {
      StepTotals(m, base, cost, plan, costs, k);
      if Total(base, cost, plan, k + 1) > m.target {
        FirstGuessIsShortest(m, base, cost, plan, costs, k + 1);
        GuessOutcomeBack(base, cost, plan, m.target, k, r);
      } else {
        assert r == k + 1;
      }
    }
  }

  predicate GuessOutcome(base: nat, cost: Message -> nat, plan: Plan, target: nat, k: nat, r: nat) {
    Shortest(base, cost, plan, target, k, r) || (NoneFit(base, cost, plan, target, k) && r == |plan.candidates|)
  }

  lemma GuessOutcomeBack(base: nat, cost: Message -> nat, plan: Plan, target: nat, k: nat, r: nat)
    requires k < |plan.candidates| && Total(base, cost, plan, k + 1) > target
    requires GuessOutcome(base, cost, plan, target, k + 1, r)
    ensures GuessOutcome(base, cost, plan, target, k, r)
  {}

  predicate ScanOutcome(base: nat, cost: Message -> nat, plan: Plan, target: nat, k: nat, r: Option<(nat, nat)>) {
    match r
    case Some((n, after)) => Shortest(base, cost, plan, target, k, n) && after == Total(base, cost, plan, n)
    case None => NoneFit(base, cost, plan, target, k)
  }

  lemma ScanOutcomeBack(base: nat, cost: Message -> nat, plan: Plan, target: nat, k: nat, r: Option<(nat, nat)>)
    requires k < |plan.candidates| && Total(base, cost, plan, k + 1) > target
    requires ScanOutcome(base, cost, plan, target, k + 1, r)
    ensures ScanOutcome(base, cost, plan, target, k, r)
  {}

  /** The legacy scan finds the same prefix and reports its exact recount. */
  lemma {:induction false} ScanIsShortest(
    m: Measure, base: nat, cost: Message -> nat, plan: Plan, costs: seq<nat>, k: nat)
    requires Setting(m, base, cost, plan, costs) && k <= |plan.candidates|
    ensures ScanOutcome(base, cost, plan, m.target, k,
                        Scan(m, plan, costs, k, Running(base, cost, plan, k), Gone(plan, k)))
    decreases |plan.candidates| - k
  {
    var r := Scan(m, plan, costs, k, Running(base, cost, plan, k), Gone(plan, k));
    if k < |plan.candidates| {
      StepTotals(m, base, cost, plan, costs, k);
      if Total(base, cost, plan, k + 1) > m.target {
        ScanIsShortest(m, base, cost, plan, costs, k + 1);
        ScanOutcomeBack(base, cost, plan, m.target, k, r);
      } else {
        assert r == Some((k + 1, Total(base, cost, plan, k + 1)));
      }
    }
  }

  // ----- no projection effects -----

  lemma UnchangedRebuild(spec: ModelSpec, ms: seq<Message>, removed: seq<bool>)
    requires !Changes(spec, ms) && |removed| == |UnitsFrom(ms, 0)|
    ensures Project(spec, Rebuild(ms, UnitsFrom(ms, 0), removed)) == Rebuild(ms, UnitsFrom(ms, 0), removed)
  {
    RebuildMembers(ms, 0, removed, false, RemovedCount(UnitsFrom(ms, 0), removed));
  }

  /** The measurements of the two paths: pruning projects first, the legacy estimate does not. */
  ghost predicate SameCounter(
    counted: Measure, legacy: Measure, spec: ModelSpec, request: seq<Message> -> nat, bare: seq<Message> -> nat)
  {
    && counted == ProjectedMeasure(spec, request, bare, true, counted.target)
    && legacy == Measure(request, bare, legacy.additive, counted.target)
  }

  /** Without projection effects both paths see the same unit costs. */
  lemma SameCosts(
    counted: Measure, legacy: Measure, spec: ModelSpec, request: seq<Message> -> nat, bare: seq<Message> -> nat,
    base: nat, cost: Message -> nat, ms: seq<Message>)
    requires SameCounter(counted, legacy, spec, request, bare) && Additive(request, bare, base, cost)
    requires !Changes(spec, ms) && InWord(base, cost, ms)
    ensures UnitCosts(counted, ms, UnitsFrom(ms, 0)) == Estimates(legacy, ms, UnitsFrom(ms, 0))
    ensures forall i :: 0 <= i < |UnitsFrom(ms, 0)| ==>
      Estimates(legacy, ms, UnitsFrom(ms, 0))[i] == Sum(cost, Slice(ms, UnitsFrom(ms, 0)[i]))
  {
    var units := UnitsFrom(ms, 0);
    assert InWord(base, cost, ms) ==> base + FRAME_TOKENS + Sum(cost, ms) + cost(Marker(0)) <= WORD_MAX;
    forall i | 0 <= i < |units|
      ensures UnitCost(counted, Slice(ms, units[i])) == Estimate(legacy, Slice(ms, units[i]))
        == Sum(cost, Slice(ms, units[i]))
    {
      SliceSum(cost, ms, units[i]);
      SameCost(counted, legacy, spec, request, bare, base, cost, Slice(ms, units[i]));
    }
  }

  lemma SameCost(
    counted: Measure, legacy: Measure, spec: ModelSpec, request: seq<Message> -> nat, bare: seq<Message> -> nat,
    base: nat, cost: Message -> nat, s: seq<Message>)
    requires SameCounter(counted, legacy, spec, request, bare) && Additive(request, bare, base, cost)
    requires !Changes(spec, s) && FRAME_TOKENS + Sum(cost, s) <= WORD_MAX
    ensures UnitCost(counted, s) == Estimate(legacy, s) == Sum(cost, s)
  {
    assert Project(spec, s) == s && Project(spec, []) == [];
    assert bare(s) == FRAME_TOKENS + Sum(cost, s) && bare([]) == FRAME_TOKENS + Sum(cost, []);
  }

  lemma SliceSum(cost: Message -> nat, ms: seq<Message>, u: Unit)
    ensures Sum(cost, Slice(ms, u)) <= Sum(cost, ms)
  {
    if u.start <= u.end <= |ms| {
      SumConcat(cost, ms[..u.start], ms[u.start..u.end]);
      SumConcat(cost, ms[..u.end], ms[u.end..]);
      assert ms[..u.start] + ms[u.start..u.end] == ms[..u.end];
      assert ms[..u.end] + ms[u.end..] == ms;
    }
  }

  /** A recount of every prefix removal is its additive total, clipped to the machine word. */
  predicate CountsTotals(m: Measure, base: nat, cost: Message -> nat, plan: Plan) {
    forall k :: 0 <= k <= |plan.candidates| ==> Count(m, Without(plan, k)) == Min(Total(base, cost, plan, k), WORD_MAX)
  }

  lemma SearchSettles(m: Measure, base: nat, cost: Message -> nat, plan: Plan, before: nat, r: nat)
    requires r <= |plan.candidates| && CountsTotals(m, base, cost, plan)
    requires m.target < before <= WORD_MAX
    requires
      || Shortest(base, cost, plan, m.target, 0, r)
      || (NoneFit(base, cost, plan, m.target, 0) && r == |plan.candidates|)
    requires Total(base, cost, plan, 0) == before
    ensures Search(m, plan, before, r) == if Shortest(base, cost, plan, m.target, 0, r) then Some(r) else None
  {
    assert Count(m, Without(plan, r)) == Min(Total(base, cost, plan, r), WORD_MAX);
  }

  lemma PrefixCounts(
    m: Measure, spec: ModelSpec, request: seq<Message> -> nat, bare: seq<Message> -> nat,
    base: nat, cost: Message -> nat, plan: Plan)
    requires m == ProjectedMeasure(spec, request, bare, true, m.target) && Additive(request, bare, base, cost)
    requires !Changes(spec, plan.messages) && Proper(plan)
    ensures CountsTotals(m, base, cost, plan)
  {
    forall k | 0 <= k <= |plan.candidates|
      ensures Count(m, Without(plan, k)) == Min(Total(base, cost, plan, k), WORD_MAX)
    {
      UnchangedRebuild(spec, plan.messages, MarkFirst(|plan.units|, plan.candidates, k));
    }
  }

  /** The counted search, after its first pass, settles on the shortest prefix that fits. */
  lemma ChosenIsShortest(
    m: Measure, base: nat, cost: Message -> nat, preserve: nat, ms: seq<Message>, plan: Plan, costs: seq<nat>)
    requires m.additive && plan == PlanFor(m, preserve, ms) && costs == UnitCosts(m, ms, UnitsFrom(ms, 0))
    requires Setting(m, base, cost, plan, costs) && CountsTotals(m, base, cost, plan)
    requires Count(m, ms) == base + Sum(cost, ms) > m.target
    ensures
      match Chosen(m, preserve, ms)
      case Some(k) => Shortest(base, cost, plan, m.target, 0, k)
      case None => NoneFit(base, cost, plan, m.target, 0)
  {
    NothingGone(cost, plan);
    RecountWithout(cost, plan, 0);
    FirstGuessIsShortest(m, base, cost, plan, costs, 0);
    SearchSettles(m, base, cost, plan, Count(m, ms), StartOf(m, plan, costs, Count(m, ms)));
  }

  lemma ShortestUnique(base: nat, cost: Message -> nat, plan: Plan, target: nat, a: nat, b: nat)
    requires Shortest(base, cost, plan, target, 0, a) && Shortest(base, cost, plan, target, 0, b)
    ensures a == b
  {}

  /**
   With one additive counter, no projection effects and one target, the two compactors agree: the same
   messages, the same counts and the same refusals. When something is removed, it is the shortest
   nonempty run of the oldest candidates that fits, and the incremental total is a full recount.
   */
  lemma CompactorsAgree(
    counted: Measure, legacy: Measure, spec: ModelSpec, request: seq<Message> -> nat, bare: seq<Message> -> nat,
    base: nat, cost: Message -> nat, preserve: nat, ms: seq<Message>)
    requires SameCounter(counted, legacy, spec, request, bare) && Additive(request, bare, base, cost)
    requires !Changes(spec, ms) && InWord(base, cost, ms) && |ms| <= WORD_MAX
    ensures Compact(legacy, preserve, ms) == Prune(counted, preserve, ms)
    ensures Count(counted, ms) > counted.target > 0 ==>
      var plan := PlanFor(counted, preserve, ms);
      match Prune(counted, preserve, ms)
      case Ok(c) => exists k :: Shortest(base, cost, plan, counted.target, 0, k) && c.messages == Without(plan, k)
                                && c.after == Total(base, cost, plan, k)
      case Err(_) => NoneFit(base, cost, plan, counted.target, 0)
  {
    SameTotals(counted, legacy, spec, request, bare, base, cost, ms);
    if Count(counted, ms) > counted.target > 0 {
      var plan, costs := PlanFor(counted, preserve, ms), UnitCosts(counted, ms, UnitsFrom(ms, 0));
      SharedSetting(counted, legacy, spec, request, bare, base, cost, preserve, ms);
      ChosenIsShortest(counted, base, cost, preserve, ms, plan, costs);
      NothingGone(cost, plan);
      ScanIsShortest(legacy, base, cost, plan, costs, 0);
      AgreeFromChoice(counted, legacy, base, cost, preserve, ms, plan, costs);
    }
  }

  lemma SameTotals(
    counted: Measure, legacy: Measure, spec: ModelSpec, request: seq<Message> -> nat, bare: seq<Message> -> nat,
    base: nat, cost: Message -> nat, ms: seq<Message>)
    requires SameCounter(counted, legacy, spec, request, bare) && Additive(request, bare, base, cost)
    requires !Changes(spec, ms) && InWord(base, cost, ms)
    ensures Count(counted, ms) == Count(legacy, ms) == base + Sum(cost, ms)
  {
    assert base + FRAME_TOKENS + Sum(cost, ms) + cost(Marker(0)) <= WORD_MAX;
    assert Project(spec, ms) == ms;
  }

  /** Both compactors work on one plan, at the costs the additive counter gives. */
  lemma SharedSetting(
    counted: Measure, legacy: Measure, spec: ModelSpec, request: seq<Message> -> nat, bare: seq<Message> -> nat,
    base: nat, cost: Message -> nat, preserve: nat, ms: seq<Message>)
    requires SameCounter(counted, legacy, spec, request, bare) && Additive(request, bare, base, cost)
    requires !Changes(spec, ms) && InWord(base, cost, ms) && |ms| <= WORD_MAX
    ensures
      var plan, costs := PlanFor(counted, preserve, ms), UnitCosts(counted, ms, UnitsFrom(ms, 0));
      && plan == LegacyPlan(legacy, preserve, ms) && costs == Estimates(legacy, ms, UnitsFrom(ms, 0))
      && CountsTotals(counted, base, cost, plan)
      && Setting(counted, base, cost, plan, costs) && Setting(legacy, base, cost, plan, costs)
  {
    var plan, costs := PlanFor(counted, preserve, ms), UnitCosts(counted, ms, UnitsFrom(ms, 0));
    SameCosts(counted, legacy, spec, request, bare, base, cost, ms);
    PlannedProper(ms, costs, preserve);
    PrefixCounts(counted, spec, request, bare, base, cost, plan);
    MarkerCosts(counted, legacy, spec, request, bare, base, cost, ms);
  }

  lemma MarkerCosts(
    counted: Measure, legacy: Measure, spec: ModelSpec, request: seq<Message> -> nat, bare: seq<Message> -> nat,
    base: nat, cost: Message -> nat, ms: seq<Message>)
    requires SameCounter(counted, legacy, spec, request, bare) && Additive(request, bare, base, cost)
    requires InWord(base, cost, ms)
    ensures forall n: nat :: n <= |ms| ==>
      && UnitCost(counted, [Marker(n)]) == Estimate(counted, [Marker(n)]) == cost(Marker(n))
      && UnitCost(legacy, [Marker(n)]) == Estimate(legacy, [Marker(n)]) == cost(Marker(n))
  {
    forall n: nat | n <= |ms|
      ensures UnitCost(counted, [Marker(n)]) == Estimate(counted, [Marker(n)]) == cost(Marker(n))
      ensures UnitCost(legacy, [Marker(n)]) == Estimate(legacy, [Marker(n)]) == cost(Marker(n))
    {
      assert base + FRAME_TOKENS + Sum(cost, ms) + cost(Marker(n)) <= WORD_MAX;
      assert [Marker(n)][1..] == [];
      assert Project(spec, [Marker(n)]) == [Marker(n)];
      assert bare([]) == FRAME_TOKENS + Sum(cost, []);
      assert Project(spec, []) == [];
      assert counted.bare([]) == FRAME_TOKENS;
      assert counted.bare([Marker(n)]) == bare([Marker(n)]) == FRAME_TOKENS + cost(Marker(n));
    }
  }

  lemma AgreeFromChoice(
    counted: Measure, legacy: Measure, base: nat, cost: Message -> nat, preserve: nat, ms: seq<Message>,
    plan: Plan, costs: seq<nat>)
    requires plan == PlanFor(counted, preserve, ms) == LegacyPlan(legacy, preserve, ms)
    requires costs == Estimates(legacy, ms, UnitsFrom(ms, 0))
    requires CountsTotals(counted, base, cost, plan) && counted.target == legacy.target
    requires Count(counted, ms) == Count(legacy, ms) > counted.target > 0
    requires
      match Chosen(counted, preserve, ms)
      case Some(k) => Shortest(base, cost, plan, counted.target, 0, k)
      case None => NoneFit(base, cost, plan, counted.target, 0)
    requires ScanOutcome(base, cost, plan, legacy.target, 0, Scan(legacy, plan, costs, 0, Count(legacy, ms), 0))
    ensures Compact(legacy, preserve, ms) == Prune(counted, preserve, ms)
    ensures
      match Prune(counted, preserve, ms)
      case Ok(c) => exists k :: Shortest(base, cost, plan, counted.target, 0, k) && c.messages == Without(plan, k)
                                && c.after == Total(base, cost, plan, k)
      case Err(_) => NoneFit(base, cost, plan, counted.target, 0)
  {
    var scanned := Scan(legacy, plan, costs, 0, Count(legacy, ms), 0);
    match Chosen(counted, preserve, ms)
    case None =>
    case Some(k) =>
      assert Count(counted, Without(plan, k)) == Min(Total(base, cost, plan, k), WORD_MAX);
      if scanned.Some? {
        ShortestUnique(base, cost, plan, counted.target, k, scanned.value.0);
      }
  }

  lemma NothingGone(cost: Message -> nat, plan: Plan)
    ensures Gone(plan, 0) == 0 && Saved(cost, plan, 0) == 0
  {
    var removed := MarkFirst(|plan.units|, plan.candidates, 0);
    NoneCounted(plan.units, removed);
    RemovedNone(cost, plan.messages, plan.units, removed);
  }
}
