/** The recent window in tokens, the order in which pruning tries, and the pruned transcript message by message. */
module PruneWindow {
  import opened Wrappers
  import opened Transcript
  import opened Units
  import opened Pruning
  import opened PruneShape

  // ----- the recent window -----

  /** Tokens of one unit measured alone: without tools, less what an empty request costs, as a machine word. */
  function Tokens(m: Measure, ms: seq<Message>, u: Unit): nat
    requires u.start <= u.end <= |ms|
  {
    Min(SatSub(m.bare(ms[u.start..u.end]), m.bare([])), WORD_MAX)
  }

  /** The costs of the removable units from number `i` on, up to number `n`. */
  function CostBetween(units: seq<Unit>, costs: seq<nat>, i: nat, n: nat): nat
    requires |units| == |costs| && n <= |units|
  {
    if n <= i then 0 else CostBetween(units, costs, i, n - 1) + if units[n - 1].removable then costs[n - 1] else 0
  }

  /** The newest removable unit among the first `n`. */
  predicate NewestOf(units: seq<Unit>, n: nat, i: nat)
    requires i < n <= |units|
  {
    units[i].removable && forall j :: i < j < n ==> !units[j].removable
  }

  predicate Words(costs: seq<nat>) {
    forall c <- costs :: c <= WORD_MAX
  }

  /** The reverse pass, in closed form: how many tokens lie between a unit and the newest one decides. */
  lemma {:induction false} ProtectIff(
    units: seq<Unit>, costs: seq<nat>, preserve: nat, recent: nat, newest: bool, closed: bool, n: nat, i: nat)
    requires |units| == |costs| && Words(costs) && recent <= WORD_MAX && i < n <= |units|
    ensures
      var guarded := Protect(units[..n], costs[..n], preserve, recent, newest, closed)[i];
      guarded <==>
        || !units[i].removable
        || (newest && NewestOf(units, n, i))
        || (!closed && Min(recent + CostBetween(units, costs, i, n), WORD_MAX) <= preserve)
    decreases n
  {
    var last := n - 1;
    ProtectStep(units, costs, last, preserve, recent, newest, closed);
    assert costs[last] in costs;
    CostBetweenGrows(units, costs, i, last);
    var fits := newest || (!closed && SatAdd(recent, costs[last]) <= preserve);
    if i < last {
      if !units[last].removable {
        ProtectIff(units, costs, preserve, recent, newest, closed, last, i);
      } else if fits {
        ProtectIff(units, costs, preserve, SatAdd(recent, costs[last]), false, closed, last, i);
      } else {
        ProtectIff(units, costs, preserve, recent, newest, true, last, i);
      }
    } else {
      assert CostBetween(units, costs, i, i) == 0;
    }
  }

  lemma CostBetweenGrows(units: seq<Unit>, costs: seq<nat>, i: nat, n: nat)
    requires |units| == |costs| && n < |units|
    ensures i <= n ==>
      CostBetween(units, costs, i, n + 1) ==
        CostBetween(units, costs, i, n) + if units[n].removable then costs[n] else 0
  {}

  /** The tokens of the removable units from number `i` on. */
  function TokensFrom(m: Measure, ms: seq<Message>, units: seq<Unit>, i: nat): nat
    requires forall u <- units :: u.start <= u.end <= |ms|
    decreases |units| - i
  {
    if i >= |units| then 0
    else (if units[i].removable then Tokens(m, ms, units[i]) else 0) + TokensFrom(m, ms, units, i + 1)
  }

  lemma {:induction false} UnitRanges(ms: seq<Message>, i: nat)
    requires i <= |ms|
    ensures forall u <- UnitsFrom(ms, i) :: i <= u.start < u.end <= |ms|
    decreases |ms| - i
  {
    if i < |ms| {
      UnitsStep(ms, i);
      UnitRanges(ms, UnitEnd(ms, i));
      assert UnitsFrom(ms, i) == [UnitsFrom(ms, i)[0]] + UnitsFrom(ms, UnitEnd(ms, i));
    }
  }

  lemma {:induction false} CostBetweenFront(units: seq<Unit>, costs: seq<nat>, i: nat, n: nat)
    requires |units| == |costs| && i < n <= |units|
    ensures CostBetween(units, costs, i, n) ==
      (if units[i].removable then costs[i] else 0) + CostBetween(units, costs, i + 1, n)
    decreases n
  {
    if i + 1 < n {
      CostBetweenFront(units, costs, i, n - 1);
    }
  }

  lemma {:induction false} TokensAreCosts(m: Measure, ms: seq<Message>, units: seq<Unit>, i: nat)
    requires (forall u <- units :: u.start <= u.end <= |ms|) && i <= |units|
    ensures TokensFrom(m, ms, units, i) == CostBetween(units, UnitCosts(m, ms, units), i, |units|)
    decreases |units| - i
  {
    if i < |units| {
      TokensAreCosts(m, ms, units, i + 1);
      CostBetweenFront(units, UnitCosts(m, ms, units), i, |units|);
      assert units[i] in units;
    }
  }

  /** Whether pruning may remove unit `i`: it is not the newest, and the window does not reach back to it. */
  predicate OutsideWindow(m: Measure, preserve: nat, ms: seq<Message>, units: seq<Unit>, i: nat)
    requires forall u <- units :: u.start <= u.end <= |ms|
  {
    && i < |units| && units[i].removable
    && (exists j :: i < j < |units| && units[j].removable)
    && Min(TokensFrom(m, ms, units, i), WORD_MAX) > preserve
  }

  /**
   * The candidates are exactly the units outside the recent window, oldest first: everything but the newest
   * removable unit from which the removable units to the end measure more tokens than are to be preserved.
   */
  lemma CandidatesIff(m: Measure, preserve: nat, ms: seq<Message>)
    ensures
      var units, candidates := UnitsFrom(ms, 0), PlanFor(m, preserve, ms).candidates;
      && (forall u <- units :: u.start <= u.end <= |ms|)
      && Ascending(candidates)
      && forall i: nat :: i in candidates <==> OutsideWindow(m, preserve, ms, units, i)
  {
    var units := UnitsFrom(ms, 0);
    UnitRanges(ms, 0);
    CandidatesExact(units, Protect(units, UnitCosts(m, ms, units), preserve, 0, true, false), 0);
    forall i: nat ensures i in PlanFor(m, preserve, ms).candidates <==> OutsideWindow(m, preserve, ms, units, i) {
      CandidateIff(m, preserve, ms, units, i);
    }
  }

  lemma CandidateIff(m: Measure, preserve: nat, ms: seq<Message>, units: seq<Unit>, i: nat)
    requires (forall u <- units :: u.start <= u.end <= |ms|) && units == UnitsFrom(ms, 0)
    ensures i in PlanFor(m, preserve, ms).candidates <==> OutsideWindow(m, preserve, ms, units, i)
  {
    Planning(m, preserve, ms, i);
    if i < |units| {
      UnguardedIff(m, preserve, ms, units, i);
    }
  }

  lemma Planning(m: Measure, preserve: nat, ms: seq<Message>, i: nat)
    ensures
      var units := UnitsFrom(ms, 0);
      i in PlanFor(m, preserve, ms).candidates <==>
        && i < |units| && units[i].removable
        && !Protect(units, UnitCosts(m, ms, units), preserve, 0, true, false)[i]
  {
    var units := UnitsFrom(ms, 0);
    CandidatesExact(units, Protect(units, UnitCosts(m, ms, units), preserve, 0, true, false), 0);
  }

  lemma CostsAreWords(m: Measure, ms: seq<Message>, units: seq<Unit>)
    ensures Words(UnitCosts(m, ms, units))
  {
    var costs := UnitCosts(m, ms, units);
    forall c <- costs ensures c <= WORD_MAX {
      var k :| 0 <= k < |costs| && costs[k] == c;
    }
  }

  lemma UnguardedIff(m: Measure, preserve: nat, ms: seq<Message>, units: seq<Unit>, i: nat)
    requires (forall u <- units :: u.start <= u.end <= |ms|) && i < |units|
    ensures
      var guarded := Protect(units, UnitCosts(m, ms, units), preserve, 0, true, false);
      units[i].removable && !guarded[i] <==> OutsideWindow(m, preserve, ms, units, i)
  {
    var costs := UnitCosts(m, ms, units);
    assert units[..|units|] == units && costs[..|units|] == costs;
    CostsAreWords(m, ms, units);
    ProtectIff(units, costs, preserve, 0, true, false, |units|, i);
    TokensAreCosts(m, ms, units, i);
  }

  lemma BeyondWindow(m: Measure, preserve: nat, ms: seq<Message>, units: seq<Unit>, i: nat)
    requires forall u <- units :: u.start <= u.end <= |ms|
    ensures OutsideWindow(m, preserve, ms, units, i) ==> TokensFrom(m, ms, units, i) > preserve
  {}

  /** Pruning removes only units outside the recent window. */
  lemma PruneSparesRecent(m: Measure, preserve: nat, ms: seq<Message>) returns (removed: seq<bool>, cut: nat)
    requires Prune(m, preserve, ms).Ok?
    ensures PrunedAt(ms, Prune(m, preserve, ms).value, removed, cut)
    ensures forall u <- UnitsFrom(ms, 0) :: u.start <= u.end <= |ms|
    ensures forall i :: 0 <= i < |removed| && removed[i] ==> OutsideWindow(m, preserve, ms, UnitsFrom(ms, 0), i)
    ensures forall i :: 0 <= i < |removed| && removed[i] ==> TokensFrom(m, ms, UnitsFrom(ms, 0), i) > preserve
  {
    removed, cut := PruneKeepsSuffix(m, preserve, ms);
    RemovedOutside(m, preserve, ms, removed);
  }

  lemma RemovedOutside(m: Measure, preserve: nat, ms: seq<Message>, removed: seq<bool>)
    requires forall i :: 0 <= i < |removed| && removed[i] ==> i in PlanFor(m, preserve, ms).candidates
    ensures forall u <- UnitsFrom(ms, 0) :: u.start <= u.end <= |ms|
    ensures forall i :: 0 <= i < |removed| && removed[i] ==> OutsideWindow(m, preserve, ms, UnitsFrom(ms, 0), i)
    ensures forall i :: 0 <= i < |removed| && removed[i] ==> TokensFrom(m, ms, UnitsFrom(ms, 0), i) > preserve
  {
    var units := UnitsFrom(ms, 0);
    CandidatesIff(m, preserve, ms);
    forall i | 0 <= i < |removed| && removed[i]
      ensures OutsideWindow(m, preserve, ms, units, i) && TokensFrom(m, ms, units, i) > preserve
    {
      BeyondWindow(m, preserve, ms, units, i);
    }
  }

  // ----- the order in which pruning tries -----

  /** What is left of `a` after it was halved `i` times. */
  function Halved(a: nat, i: nat): (r: nat)
    ensures r <= a
    decreases i
  {
    if i == 0 then a else Halved(a / 2, i - 1)
  }

  /** How many of `n` candidates are gone at the `i`-th recount: what is left after `start` is halved each time. */
  function Trial(n: nat, start: nat, i: nat): (r: nat)
    requires start <= n
    ensures start <= r <= n
  {
    n - Halved(n - start, i)
  }

  /** The counted search settles on the first recount that fits, and refuses when not even the last one does. */
  lemma {:induction false} SearchIsFirst(m: Measure, plan: Plan, before: nat, start: nat) returns (i: nat)
    requires start <= |plan.candidates|
    ensures SettlesOn(m, plan, before, start, Search(m, plan, before, start), i)
    decreases |plan.candidates| - start
  {
    var n := |plan.candidates|;
    assert Trial(n, start, 0) == start;
    if Fits(m, plan, before, start) {
      i := 0;
    } else if start == n {
      i := 0;
    } else {
      i := SearchIsFirst(m, plan, before, Halfway(n, start));
      assert forall j: nat :: Trial(n, Halfway(n, start), j) == Trial(n, start, j + 1);
      i := i + 1;
      forall j: nat | j < i || Search(m, plan, before, start).None?
        ensures !Fits(m, plan, before, Trial(n, start, j))
      {
        assert j > 0 ==> Trial(n, start, j) == Trial(n, Halfway(n, start), j - 1);
      }
    }
  }

  /** A plan whose candidates are units, and whose units are parts of the transcript. */
  predicate Sensible(ms: seq<Message>, plan: Plan) {
    && (forall k :: 0 <= k < |plan.candidates| ==> plan.candidates[k] < |plan.units|)
    && forall i :: 0 <= i < |plan.units| ==> plan.units[i].start <= plan.units[i].end <= |ms|
  }

  function Candidate(ms: seq<Message>, plan: Plan, k: nat): (u: Unit)
    requires Sensible(ms, plan) && k < |plan.candidates|
    ensures u.start <= u.end <= |ms|
  {
    plan.units[plan.candidates[k]]
  }

  /** Tokens of the `k` oldest candidates. */
  function TokensOfFirst(m: Measure, ms: seq<Message>, plan: Plan, k: nat): nat
    requires Sensible(ms, plan) && k <= |plan.candidates|
  {
    if k == 0 then 0
    else TokensOfFirst(m, ms, plan, k - 1) + Tokens(m, ms, Candidate(ms, plan, k - 1))
  }

  /** Messages in the `k` oldest candidates. */
  function SizeOfFirst(ms: seq<Message>, plan: Plan, k: nat): nat
    requires Sensible(ms, plan) && k <= |plan.candidates|
  {
    if k == 0 then 0
    else
      var u := Candidate(ms, plan, k - 1);
      SizeOfFirst(ms, plan, k - 1) + (u.end - u.start)
  }

  /** The estimate of an additive counter: what was counted, less the first `k` candidates, plus their marker. */
  function Guessed(m: Measure, ms: seq<Message>, plan: Plan, before: nat, k: nat): nat
    requires Sensible(ms, plan) && k <= |plan.candidates|
  {
    var marker := [Marker(Min(SizeOfFirst(ms, plan, k), WORD_MAX))];
    Min(SatSub(before, TokensOfFirst(m, ms, plan, k)) + Min(SatSub(m.bare(marker), m.bare([])), WORD_MAX), WORD_MAX)
  }

  function GuessFrom(m: Measure, ms: seq<Message>, plan: Plan, before: nat, k: nat): nat
    requires Sensible(ms, plan) && k <= |plan.candidates|
  {
    FirstGuess(m, plan, UnitCosts(m, ms, plan.units), k,
               SatSub(before, TokensOfFirst(m, ms, plan, k)), Min(SizeOfFirst(ms, plan, k), WORD_MAX))
  }

  lemma CandidateCosts(m: Measure, ms: seq<Message>, plan: Plan, k: nat)
    requires Sensible(ms, plan) && k < |plan.candidates|
    ensures CostOf(plan, UnitCosts(m, ms, plan.units), k) == Tokens(m, ms, Candidate(ms, plan, k))
    ensures SizeOf(plan, k) == Candidate(ms, plan, k).end - Candidate(ms, plan, k).start
  {
    var c := plan.candidates[k];
    assert UnitCosts(m, ms, plan.units)[c] == Tokens(m, ms, Candidate(ms, plan, k));
  }

  lemma GuessStep(m: Measure, ms: seq<Message>, plan: Plan, before: nat, k: nat)
    requires Sensible(ms, plan) && k < |plan.candidates|
    ensures GuessFrom(m, ms, plan, before, k) ==
      if Guessed(m, ms, plan, before, k + 1) <= m.target then k + 1 else GuessFrom(m, ms, plan, before, k + 1)
  {
    var left, gone := SatSub(before, TokensOfFirst(m, ms, plan, k)), Min(SizeOfFirst(ms, plan, k), WORD_MAX);
    CandidateCosts(m, ms, plan, k);
    GuessUnfold(m, plan, UnitCosts(m, ms, plan.units), k, left, gone);
    assert SatSub(left, Tokens(m, ms, Candidate(ms, plan, k))) == SatSub(before, TokensOfFirst(m, ms, plan, k + 1));
    assert SatAdd(gone, SizeOf(plan, k)) == Min(SizeOfFirst(ms, plan, k + 1), WORD_MAX);
  }

  /** The first number after `k` whose estimate fits, or all the candidates. */
  predicate FirstAfter(m: Measure, ms: seq<Message>, plan: Plan, before: nat, k: nat, r: nat)
    requires Sensible(ms, plan)
  {
    && k <= r <= |plan.candidates| && (k < |plan.candidates| ==> k < r)
    && (r == |plan.candidates| || Guessed(m, ms, plan, before, r) <= m.target)
    && forall j :: k < j < r ==> Guessed(m, ms, plan, before, j) > m.target
  }

  /** What the first pass answers from `k` on; under a quantifier, so that it is unfolded only on request. */
  ghost predicate Guesses(m: Measure, ms: seq<Message>, plan: Plan, before: nat, k: nat, r: nat)
    requires Sensible(ms, plan)
  {
    forall j: nat :: j == k && j <= |plan.candidates| ==> r == GuessFrom(m, ms, plan, before, j)
  }

  lemma FirstAfterStep(m: Measure, ms: seq<Message>, plan: Plan, before: nat, k: nat, r: nat, later: nat)
    requires Sensible(ms, plan) && k < |plan.candidates|
    requires r == if Guessed(m, ms, plan, before, k + 1) <= m.target then k + 1 else later
    requires FirstAfter(m, ms, plan, before, k + 1, later)
    ensures FirstAfter(m, ms, plan, before, k, r)
  {}

  /** The additive first pass stops at the first number of candidates whose estimate fits, or at all of them. */
  lemma {:induction false} GuessIsFirst(m: Measure, ms: seq<Message>, plan: Plan, before: nat, k: nat) returns (r: nat)
    requires Sensible(ms, plan) && k <= |plan.candidates|
    ensures Guesses(m, ms, plan, before, k, r) && FirstAfter(m, ms, plan, before, k, r)
    decreases |plan.candidates| - k
  {
    if k < |plan.candidates| {
      var later := GuessIsFirst(m, ms, plan, before, k + 1);
      r := GuessBack(m, ms, plan, before, k, later);
    } else {
      r := k;
    }
  }

  lemma GuessBack(m: Measure, ms: seq<Message>, plan: Plan, before: nat, k: nat, later: nat) returns (r: nat)
    requires Sensible(ms, plan) && k < |plan.candidates|
    requires Guesses(m, ms, plan, before, k + 1, later) && FirstAfter(m, ms, plan, before, k + 1, later)
    ensures Guesses(m, ms, plan, before, k, r) && FirstAfter(m, ms, plan, before, k, r)
  {
    r := GuessNext(m, ms, plan, before, k, later);
    FirstAfterStep(m, ms, plan, before, k, r, later);
  }

  lemma GuessNext(m: Measure, ms: seq<Message>, plan: Plan, before: nat, k: nat, later: nat) returns (r: nat)
    requires Sensible(ms, plan) && k < |plan.candidates| && Guesses(m, ms, plan, before, k + 1, later)
    ensures Guesses(m, ms, plan, before, k, r)
    ensures r == if Guessed(m, ms, plan, before, k + 1) <= m.target then k + 1 else later
  {
    GuessStep(m, ms, plan, before, k);
    r := GuessFrom(m, ms, plan, before, k);
  }

  lemma PlanSensible(m: Measure, preserve: nat, ms: seq<Message>)
    ensures Sensible(ms, PlanFor(m, preserve, ms))
  {
    var plan := PlanFor(m, preserve, ms);
    UnitRanges(ms, 0);
    forall k | 0 <= k < |plan.candidates| ensures plan.candidates[k] < |plan.units| {
      Planning(m, preserve, ms, plan.candidates[k]);
    }
    forall i | 0 <= i < |plan.units| ensures plan.units[i].start <= plan.units[i].end <= |ms| {
      assert plan.units[i] in plan.units;
    }
  }

  /** Where the search starts: with the first estimate that fits if the counter is additive, else with one candidate. */
  predicate StartsAt(m: Measure, ms: seq<Message>, plan: Plan, before: nat, start: nat)
    requires Sensible(ms, plan)
  {
    if plan.candidates == [] then start == 0
    else if m.additive then FirstAfter(m, ms, plan, before, 0, start)
    else start == 1
  }

  /** What the search settles on: the first trial whose recount fits, or nothing when none does. */
  ghost predicate SettlesOn(m: Measure, plan: Plan, before: nat, start: nat, found: Option<nat>, i: nat)
    requires start <= |plan.candidates|
  {
    var n := |plan.candidates|;
    if found.Some? then
      && found.value == Trial(n, start, i) && Fits(m, plan, before, Trial(n, start, i))
      && forall j: nat :: j < i ==> !Fits(m, plan, before, Trial(n, start, j))
    else forall j: nat :: !Fits(m, plan, before, Trial(n, start, j))
  }

  lemma StartIs(m: Measure, ms: seq<Message>, plan: Plan, before: nat)
    requires Sensible(ms, plan)
    ensures StartsAt(m, ms, plan, before, StartOf(m, plan, UnitCosts(m, ms, plan.units), before))
  {
    var start := GuessIsFirst(m, ms, plan, before, 0);
    assert start == GuessFrom(m, ms, plan, before, 0);
  }

  /**
   * How many candidates pruning removes. An additive counter guesses first, any other starts with one; then what is
   * left is halved until a recount fits, and pruning refuses when the recount without any candidate does not.
   */
  lemma PruneTries(m: Measure, preserve: nat, ms: seq<Message>) returns (start: nat, i: nat)
    ensures
      var plan := PlanFor(m, preserve, ms);
      && Sensible(ms, plan) && StartsAt(m, ms, plan, Count(m, ms), start)
      && SettlesOn(m, plan, Count(m, ms), start, Chosen(m, preserve, ms), i)
  {
    var plan := PlanFor(m, preserve, ms);
    PlanSensible(m, preserve, ms);
    StartIs(m, ms, plan, Count(m, ms));
    start := StartOf(m, plan, UnitCosts(m, ms, UnitsFrom(ms, 0)), Count(m, ms));
    i := SearchIsFirst(m, plan, Count(m, ms), start);
  }

  // ----- the pruned transcript -----

  /** Where unit number `cut` of the units of `ms[i..]` begins. */
  function Boundary(ms: seq<Message>, i: nat, cut: nat): (p: nat)
    requires i <= |ms|
    ensures i <= p <= |ms|
    decreases |ms| - i
  {
    if i == |ms| || cut == 0 then i else Boundary(ms, UnitEnd(ms, i), cut - 1)
  }

  /** The first message from `i` on that is not a system message. */
  function FirstOther(ms: seq<Message>, i: nat): (a: nat)
    requires i <= |ms|
    ensures i <= a <= |ms| && (a < |ms| ==> ms[a].role != System)
    ensures forall k :: i <= k < a ==> ms[k].role == System
    decreases |ms| - i
  {
    if i == |ms| || ms[i].role != System then i else FirstOther(ms, i + 1)
  }

  lemma OldestRest(units: seq<Unit>, removed: seq<bool>, cut: nat)
    requires OldestUpTo(units, removed, cut) && units != [] && cut > 0
    ensures OldestUpTo(units[1..], removed[1..], cut - 1) && (removed[0] <==> units[0].removable)
    ensures true in removed <==> removed[0] || true in removed[1..]
  {
    assert removed == [removed[0]] + removed[1..];
  }

  lemma SystemUnit(ms: seq<Message>, i: nat)
    requires i < |ms|
    ensures SystemMessages(ms[i..UnitEnd(ms, i)]) == if ms[i].role == System then [ms[i]] else []
    ensures ms[i].role == System ==> UnitEnd(ms, i) == i + 1
  {
    UnitSystem(ms, i);
  }

  /** Behind the marker, only system messages are left up to the cut, and everything from it on. */
  lemma {:induction false} BehindMarker(ms: seq<Message>, i: nat, removed: seq<bool>, cut: nat, count: nat)
    requires i <= |ms| && OldestUpTo(UnitsFrom(ms, i), removed, cut)
    ensures
      var p := Boundary(ms, i, cut);
      RebuildFrom(ms, UnitsFrom(ms, i), removed, true, count) == SystemMessages(ms[i..p]) + ms[p..]
    decreases |ms| - i
  {
    if i == |ms| || cut == 0 {
      NothingRemoved(ms, i, removed, true, count);
      assert ms[i..i] == [];
    } else {
      var e, p := UnitEnd(ms, i), Boundary(ms, i, cut);
      UnitsStep(ms, i);
      OldestRest(UnitsFrom(ms, i), removed, cut);
      BehindMarker(ms, e, removed[1..], cut - 1, count);
      SystemSplit(ms, i, e, p);
      KeptFirst(ms, i, removed, count);
      Together(RebuildFrom(ms, UnitsFrom(ms, e), removed[1..], true, count), SystemMessages(ms[i..p]),
               SystemMessages(ms[i..e]), SystemMessages(ms[e..p]), ms[p..]);
    }
  }

  lemma SystemSplit(ms: seq<Message>, i: nat, e: nat, p: nat)
    requires i <= e <= p <= |ms|
    ensures SystemMessages(ms[i..p]) == SystemMessages(ms[i..e]) + SystemMessages(ms[e..p])
  {
    assert ms[i..p] == ms[i..e] + ms[e..p];
    SystemConcat(ms[i..e], ms[e..p]);
  }

  lemma Together<X>(all: seq<X>, whole: seq<X>, first: seq<X>, rest: seq<X>, tail: seq<X>)
    requires whole == first + rest && all == rest + tail
    ensures first + all == whole + tail
  {
    Assoc(first, rest, tail);
  }

  /** One unit behind the marker: a system message is kept, anything else is removed. */
  lemma KeptFirst(ms: seq<Message>, i: nat, removed: seq<bool>, count: nat)
    requires i < |ms| && |removed| == |UnitsFrom(ms, i)| && (removed[0] <==> ms[i].role != System)
    ensures UnitsFrom(ms, i)[1..] == UnitsFrom(ms, UnitEnd(ms, i))
    ensures RebuildFrom(ms, UnitsFrom(ms, i), removed, true, count) ==
      SystemMessages(ms[i..UnitEnd(ms, i)]) + RebuildFrom(ms, UnitsFrom(ms, UnitEnd(ms, i)), removed[1..], true, count)
  {
    UnitsStep(ms, i);
    SystemUnit(ms, i);
  }

  /** In front of the first removed unit the leading system messages stay where they are. */
  lemma {:induction false} BeforeMarker(ms: seq<Message>, i: nat, removed: seq<bool>, cut: nat, count: nat)
    requires i <= |ms| && OldestUpTo(UnitsFrom(ms, i), removed, cut) && true in removed
    ensures
      var a, p := FirstOther(ms, i), Boundary(ms, i, cut);
      && a < p
      && RebuildFrom(ms, UnitsFrom(ms, i), removed, false, count) ==
        ms[i..a] + [Marker(count)] + SystemMessages(ms[a..p]) + ms[p..]
    decreases |ms| - i
  {
    var e, a, p := UnitEnd(ms, i), FirstOther(ms, i), Boundary(ms, i, cut);
    UnitsStep(ms, i);
    OldestRest(UnitsFrom(ms, i), removed, cut);
    SystemUnit(ms, i);
    if removed[0] {
      assert ms[i].role != System && a == i;
      MarkerHere(ms, i, removed, cut, count);
    } else {
      BeforeMarker(ms, e, removed[1..], cut - 1, count);
      SystemInFront(ms, i, removed, count, a, p);
    }
  }

  lemma SystemInFront(ms: seq<Message>, i: nat, removed: seq<bool>, count: nat, a: nat, p: nat)
    requires i < a < p <= |ms| && ms[i].role == System && |removed| == |UnitsFrom(ms, i)| && !removed[0]
    requires |removed[1..]| == |UnitsFrom(ms, i + 1)|
    requires RebuildFrom(ms, UnitsFrom(ms, i + 1), removed[1..], false, count) ==
      ms[i + 1..a] + [Marker(count)] + SystemMessages(ms[a..p]) + ms[p..]
    ensures RebuildFrom(ms, UnitsFrom(ms, i), removed, false, count) ==
      ms[i..a] + [Marker(count)] + SystemMessages(ms[a..p]) + ms[p..]
  {
    SystemFirst(ms, i, removed, count);
    OneInFront(RebuildFrom(ms, UnitsFrom(ms, i + 1), removed[1..], false, count), ms, i, a,
               [Marker(count)], SystemMessages(ms[a..p]), ms[p..]);
  }

  lemma OneInFront(
    all: seq<Message>, ms: seq<Message>, i: nat, a: nat, b: seq<Message>, c: seq<Message>, d: seq<Message>)
    requires i < a <= |ms| && all == ms[i + 1..a] + b + c + d
    ensures [ms[i]] + all == ms[i..a] + b + c + d
  {
    assert ms[i..a] == [ms[i]] + ms[i + 1..a];
    FrontOf(all, [ms[i]], ms[i + 1..a], b, c, d);
  }

  lemma FrontOf<X>(all: seq<X>, first: seq<X>, a: seq<X>, b: seq<X>, c: seq<X>, d: seq<X>)
    requires all == a + b + c + d
    ensures first + all == (first + a) + b + c + d
  {
    Behind(first, a, b, c, d);
  }

  lemma SystemFirst(ms: seq<Message>, i: nat, removed: seq<bool>, count: nat)
    requires i < |ms| && ms[i].role == System && |removed| == |UnitsFrom(ms, i)| && !removed[0]
    ensures UnitsFrom(ms, i)[1..] == UnitsFrom(ms, i + 1)
    ensures RebuildFrom(ms, UnitsFrom(ms, i), removed, false, count) ==
      [ms[i]] + RebuildFrom(ms, UnitsFrom(ms, i + 1), removed[1..], false, count)
  {
    UnitsStep(ms, i);
    assert ms[i..i + 1] == [ms[i]];
  }

  /** The first removed unit leaves the marker. */
  lemma FirstGone(ms: seq<Message>, i: nat, removed: seq<bool>, count: nat)
    requires i < |ms| && |removed| == |UnitsFrom(ms, i)| && removed[0]
    ensures UnitsFrom(ms, i)[1..] == UnitsFrom(ms, UnitEnd(ms, i))
    ensures RebuildFrom(ms, UnitsFrom(ms, i), removed, false, count) ==
      [Marker(count)] + RebuildFrom(ms, UnitsFrom(ms, UnitEnd(ms, i)), removed[1..], true, count)
  {
    UnitsStep(ms, i);
  }

  lemma MarkerHere(ms: seq<Message>, i: nat, removed: seq<bool>, cut: nat, count: nat)
    requires i < |ms| && OldestUpTo(UnitsFrom(ms, i), removed, cut) && removed[0] && ms[i].role != System && cut > 0
    ensures
      var p := Boundary(ms, i, cut);
      && i < p
      && RebuildFrom(ms, UnitsFrom(ms, i), removed, false, count) ==
        ms[i..i] + [Marker(count)] + SystemMessages(ms[i..p]) + ms[p..]
  {
    var e, p := UnitEnd(ms, i), Boundary(ms, i, cut);
    FirstGone(ms, i, removed, count);
    OldestRest(UnitsFrom(ms, i), removed, cut);
    BehindMarker(ms, e, removed[1..], cut - 1, count);
    SystemUnit(ms, i);
    SystemSplit(ms, i, e, p);
    Alone(RebuildFrom(ms, UnitsFrom(ms, e), removed[1..], true, count), ms[i..i], [Marker(count)],
          SystemMessages(ms[e..p]), SystemMessages(ms[i..p]), ms[p..]);
  }

  lemma Alone<X>(all: seq<X>, none: seq<X>, first: seq<X>, rest: seq<X>, same: seq<X>, tail: seq<X>)
    requires none == [] && same == [] + rest && all == rest + tail
    ensures first + all == none + first + same + tail
  {
    assert [] + rest == rest && none + first == first;
    Assoc(first, rest, tail);
  }

  lemma Behind<X>(first: seq<X>, a: seq<X>, b: seq<X>, c: seq<X>, d: seq<X>)
    ensures first + (a + b + c + d) == (first + a) + b + c + d
  {
    Assoc(first, a, b);
    Assoc(first, a + b, c);
    Assoc(first, a + b + c, d);
  }

  /** The removed messages are those before the cut that are not system messages. */
  lemma {:induction false} CountRemoved(ms: seq<Message>, i: nat, removed: seq<bool>, cut: nat)
    requires i <= |ms| && OldestUpTo(UnitsFrom(ms, i), removed, cut)
    ensures
      var p := Boundary(ms, i, cut);
      RemovedCount(UnitsFrom(ms, i), removed) + |SystemMessages(ms[i..p])| == p - i
    decreases |ms| - i
  {
    if i == |ms| || cut == 0 {
      NoneCounted(UnitsFrom(ms, i), removed);
      assert ms[i..i] == [];
    } else {
      var e, p := UnitEnd(ms, i), Boundary(ms, i, cut);
      UnitsStep(ms, i);
      OldestRest(UnitsFrom(ms, i), removed, cut);
      CountRemoved(ms, e, removed[1..], cut - 1);
      SystemUnit(ms, i);
      assert ms[i..p] == ms[i..e] + ms[e..p];
      SystemConcat(ms[i..e], ms[e..p]);
    }
  }

  lemma {:induction false} LeadingKept(ms: seq<Message>, a: nat)
    requires a <= |ms| && forall k :: 0 <= k < a ==> ms[k].role == System
    ensures SystemMessages(ms[..a]) == ms[..a]
    decreases a
  {
    if a > 0 {
      LeadingKept(ms[1..], a - 1);
      assert ms[..a][1..] == ms[1..][..a - 1];
    }
  }

  /** Some message that is not a system message is kept from `p` on. */
  lemma {:induction false} NewestBeyond(ms: seq<Message>, i: nat, cut: nat, k: nat)
    requires i <= |ms| && cut <= k < |UnitsFrom(ms, i)| && UnitsFrom(ms, i)[k].removable
    ensures exists j :: Boundary(ms, i, cut) <= j < |ms| && ms[j].role != System
    decreases |ms| - i
  {
    UnitsStep(ms, i);
    if k > 0 {
      NewestBeyond(ms, UnitEnd(ms, i), if cut == 0 then 0 else cut - 1, k - 1);
    }
  }

  /**
   * The pruned transcript, message by message. A context within the target stays as it is. Otherwise there is a cut
   * `p`: what is left are the leading system messages, the marker, the system messages up to the cut, and everything
   * from the cut on, where something besides system messages is left. The marker says how many messages are gone.
   */
  lemma PrunedExactly(m: Measure, preserve: nat, ms: seq<Message>) returns (p: nat)
    requires Prune(m, preserve, ms).Ok?
    ensures
      var c, a := Prune(m, preserve, ms).value, FirstOther(ms, 0);
      if Count(m, ms) <= m.target then c.messages == ms && c.removedMessages == 0
      else
        && a < p <= |ms|
        && c.removedMessages == (p - a) - |SystemMessages(ms[a..p])|
        && c.messages == ms[..a] + [Marker(c.removedMessages)] + SystemMessages(ms[a..p]) + ms[p..]
        && exists j :: p <= j < |ms| && ms[j].role != System
  {
    p := 0;
    if Count(m, ms) > m.target {
      p := PrunedAtCut(m, preserve, ms);
    }
  }

  lemma PrunedAtCut(m: Measure, preserve: nat, ms: seq<Message>) returns (p: nat)
    requires Prune(m, preserve, ms).Ok? && Count(m, ms) > m.target
    ensures
      var c, a := Prune(m, preserve, ms).value, FirstOther(ms, 0);
      && a < p <= |ms|
      && c.removedMessages == (p - a) - |SystemMessages(ms[a..p])|
      && c.messages == ms[..a] + [Marker(c.removedMessages)] + SystemMessages(ms[a..p]) + ms[p..]
      && exists j :: p <= j < |ms| && ms[j].role != System
  {
    var removed, cut := PruneKeepsSuffix(m, preserve, ms);
    SomethingRemoved(m, preserve, ms, removed);
    p := CutMessages(ms, removed, cut);
  }

  lemma SomethingRemoved(m: Measure, preserve: nat, ms: seq<Message>, removed: seq<bool>)
    requires Prune(m, preserve, ms).Ok? && Count(m, ms) > m.target && |removed| == |UnitsFrom(ms, 0)|
    requires Prune(m, preserve, ms).value.messages == Rebuild(ms, UnitsFrom(ms, 0), removed)
    ensures true in removed
  {
    if true !in removed {
      NothingRemoved(ms, 0, removed, false, RemovedCount(UnitsFrom(ms, 0), removed));
      assert ms[0..] == ms;
      PruneMeetsTarget(m, preserve, ms);
    }
  }

  lemma CountOthers(ms: seq<Message>, removed: seq<bool>, cut: nat)
    requires OldestUpTo(UnitsFrom(ms, 0), removed, cut) && FirstOther(ms, 0) <= Boundary(ms, 0, cut)
    ensures
      var a, p := FirstOther(ms, 0), Boundary(ms, 0, cut);
      RemovedCount(UnitsFrom(ms, 0), removed) == (p - a) - |SystemMessages(ms[a..p])|
  {
    var a, p := FirstOther(ms, 0), Boundary(ms, 0, cut);
    CountRemoved(ms, 0, removed, cut);
    LeadingKept(ms, a);
    assert ms[0..p] == ms[..a] + ms[a..p];
    SystemConcat(ms[..a], ms[a..p]);
  }

  lemma CutMessages(ms: seq<Message>, removed: seq<bool>, cut: nat) returns (p: nat)
    requires OldestUpTo(UnitsFrom(ms, 0), removed, cut) && true in removed && KeepsNewest(UnitsFrom(ms, 0), cut)
    ensures
      var count, a := RemovedCount(UnitsFrom(ms, 0), removed), FirstOther(ms, 0);
      && a < p <= |ms|
      && count == (p - a) - |SystemMessages(ms[a..p])|
      && Rebuild(ms, UnitsFrom(ms, 0), removed) ==
        ms[..a] + [Marker(count)] + SystemMessages(ms[a..p]) + ms[p..]
      && exists j :: p <= j < |ms| && ms[j].role != System
  {
    var a := FirstOther(ms, 0);
    p := Boundary(ms, 0, cut);
    BeforeMarker(ms, 0, removed, cut, RemovedCount(UnitsFrom(ms, 0), removed));
    assert ms[0..a] == ms[..a];
    CountOthers(ms, removed, cut);
    var k :| cut <= k < |UnitsFrom(ms, 0)| && UnitsFrom(ms, 0)[k].removable;
    NewestBeyond(ms, 0, cut, k);
  }
}
