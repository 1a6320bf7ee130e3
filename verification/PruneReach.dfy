/** Which transcripts the executor's pruning can never spoil, whatever the counter says. */
module PruneReach {
  import opened Wrappers
  import opened Transcript
  import opened ModelView
  import opened Units
  import opened Pruning
  import opened PruneShape
  import opened PruneSafety

  function Removables(units: seq<Unit>): (n: nat)
    ensures n <= |units|
  {
    if units == [] then 0
    else (if units[|units| - 1].removable then 1 else 0) + Removables(units[..|units| - 1])
  }

  // ----- recent windows that protect exactly what comes after a unit -----

  /** Once the window is exceeded, nothing older is protected. */
  lemma {:induction false} BeyondWindow(units: seq<Unit>, costs: seq<nat>, recent: nat, closed: bool)
    requires |costs| == |units| && recent > 0
    ensures ProtectedFrom(units, Protect(units, costs, 0, recent, false, closed), |units|)
    decreases units
  {
    if units != [] {
      var last := |units| - 1;
      BeyondWindow(units[..last], costs[..last], recent, closed);
      BeyondWindow(units[..last], costs[..last], recent, true);
    }
  }

  /** An empty window protects only the newest removable unit, if that costs anything. */
  lemma {:induction false} NewestOnly(units: seq<Unit>, costs: seq<nat>, c: nat)
    requires |costs| == |units| && c < |units| && units[c].removable && costs[c] == 1
    requires forall i :: c < i < |units| ==> !units[i].removable
    ensures ProtectedFrom(units, Protect(units, costs, 0, 0, true, false), c)
    decreases units
  {
    var last := |units| - 1;
    if c < last {
      NewestOnly(units[..last], costs[..last], c);
    } else {
      BeyondWindow(units[..last], costs[..last], 1, false);
    }
  }

  /** A window of exactly the removable units after `c`, each at cost one, not yet used up. */
  ghost predicate Window(units: seq<Unit>, costs: seq<nat>, preserve: nat, recent: nat, newest: bool, c: nat) {
    && |costs| == |units| && c < |units| && preserve < WORD_MAX
    && units[c].removable && (forall i :: c <= i < |costs| ==> costs[i] == 1)
    && recent + Removables(units[c + 1..]) == preserve
    && (newest ==> Removables(units[c + 1..]) > 0)
  }

  lemma WindowStep(units: seq<Unit>, costs: seq<nat>, preserve: nat, recent: nat, newest: bool, c: nat)
    requires Window(units, costs, preserve, recent, newest, c)
    ensures
      var last := |units| - 1;
      if c == last then recent == preserve && !newest
      else if units[last].removable then Window(units[..last], costs[..last], preserve, recent + 1, false, c)
      else Window(units[..last], costs[..last], preserve, recent, newest, c)
  {
    var last := |units| - 1;
    if c < last {
      assert units[c + 1..][..last - c - 1] == units[..last][c + 1..];
      assert units[c + 1..][last - c - 1] == units[last];
    }
  }

  lemma {:induction false} ClosedProtectsNothing(units: seq<Unit>, costs: seq<nat>, preserve: nat, recent: nat)
    requires |costs| == |units|
    ensures ProtectedFrom(units, Protect(units, costs, preserve, recent, false, true), |units|)
    decreases units
  {
    if units != [] {
      ClosedProtectsNothing(units[..|units| - 1], costs[..|units| - 1], preserve, recent);
    }
  }

  lemma {:induction false} WindowProtects(
    units: seq<Unit>, costs: seq<nat>, preserve: nat, recent: nat, newest: bool, c: nat)
    requires Window(units, costs, preserve, recent, newest, c)
    ensures ProtectedFrom(units, Protect(units, costs, preserve, recent, newest, false), c + 1)
    decreases units
  {
    var last := |units| - 1;
    WindowStep(units, costs, preserve, recent, newest, c);
    if c == last {
      ClosedProtectsNothing(units[..last], costs[..last], preserve, recent);
    } else if units[last].removable {
      WindowProtects(units[..last], costs[..last], preserve, recent + 1, false, c);
    } else {
      WindowProtects(units[..last], costs[..last], preserve, recent, newest, c);
    }
  }

  // ----- a counter under which only one view fits -----

  function Wanting(spec: ModelSpec, view: seq<Message>): Measure {
    ProjectedMeasure(spec, v => if v == view then 0 else 2, v => if v == [] then 0 else 1, false, 1)
  }

  lemma {:induction false} UnitBounds(ms: seq<Message>, s: nat)
    requires s <= |ms|
    ensures |UnitsFrom(ms, s)| <= |ms| - s
    ensures forall u <- UnitsFrom(ms, s) :: s <= u.start < u.end <= |ms|
    decreases |ms| - s
  {
    if s < |ms| {
      UnitsUnfold(ms, s);
      UnitBounds(ms, UnitEnd(ms, s));
    }
  }

  lemma {:induction false} TailUnits(ms: seq<Message>, s: nat, i: nat)
    requires s <= i < |ms| && ms[i].role != Tool
    ensures UnitsBefore(ms, s, i) < |UnitsFrom(ms, s)|
    ensures UnitsFrom(ms, s)[UnitsBefore(ms, s, i)..] == UnitsFrom(ms, i)
    decreases i - s
  {
    UnitsUnfold(ms, s);
    if s < i {
      TailUnits(ms, UnitEnd(ms, s), i);
    }
  }

  /** Messages that nothing rewrites are counted as they are. */
  lemma PlainCost(spec: ModelSpec, view: seq<Message>, ms: seq<Message>, i: nat, u: Unit)
    requires i <= u.start < u.end <= |ms|
    requires forall j :: i <= j < |ms| ==> !Rewritten(spec, ms[j])
    ensures UnitCost(Wanting(spec, view), Slice(ms, u)) == 1
  {
    var slice := Slice(ms, u);
    forall m | m in slice ensures !Rewritten(spec, m) {
      var k :| 0 <= k < |slice| && slice[k] == m;
      assert slice[k] == ms[u.start + k];
    }
    assert Project(spec, slice) == slice && Project(spec, []) == [];
    var m := Wanting(spec, view);
    assert m.bare(slice) == 1 && m.bare([]) == 0;
  }

  lemma PlainCosts(spec: ModelSpec, view: seq<Message>, ms: seq<Message>, i: nat)
    requires i < |ms| && ms[i].role != Tool && forall j :: i <= j < |ms| ==> !Rewritten(spec, ms[j])
    ensures
      var units := UnitsFrom(ms, 0);
      forall k :: UnitsBefore(ms, 0, i) <= k < |units| ==> UnitCosts(Wanting(spec, view), ms, units)[k] == 1
  {
    var units, c := UnitsFrom(ms, 0), UnitsBefore(ms, 0, i);
    TailUnits(ms, 0, i);
    UnitBounds(ms, i);
    forall k | c <= k < |units| ensures UnitCosts(Wanting(spec, view), ms, units)[k] == 1 {
      assert units[k] == units[c..][k - c] && units[k] in UnitsFrom(ms, i);
      PlainCost(spec, view, ms, i, units[k]);
    }
  }

  // ----- the search meets the wanted view -----

  /** The halving search looks at the last candidate but one before it gives everything up. */
  lemma {:induction false} SearchMeetsLast(m: Measure, plan: Plan, before: nat, k: nat)
    requires k < |plan.candidates| && Fits(m, plan, before, |plan.candidates| - 1)
    ensures Search(m, plan, before, k).Some?
    decreases |plan.candidates| - k
  {
    if !Fits(m, plan, before, k) {
      SearchMeetsLast(m, plan, before, Halfway(|plan.candidates|, k));
    }
  }

  /** The units before `c` are the first candidates; at most the unit at `c` follows. */
  lemma CandidatesBefore(units: seq<Unit>, guarded: seq<bool>, c: nat, cut: nat) returns (k: nat)
    requires ProtectedFrom(units, guarded, cut) && c < |units| && units[c].removable && (cut == c || cut == c + 1)
    ensures
      var cs := Candidates(units, guarded, 0);
      k == |cs| - (cut - c) && k <= |cs| && MarkFirst(|units|, cs, k) == Oldest(units, c)
  {
    var cs := Candidates(units, guarded, 0);
    CandidatesExact(units, guarded, 0);
    assert c in cs <==> cut == c + 1;
    if cut == c + 1 {
      LargestLast(cs, c);
      k := |cs| - 1;
    } else {
      k := |cs|;
    }
    PrefixOf(cs, k, c);
    forall i | 0 <= i < |units| ensures i in cs[..k] <==> units[i].removable && i < c {
      assert i in cs[..k] <==> i in cs && i < c;
    }
  }

  lemma LargestLast(cs: seq<nat>, c: nat)
    requires Ascending(cs) && c in cs && forall x <- cs :: x <= c
    ensures cs[|cs| - 1] == c
  {
    var at :| 0 <= at < |cs| && cs[at] == c;
    assert cs[|cs| - 1] in cs;
    assert cs[at] <= cs[|cs| - 1];
  }

  lemma PrefixOf(cs: seq<nat>, k: nat, c: nat)
    requires Ascending(cs) && k <= |cs| <= k + 1
    requires (forall x <- cs :: x <= c) && (k < |cs| <==> c in cs) && (k < |cs| ==> cs[k] == c)
    ensures forall x :: x in cs[..k] <==> x in cs && x < c
  {
    forall x ensures x in cs[..k] <==> x in cs && x < c {
      if x in cs && x < c {
        var j :| 0 <= j < |cs| && cs[j] == x;
        assert cs[..k][j] == x;
      }
      if x in cs[..k] {
        var j :| 0 <= j < k && cs[..k][j] == x;
        assert cs[j] in cs && (k < |cs| ==> cs[j] < cs[k]);
      }
    }
  }

  /** A recent window for which the units before the one at `c` are removed first, and that unit only after them. */
  lemma WindowFor(units: seq<Unit>, costs: seq<nat>, c: nat) returns (preserve: nat, cut: nat)
    requires |costs| == |units| < WORD_MAX && c < |units| && units[c].removable
    requires forall k :: c <= k < |units| ==> costs[k] == 1
    ensures ProtectedFrom(units, Protect(units, costs, preserve, 0, true, false), cut)
    ensures cut == c || cut == c + 1
  {
    preserve := Removables(units[c + 1..]);
    if preserve == 0 {
      cut := c;
      NoneAfter(units[c + 1..]);
      forall i | c < i < |units| ensures !units[i].removable {
        assert units[i] == units[c + 1..][i - c - 1];
      }
      NewestOnly(units, costs, c);
    } else {
      cut := c + 1;
      WindowProtects(units, costs, preserve, 0, true, c);
    }
  }

  lemma {:induction false} NoneAfter(units: seq<Unit>)
    requires Removables(units) == 0
    ensures forall i :: 0 <= i < |units| ==> !units[i].removable
    decreases units
  {
    if units != [] {
      NoneAfter(units[..|units| - 1]);
    }
  }

  /** When only the transcript cut just before message `i` fits, pruning returns one that is shown the same. */
  lemma PruningReaches(spec: ModelSpec, ms: seq<Message>, i: nat, goal: seq<Message>) returns (preserve: nat)
    requires i < |ms| < WORD_MAX && ms[i].role == Assistant && forall j :: i <= j < |ms| ==> !Rewritten(spec, ms[j])
    requires goal == Rebuild(ms, UnitsFrom(ms, 0), Oldest(UnitsFrom(ms, 0), UnitsBefore(ms, 0, i)))
    requires Project(spec, goal) != Project(spec, ms)
    ensures
      var result := Prune(Wanting(spec, Project(spec, goal)), preserve, ms);
      result.Ok? && Project(spec, result.value.messages) == Project(spec, goal)
  {
    var m := Wanting(spec, Project(spec, goal));
    var units, c := UnitsFrom(ms, 0), UnitsBefore(ms, 0, i);
    var costs := UnitCosts(m, ms, units);
    var _ := OldestUpToMessage(ms, 0, i, false, 0);
    UnitBounds(ms, 0);
    PlainCosts(spec, Project(spec, goal), ms, i);
    var cut;
    preserve, cut := WindowFor(units, costs, c);
    var k := CandidatesBefore(units, Protect(units, costs, preserve, 0, true, false), c, cut);
    SearchReaches(m, preserve, ms, k, goal);
    PruneMeetsTarget(m, preserve, ms);
  }

  lemma WithoutNothing(plan: Plan, ms: seq<Message>)
    requires plan.messages == ms && plan.units == UnitsFrom(ms, 0)
    ensures Without(plan, 0) == ms
  {
    var removed := MarkFirst(|plan.units|, plan.candidates, 0);
    NothingRemoved(ms, 0, removed, false, RemovedCount(plan.units, removed));
    assert ms[0..] == ms;
  }

  lemma SearchReaches(m: Measure, preserve: nat, ms: seq<Message>, k: nat, goal: seq<Message>)
    requires m.target == 1 && !m.additive && Count(m, ms) == 2 && Count(m, goal) == 0
    requires
      var plan := PlanFor(m, preserve, ms);
      k <= |plan.candidates| <= k + 1 && Without(plan, k) == goal
    ensures Prune(m, preserve, ms).Ok?
  {
    var plan := PlanFor(m, preserve, ms);
    var n := |plan.candidates|;
    var start := StartOf(m, plan, UnitCosts(m, ms, UnitsFrom(ms, 0)), 2);
    assert Fits(m, plan, 2, k);
    WithoutNothing(plan, ms);
    if k + 1 == n && start < n {
      SearchMeetsLast(m, plan, 2, start);
    }
  }

  // ----- the exact condition -----

  ghost predicate PruningsAccepted(spec: ModelSpec, ms: seq<Message>) {
    forall request, bare, additive, target: nat, preserve: nat ::
      var result := Prune(ProjectedMeasure(spec, request, bare, additive, target), preserve, ms);
      result.Ok? ==> Verdict(spec, Project(spec, result.value.messages)).None?
  }

  /** Some pruning stops just before an empty assistant message that nothing rewritten follows. */
  lemma PruningExposes(spec: ModelSpec, ms: seq<Message>, i: nat)
    requires Verdict(spec, Project(spec, ms)).None? && |ms| < WORD_MAX
    requires i < |ms| && EmptyAssistant(ms[i]) && !RewrittenAfter(spec, ms, i)
    ensures !PruningsAccepted(spec, ms)
  {
    var removed := ExposedByRemoval(spec, ms, i);
    var goal := Rebuild(ms, UnitsFrom(ms, 0), removed);
    var preserve := PruningReaches(spec, ms, i, goal);
  }

  /**
   Counted pruning leaves an accepted transcript accepted, whatever the counter, the target and the recent
   window, exactly when every empty assistant message is followed by a message that the projection rewrites.
   */
  lemma PruningSafeIff(spec: ModelSpec, ms: seq<Message>)
    requires Paired(ms) && Verdict(spec, Project(spec, ms)).None? && |ms| < WORD_MAX
    ensures PruningsAccepted(spec, ms) <==> EmptiesHidden(spec, ms)
  {
    if EmptiesHidden(spec, ms) {
      forall request, bare, additive, target: nat, preserve: nat
        | Prune(ProjectedMeasure(spec, request, bare, additive, target), preserve, ms).Ok?
        ensures
          var pruned := Prune(ProjectedMeasure(spec, request, bare, additive, target), preserve, ms).value.messages;
          Verdict(spec, Project(spec, pruned)).None?
      {
        PruningKeepsRequestsValid(spec, ProjectedMeasure(spec, request, bare, additive, target), preserve, ms);
      }
    }
    if PruningsAccepted(spec, ms) {
      forall i | 0 <= i < |ms| && EmptyAssistant(ms[i]) ensures RewrittenAfter(spec, ms, i) {
        if !RewrittenAfter(spec, ms, i) {
          PruningExposes(spec, ms, i);
        }
      }
    }
  }
}
