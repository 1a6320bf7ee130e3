/** Cancellation contexts: a tree in which cancellation propagates down and the first reason wins. */
module Cancellation {
  import opened Wrappers

  /** What a `cancel` call has decided while it holds the reason lock: to store its reason, or to leave it. */
  datatype Hold = Hold(decision: Option<string>)

  datatype Node = Node(parent: Option<nat>, reason: Option<string>, cancelled: bool, hold: Option<Hold>)

  /** `due` are the contexts whose token a `cancel` call is entitled to fire; `fired` those whose token was fired. */
  datatype Tree = Tree(nodes: seq<Node>, due: set<nat>, fired: set<nat>)

  /** One atomic step of some thread. */
  datatype Step =
    | Lock(n: nat, reason: string)   // take the reason lock, look at the slot and the token
    | Store(n: nat)                  // store what was decided and release the lock
    | Fire(n: nat)                   // cancel the token, with everything below it
    | Child(n: nat)                  // make a child context
    | External(n: nat)               // the token a root was made around is cancelled by its owner

  predicate Shaped(nodes: seq<Node>) {
    forall i :: 0 <= i < |nodes| && nodes[i].parent.Some? ==> nodes[i].parent.value < i
  }

  /** Whether `a` is `i` or above it. */
  predicate Above(nodes: seq<Node>, a: nat, i: nat)
    requires Shaped(nodes) && i < |nodes|
    decreases i
  {
    a == i || (nodes[i].parent.Some? && Above(nodes, a, nodes[i].parent.value))
  }

  function Propagated(nodes: seq<Node>, n: nat): (r: seq<Node>)
    requires Shaped(nodes)
    ensures |r| == |nodes|
    ensures forall i :: 0 <= i < |r| ==>
      r[i] == nodes[i].(cancelled := nodes[i].cancelled || Above(nodes, n, i))
  {
    seq(|nodes|, i requires 0 <= i < |nodes| => nodes[i].(cancelled := nodes[i].cancelled || Above(nodes, n, i)))
  }

  predicate Enabled(t: Tree, s: Step) {
    && s.n < |t.nodes|
    && match s
      case Lock(n, _) => t.nodes[n].hold.None?
      case Store(n) => t.nodes[n].hold.Some?
      case Fire(n) => n in t.due
      case Child(_) => true
      case External(n) => t.nodes[n].parent.None?
  }

  function Decision(node: Node, reason: string): Option<string> {
    if node.reason.None? && !node.cancelled then Some(reason) else None
  }

  function Stored(node: Node): Node {
    node.(hold := None,
          reason := if node.hold.Some? && node.hold.value.decision.Some? then node.hold.value.decision else node.reason)
  }

  function Apply(t: Tree, s: Step): Tree
    requires Shaped(t.nodes) && Enabled(t, s)
  {
    var node := t.nodes[s.n];
    match s
    case Lock(n, reason) => t.(nodes := t.nodes[n := node.(hold := Some(Hold(Decision(node, reason))))])
    case Store(n) => t.(nodes := t.nodes[n := Stored(node)], due := t.due + {n})
    case Fire(n) => t.(nodes := Propagated(t.nodes, n), fired := t.fired + {n})
    case External(n) => t.(nodes := Propagated(t.nodes, n), fired := t.fired + {n})
    case Child(n) => t.(nodes := t.nodes + [Node(Some(n), None, node.cancelled, None)])
  }

  /** A schedule: steps that are not enabled when their turn comes are skipped. */
  function Run(t: Tree, steps: seq<Step>): Tree
    requires Shaped(t.nodes)
    decreases steps
  {
    if steps == [] then t
    else
      ApplyShaped(t, steps[0]);
      Run(if Enabled(t, steps[0]) then Apply(t, steps[0]) else t, steps[1..])
  }

  lemma RunStep(t: Tree, s: Step, rest: seq<Step>)
    requires Shaped(t.nodes) && Enabled(t, s)
    ensures Shaped(Apply(t, s).nodes) && Run(t, [s] + rest) == Run(Apply(t, s), rest)
  {
    ApplyShaped(t, s);
    assert ([s] + rest)[1..] == rest;
  }

  lemma ApplyShaped(t: Tree, s: Step)
    requires Shaped(t.nodes)
    ensures Enabled(t, s) ==> Shaped(Apply(t, s).nodes) && |t.nodes| <= |Apply(t, s).nodes|
  {}

  // ----- what every reachable tree satisfies -----

  /** A lock holder that will not store has seen a reason or a cancelled token. */
  predicate HoldSound(node: Node) {
    && (node.hold.Some? && node.hold.value.decision.None? ==> node.reason.Some? || node.cancelled)
    && (node.hold.Some? && node.hold.value.decision.Some? ==> node.reason.None?)
  }

  /** A cancelled context has a reason of its own, or was cancelled from above. */
  predicate Explained(nodes: seq<Node>, i: nat)
    requires Shaped(nodes) && i < |nodes|
  {
    nodes[i].cancelled && nodes[i].reason.None? && nodes[i].parent.Some? ==> nodes[nodes[i].parent.value].cancelled
  }

  ghost predicate Sound(t: Tree) {
    && Shaped(t.nodes)
    && (forall i :: 0 <= i < |t.nodes| ==> HoldSound(t.nodes[i]))
    && (forall i :: 0 <= i < |t.nodes| ==> Explained(t.nodes, i))
    && (forall i <- t.due :: i < |t.nodes| && (t.nodes[i].reason.Some? || t.nodes[i].cancelled))
  }

  const FRESH := Tree([Node(None, None, false, None)], {}, {})

  lemma FreshSound()
    ensures Sound(FRESH)
  {}

  lemma AboveParent(nodes: seq<Node>, n: nat, i: nat)
    requires Shaped(nodes) && i < |nodes|
    ensures Above(nodes, n, i) && n != i ==> nodes[i].parent.Some? && Above(nodes, n, nodes[i].parent.value)
  {}

  lemma FireSound(t: Tree, n: nat)
    requires Sound(t) && n < |t.nodes|
    requires t.nodes[n].reason.Some? || t.nodes[n].cancelled || t.nodes[n].parent.None?
    ensures Sound(t.(nodes := Propagated(t.nodes, n), fired := t.fired + {n}))
  {
    var after := Propagated(t.nodes, n);
    forall i | 0 <= i < |after| ensures HoldSound(after[i]) {
      assert HoldSound(t.nodes[i]);
    }
    forall i | 0 <= i < |after| ensures Explained(after, i) {
      assert Explained(t.nodes, i);
      AboveParent(t.nodes, n, i);
    }
  }

  lemma LockSound(t: Tree, n: nat, reason: string)
    requires Sound(t) && Enabled(t, Lock(n, reason))
    ensures Sound(Apply(t, Lock(n, reason)))
  {
    var after := Apply(t, Lock(n, reason)).nodes;
    forall i | 0 <= i < |after| ensures HoldSound(after[i]) && Explained(after, i) {
      assert HoldSound(t.nodes[i]) && Explained(t.nodes, i);
    }
  }

  lemma StoreSound(t: Tree, n: nat)
    requires Sound(t) && Enabled(t, Store(n))
    ensures Sound(Apply(t, Store(n)))
  {
    var after := Apply(t, Store(n)).nodes;
    assert HoldSound(t.nodes[n]);
    forall i | 0 <= i < |after| ensures HoldSound(after[i]) && Explained(after, i) {
      assert HoldSound(t.nodes[i]) && Explained(t.nodes, i);
    }
  }

  lemma ChildSound(t: Tree, n: nat)
    requires Sound(t) && n < |t.nodes|
    ensures Sound(Apply(t, Child(n)))
  {
    var after := Apply(t, Child(n)).nodes;
    forall i | 0 <= i < |after| ensures HoldSound(after[i]) && Explained(after, i) {
      assert i < |t.nodes| ==> HoldSound(t.nodes[i]) && Explained(t.nodes, i);
    }
  }

  lemma StepSound(t: Tree, s: Step)
    requires Sound(t) && Enabled(t, s)
    ensures Sound(Apply(t, s))
  {
    match s
    case Lock(n, reason) => LockSound(t, n, reason);
    case Store(n) => StoreSound(t, n);
    case Child(n) => ChildSound(t, n);
    case Fire(n) => FireSound(t, n);
    case External(n) => FireSound(t, n);
  }

  // ----- the reason a context reports -----

  /** Nobody on the way up to the reported reason is inside a `cancel` call. */
  predicate Readable(nodes: seq<Node>, i: nat)
    requires Shaped(nodes) && i < |nodes|
    decreases i
  {
    && nodes[i].hold.None?
    && (nodes[i].reason.None? && nodes[i].parent.Some? ==> Readable(nodes, nodes[i].parent.value))
  }

  /** The first reason on the way up; None stands for the default text. */
  function ReasonOf(nodes: seq<Node>, i: nat): Option<string>
    requires Shaped(nodes) && i < |nodes|
    decreases i
  {
    if nodes[i].reason.Some? then nodes[i].reason
    else if nodes[i].parent.Some? then ReasonOf(nodes, nodes[i].parent.value)
    else None
  }

  /** A context whose reported reason nobody can change any more. */
  predicate Settled(nodes: seq<Node>, i: nat)
    requires Shaped(nodes) && i < |nodes|
    decreases i
  {
    nodes[i].reason.Some? || (
      && nodes[i].cancelled
      && (nodes[i].hold.Some? ==> nodes[i].hold.value.decision.None?)
      && (nodes[i].parent.Some? ==> Settled(nodes, nodes[i].parent.value)))
  }

  /** A reader that gets an answer for a cancelled context gets the settled one. */
  lemma {:induction false} ReadersSeeSettled(t: Tree, i: nat)
    requires Sound(t) && i < |t.nodes|
    requires t.nodes[i].cancelled && Readable(t.nodes, i)
    ensures Settled(t.nodes, i)
    decreases i
  {
    assert Explained(t.nodes, i);
    if t.nodes[i].reason.None? && t.nodes[i].parent.Some? {
      ReadersSeeSettled(t, t.nodes[i].parent.value);
    }
  }

  /** Cancelled without a reason, and nobody is about to store one. */
  predicate Fixed(a: Node) {
    a.reason.None? && a.cancelled && (a.hold.Some? ==> a.hold.value.decision.None?)
  }

  predicate Kept(a: Node, b: Node) {
    && a.parent == b.parent
    && (a.cancelled ==> b.cancelled)
    && (a.reason.Some? ==> b.reason == a.reason)
    && (Fixed(a) ==> Fixed(b))
  }

  lemma StepKeeps(t: Tree, s: Step, i: nat)
    requires Sound(t) && Enabled(t, s) && i < |t.nodes|
    ensures i < |Apply(t, s).nodes| && Kept(t.nodes[i], Apply(t, s).nodes[i])
  {
    assert HoldSound(t.nodes[i]);
  }

  lemma {:induction false} SettledForStep(t: Tree, s: Step, i: nat)
    requires Sound(t) && Enabled(t, s) && i < |t.nodes| && Settled(t.nodes, i)
    ensures i < |Apply(t, s).nodes| && Shaped(Apply(t, s).nodes)
    ensures Settled(Apply(t, s).nodes, i) && ReasonOf(Apply(t, s).nodes, i) == ReasonOf(t.nodes, i)
    decreases i
  {
    ApplyShaped(t, s);
    StepKeeps(t, s, i);
    assert HoldSound(t.nodes[i]);
    if t.nodes[i].reason.None? && t.nodes[i].parent.Some? {
      SettledForStep(t, s, t.nodes[i].parent.value);
    }
  }

  lemma {:induction false} SettledForever(t: Tree, steps: seq<Step>, i: nat)
    requires Sound(t) && i < |t.nodes| && Settled(t.nodes, i)
    ensures Sound(Run(t, steps)) && i < |Run(t, steps).nodes|
    ensures Settled(Run(t, steps).nodes, i) && ReasonOf(Run(t, steps).nodes, i) == ReasonOf(t.nodes, i)
    decreases steps
  {
    if steps != [] {
      var next := if Enabled(t, steps[0]) then Apply(t, steps[0]) else t;
      if Enabled(t, steps[0]) {
        StepSound(t, steps[0]);
        SettledForStep(t, steps[0], i);
      }
      SettledForever(next, steps[1..], i);
    }
  }

  lemma {:induction false} RunSound(t: Tree, steps: seq<Step>)
    requires Sound(t)
    ensures Sound(Run(t, steps)) && |t.nodes| <= |Run(t, steps).nodes|
    decreases steps
  {
    if steps != [] {
      if Enabled(t, steps[0]) {
        StepSound(t, steps[0]);
        ApplyShaped(t, steps[0]);
      }
      RunSound(if Enabled(t, steps[0]) then Apply(t, steps[0]) else t, steps[1..]);
    }
  }

  /**
   * Whatever happened before, and whatever every other thread does afterwards: two answers a cancelled context
   * gives to `reason()` are the same.
   */
  lemma {:induction false} ReasonNeverChanges(earlier: seq<Step>, later: seq<Step>, i: nat)
    requires Shaped(Run(FRESH, earlier).nodes) && i < |Run(FRESH, earlier).nodes|
    requires Run(FRESH, earlier).nodes[i].cancelled && Readable(Run(FRESH, earlier).nodes, i)
    ensures
      var before := Run(FRESH, earlier);
      var after := Run(before, later);
      && Shaped(after.nodes) && i < |after.nodes| && after.nodes[i].cancelled
      && ReasonOf(after.nodes, i) == ReasonOf(before.nodes, i)
  {
    FreshSound();
    RunSound(FRESH, earlier);
    var before := Run(FRESH, earlier);
    ReadersSeeSettled(before, i);
    SettledForever(before, later, i);
    CancelledForever(before, later, i);
  }

  lemma {:induction false} CancelledForever(t: Tree, steps: seq<Step>, i: nat)
    requires Sound(t) && i < |t.nodes| && t.nodes[i].cancelled
    ensures Shaped(Run(t, steps).nodes) && i < |Run(t, steps).nodes| && Run(t, steps).nodes[i].cancelled
    decreases steps
  {
    if steps != [] {
      var next := if Enabled(t, steps[0]) then Apply(t, steps[0]) else t;
      if Enabled(t, steps[0]) {
        StepSound(t, steps[0]);
        StepKeeps(t, steps[0], i);
      }
      CancelledForever(next, steps[1..], i);
    }
  }

  // ----- where a reason comes from -----

  /** The reason of `a` is the nearest one: nobody between `a` and `i` has one. */
  predicate Nearest(nodes: seq<Node>, a: nat, i: nat)
    requires Shaped(nodes) && i < |nodes|
  {
    && a < |nodes| && Above(nodes, a, i)
    && forall b :: 0 <= b < |nodes| && b != a && Above(nodes, b, i) && Above(nodes, a, b) ==> nodes[b].reason.None?
  }

  lemma {:induction false} AboveBounds(nodes: seq<Node>, a: nat, i: nat)
    requires Shaped(nodes) && i < |nodes| && Above(nodes, a, i)
    ensures a <= i
    decreases i
  {
    if a != i {
      AboveBounds(nodes, a, nodes[i].parent.value);
    }
  }

  /** A context reports the reason of the nearest context at or above it that has one, and nothing when none has. */
  lemma {:induction false} ReasonIff(nodes: seq<Node>, i: nat)
    requires Shaped(nodes) && i < |nodes|
    ensures ReasonOf(nodes, i).None? <==> forall a :: 0 <= a < |nodes| && Above(nodes, a, i) ==> nodes[a].reason.None?
    ensures forall r :: ReasonOf(nodes, i) == Some(r) <==>
      exists a: nat :: Nearest(nodes, a, i) && nodes[a].reason == Some(r)
    decreases i
  {
    forall b: nat | b < |nodes| && Above(nodes, b, i) ensures b <= i {
      AboveBounds(nodes, b, i);
    }
    if nodes[i].reason.Some? {
      ReasonHere(nodes, i);
    } else if nodes[i].parent.Some? {
      ReasonIff(nodes, nodes[i].parent.value);
      NearestFromParent(nodes, i);
    }
  }

  lemma ReasonHere(nodes: seq<Node>, i: nat)
    requires Shaped(nodes) && i < |nodes| && nodes[i].reason.Some?
    ensures forall a: nat :: Nearest(nodes, a, i) <==> a == i
  {
    forall b: nat | b < |nodes| && Above(nodes, b, i) && Above(nodes, i, b) ensures b == i {
      AboveBounds(nodes, b, i);
      AboveBounds(nodes, i, b);
    }
    forall a: nat | Nearest(nodes, a, i) ensures a == i {
      assert Above(nodes, i, i);
    }
  }

  lemma NearestFromParent(nodes: seq<Node>, i: nat)
    requires Shaped(nodes) && i < |nodes| && nodes[i].reason.None? && nodes[i].parent.Some?
    ensures forall a: nat | a != i :: Nearest(nodes, a, i) <==> Nearest(nodes, a, nodes[i].parent.value)
    ensures forall a: nat :: Nearest(nodes, a, nodes[i].parent.value) ==> a != i
  {
    var p := nodes[i].parent.value;
    forall a: nat | Nearest(nodes, a, p) ensures a != i {
      AboveBounds(nodes, a, p);
    }
    forall b: nat | b < |nodes| && Above(nodes, b, p) ensures b != i {
      AboveBounds(nodes, b, p);
    }
  }

  /** What a `cancel` call decided stays decided until it stores it, whatever other threads do in between. */
  lemma {:induction false} DecisionKept(t: Tree, steps: seq<Step>, n: nat)
    requires Shaped(t.nodes) && n < |t.nodes| && t.nodes[n].hold.Some?
    requires Store(n) !in steps
    ensures
      var u := Run(t, steps);
      && Shaped(u.nodes) && n < |u.nodes|
      && u.nodes[n].hold == t.nodes[n].hold && u.nodes[n].reason == t.nodes[n].reason
    decreases steps
  {
    if steps != [] {
      var next := if Enabled(t, steps[0]) then Apply(t, steps[0]) else t;
      ApplyShaped(t, steps[0]);
      assert steps[0] != Store(n);
      DecisionKept(next, steps[1..], n);
    }
  }

  /**
   * The first `cancel` call that finds a context neither cancelled nor given a reason stores its reason there, even
   * when the token is cancelled before the call gets to store it; any other call leaves the slot as it was.
   */
  lemma FirstReasonWins(t: Tree, n: nat, reason: string, others: seq<Step>)
    requires Shaped(t.nodes) && n < |t.nodes| && t.nodes[n].hold.None? && Store(n) !in others
    ensures
      var locked := Apply(t, Lock(n, reason));
      var waited := Run(locked, others);
      && Shaped(locked.nodes) && Shaped(waited.nodes) && Enabled(waited, Store(n))
      && var stored := Apply(waited, Store(n)).nodes[n];
      && stored.hold.None?
      && stored.reason ==
           if t.nodes[n].reason.None? && !t.nodes[n].cancelled then Some(reason) else t.nodes[n].reason
  {
    ApplyShaped(t, Lock(n, reason));
    DecisionKept(Apply(t, Lock(n, reason)), others, n);
  }

  /** Where a context's reason, or one about to be stored, was offered. */
  ghost predicate Offered(t: Tree, steps: seq<Step>, n: nat, reason: string) {
    || Lock(n, reason) in steps
    || (n < |t.nodes| && t.nodes[n].reason == Some(reason))
    || (n < |t.nodes| && t.nodes[n].hold == Some(Hold(Some(reason))))
  }

  /** A reason is only ever what some `cancel` call on that very context offered. */
  lemma {:induction false} ReasonWasOffered(t: Tree, steps: seq<Step>, n: nat, reason: string)
    requires Shaped(t.nodes) && Shaped(Run(t, steps).nodes)
    requires n < |Run(t, steps).nodes| && Run(t, steps).nodes[n].reason == Some(reason)
    ensures Offered(t, steps, n, reason)
    decreases steps
  {
    if steps != [] {
      var next := if Enabled(t, steps[0]) then Apply(t, steps[0]) else t;
      ApplyShaped(t, steps[0]);
      ReasonWasOffered(next, steps[1..], n, reason);
      assert Lock(n, reason) in steps[1..] ==> Lock(n, reason) in steps;
    }
  }

  // ----- which contexts a cancellation reaches -----

  /** Exactly the contexts at or below a fired token are cancelled. */
  predicate FiredAbove(t: Tree, i: nat)
    requires Shaped(t.nodes) && i < |t.nodes|
    decreases i
  {
    i in t.fired || (t.nodes[i].parent.Some? && FiredAbove(t, t.nodes[i].parent.value))
  }

  ghost predicate Exact(t: Tree) {
    && Shaped(t.nodes)
    && (forall i <- t.fired :: i < |t.nodes|)
    && forall i :: 0 <= i < |t.nodes| ==> (t.nodes[i].cancelled <==> FiredAbove(t, i))
  }

  /** Whether anything fired at or above a context depends only on the shape and on what was fired. */
  lemma {:induction false} FiredFrame(t: Tree, u: Tree, n: nat, i: nat)
    requires Shaped(t.nodes) && Shaped(u.nodes) && i < |t.nodes| <= |u.nodes|
    requires forall k :: 0 <= k < |t.nodes| ==> u.nodes[k].parent == t.nodes[k].parent
    requires u.fired == t.fired || u.fired == t.fired + {n}
    ensures FiredAbove(u, i) <==> FiredAbove(t, i) || (u.fired == t.fired + {n} && Above(t.nodes, n, i))
    decreases i
  {
    assert u.nodes[i].parent == t.nodes[i].parent;
    if t.nodes[i].parent.Some? {
      FiredFrame(t, u, n, t.nodes[i].parent.value);
    }
    if u.fired == t.fired + {n} && Above(t.nodes, n, i) && n in t.fired {
      AboveFired(t, n, i);
    }
  }

  lemma {:induction false} AboveFired(t: Tree, n: nat, i: nat)
    requires Shaped(t.nodes) && i < |t.nodes| && Above(t.nodes, n, i) && n in t.fired
    ensures FiredAbove(t, i)
    decreases i
  {
    if n != i {
      AboveFired(t, n, t.nodes[i].parent.value);
    }
  }

  lemma StepExact(t: Tree, s: Step)
    requires Exact(t) && Enabled(t, s)
    ensures Exact(Apply(t, s))
  {
    var u := Apply(t, s);
    ApplyShaped(t, s);
    forall i | 0 <= i < |u.nodes| ensures u.nodes[i].cancelled <==> FiredAbove(u, i) {
      if i < |t.nodes| {
        FiredFrame(t, u, s.n, i);
        assert t.nodes[i].cancelled <==> FiredAbove(t, i);
        if s.n in t.fired && Above(t.nodes, s.n, i) {
          AboveFired(t, s.n, i);
        }
      } else {
        FiredFrame(t, u, s.n, s.n);
        assert u.nodes[i].parent == Some(s.n) && i !in u.fired;
      }
    }
  }

  lemma {:induction false} CancelledIffFiredAbove(steps: seq<Step>, t: Tree)
    requires Exact(t)
    ensures Exact(Run(t, steps))
    decreases steps
  {
    if steps != [] {
      if Enabled(t, steps[0]) {
        StepExact(t, steps[0]);
      }
      CancelledIffFiredAbove(steps[1..], if Enabled(t, steps[0]) then Apply(t, steps[0]) else t);
    }
  }

  /** No token at or above `p` is fired. */
  predicate Spares(nodes: seq<Node>, s: Step, p: nat)
    requires Shaped(nodes) && p < |nodes|
  {
    s.Fire? || s.External? ==> !Above(nodes, s.n, p)
  }

  lemma {:induction false} AboveFrame(nodes: seq<Node>, nodes': seq<Node>, n: nat, i: nat)
    requires Shaped(nodes) && Shaped(nodes') && i < |nodes| <= |nodes'|
    requires forall k :: 0 <= k < |nodes| ==> nodes'[k].parent == nodes[k].parent
    ensures Above(nodes', n, i) <==> Above(nodes, n, i)
    decreases i
  {
    assert nodes'[i].parent == nodes[i].parent;
    if nodes[i].parent.Some? {
      AboveFrame(nodes, nodes', n, nodes[i].parent.value);
    }
  }

  /** Stopping contexts below or beside `p`, in any number and order, does not cancel `p`. */
  lemma {:induction false} ChildrenDoNotCancelParents(t: Tree, steps: seq<Step>, p: nat)
    requires Sound(t) && p < |t.nodes| && !t.nodes[p].cancelled
    requires forall s <- steps :: Spares(t.nodes, s, p)
    ensures Sound(Run(t, steps)) && p < |Run(t, steps).nodes| && !Run(t, steps).nodes[p].cancelled
    decreases steps
  {
    if steps != [] {
      assert Spares(t.nodes, steps[0], p);
      var next := if Enabled(t, steps[0]) then Apply(t, steps[0]) else t;
      if Enabled(t, steps[0]) {
        StepSound(t, steps[0]);
        ApplyShaped(t, steps[0]);
      }
      forall s <- steps[1..] ensures Spares(next.nodes, s, p) {
        assert s in steps && Spares(t.nodes, s, p);
        AboveFrame(t.nodes, next.nodes, s.n, p);
      }
      ChildrenDoNotCancelParents(next, steps[1..], p);
    }
  }

  // ----- the contexts themselves -----

  const DEFAULT_REASON := "Turn execution was cancelled"

  class Contexts {
    var nodes: seq<Node>
    ghost var due: set<nat>
    ghost var fired: set<nat>

    ghost function View(): Tree
      reads this
    {
      Tree(nodes, due, fired)
    }

    ghost predicate Valid()
      reads this
    {
      Sound(View()) && Exact(View())
    }

    constructor ()
      ensures Valid() && View() == FRESH
    {
      nodes, due, fired := [Node(None, None, false, None)], {}, {};
    }

    /** The first half of `cancel`, under the lock. */
    method LockSlot(n: nat, reason: string)
      requires Valid() && Enabled(View(), Lock(n, reason))
      modifies this
      ensures Valid() && View() == Apply(old(View()), Lock(n, reason))
    {
      StepSound(View(), Lock(n, reason));
      StepExact(View(), Lock(n, reason));
      var node := nodes[n];
      var decision := if node.reason.None? && !node.cancelled then Some(reason) else None;
      nodes := nodes[n := node.(hold := Some(Hold(decision)))];
    }

    method StoreSlot(n: nat)
      requires Valid() && Enabled(View(), Store(n))
      modifies this
      ensures Valid() && View() == Apply(old(View()), Store(n))
    {
      StepSound(View(), Store(n));
      StepExact(View(), Store(n));
      var node := nodes[n];
      if node.hold.value.decision.Some? {
        nodes := nodes[n := node.(hold := None, reason := node.hold.value.decision)];
      } else {
        nodes := nodes[n := node.(hold := None)];
      }
      due := due + {n};
    }

    /** The token step, downwards through every context made from this one. */
    method FireToken(n: nat)
      requires Valid() && Enabled(View(), Fire(n))
      modifies this
      ensures Valid() && View() == Apply(old(View()), Fire(n))
    {
      StepSound(View(), Fire(n));
      StepExact(View(), Fire(n));
      nodes := Propagated(nodes, n);
      fired := fired + {n};
    }

    /** One uncontended `cancel`: the first reason is kept, and the context ends cancelled either way. */
    method Cancel(n: nat, reason: string)
      requires Valid() && n < |nodes| && nodes[n].hold.None?
      modifies this
      ensures Valid()
      ensures View() == Run(old(View()), [Lock(n, reason), Store(n), Fire(n)])
      ensures n < |nodes| && nodes[n].cancelled
      ensures nodes[n].reason ==
        if old(nodes[n].reason.None? && !nodes[n].cancelled) then Some(reason) else old(nodes[n].reason)
    {
      RunStep(View(), Lock(n, reason), [Store(n), Fire(n)]);
      LockSlot(n, reason);
      RunStep(View(), Store(n), [Fire(n)]);
      StoreSlot(n);
      RunStep(View(), Fire(n), []);
      FireToken(n);
      assert [Lock(n, reason)] + [Store(n), Fire(n)] == [Lock(n, reason), Store(n), Fire(n)];
      assert [Store(n)] + [Fire(n)] == [Store(n), Fire(n)] && [Fire(n)] + [] == [Fire(n)];
    }

    method NewChild(n: nat) returns (child: nat)
      requires Valid() && n < |nodes|
      modifies this
      ensures Valid() && View() == Apply(old(View()), Child(n))
      ensures child == |old(nodes)| && nodes[child].cancelled == old(nodes[n].cancelled)
      ensures nodes == old(nodes) + [Node(Some(n), None, old(nodes[n].cancelled), None)]
    {
      StepSound(View(), Child(n));
      StepExact(View(), Child(n));
      child := |nodes|;
      nodes := nodes + [Node(Some(n), None, nodes[n].cancelled, None)];
    }

    method Reason(n: nat) returns (text: string)
      requires Valid() && n < |nodes| && Readable(nodes, n)
      ensures text == if ReasonOf(nodes, n).Some? then ReasonOf(nodes, n).value else DEFAULT_REASON
    {
      var at: nat := n;
      while nodes[at].reason.None? && nodes[at].parent.Some?
        invariant 0 <= at < |nodes| && ReasonOf(nodes, at) == ReasonOf(nodes, n)
        decreases at
      {
        at := nodes[at].parent.value;
      }
      text := if nodes[at].reason.Some? then nodes[at].reason.value else DEFAULT_REASON;
    }
  }
}
