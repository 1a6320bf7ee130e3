/** The control state seen from the executor: one invariant, and what other threads may do between two of its steps. */
module ControlSound {
  import opened Wrappers
  import opened Control
  import opened ControlRuns

  datatype Aspect = Accounting | Identity | Conservation | Approving | Order | Content

  predicate Contents(q: seq<Queued>) {
    forall e <- q :: Deliverable(e.input.message)
  }

  ghost predicate Holds(s: State, a: Aspect) {
    match a
    case Accounting => Accounts(s)
    case Identity => Identities(s)
    case Conservation => Conserved(s)
    case Approving => Approvals(s)
    case Order => Fifo(s)
    case Content => Contents(s.pending)
  }

  /** Everything that holds of a control state the executor works with. */
  ghost predicate Sound(s: State) {
    forall a: Aspect :: Holds(s, a)
  }

  lemma SoundIff(s: State)
    ensures Sound(s) <==> Inv(s) && Fifo(s) && Contents(s.pending)
  {
    if Sound(s) {
      assert Holds(s, Accounting) && Holds(s, Identity) && Holds(s, Conservation);
      assert Holds(s, Approving) && Holds(s, Order) && Holds(s, Content);
    }
  }

  lemma FreshSound(config: Config)
    requires config.maxBytes <= WORD_MAX
    ensures Sound(Fresh(config))
  {
    FreshInv(config);
    SoundIff(Fresh(config));
  }

  lemma StepContents(s: State, e: Event)
    requires Contents(s.pending)
    ensures Contents(Step(s, e).pending)
  {}

  lemma StepSound(s: State, e: Event)
    requires Sound(s) && Disciplined(s, e)
    ensures Sound(Step(s, e))
  {
    SoundIff(s);
    StepKeeps(s, e);
    StepFifo(s, e);
    StepContents(s, e);
    SoundIff(Step(s, e));
  }

  // ----- the other threads -----

  /** Steps of hosts, of reservations in progress and of running tools. */
  predicate Elsewhere(e: Event) {
    || e.Submit? || e.Reserve? || e.Complete? || e.Release? || e.Cancel? || e.ParentCancel?
    || e.Respond? || e.Ask? || e.Cleanup?
  }

  /** Other threads only add to the back of an open queue; they never reopen a closed one. */
  ghost predicate Disturbed(s: State, t: State) {
    && Sound(t)
    && t.config == s.config
    && s.pending <= t.pending
    && t.history.applied == s.history.applied && s.history.accepted <= t.history.accepted
    && (!Open(s) ==> !Open(t) && t.pending == s.pending)
    && (s.cancelled ==> t.cancelled)
  }

  lemma ElsewhereQueue(s: State, e: Event)
    requires Elsewhere(e)
    ensures
      var t := Step(s, e);
      && t.config == s.config && s.pending <= t.pending && t.history.applied == s.history.applied
      && s.history.accepted <= t.history.accepted
      && (!Open(s) ==> !Open(t) && t.pending == s.pending)
      && (s.cancelled ==> t.cancelled)
  {}

  lemma ElsewhereStep(s: State, e: Event)
    requires Sound(s) && Elsewhere(e)
    ensures Disturbed(s, Step(s, e))
  {
    StepSound(s, e);
    ElsewhereQueue(s, e);
  }

  // ----- the executor's own steps -----

  /** What any stretch of the run leaves true of the control state. */
  ghost predicate Moved(s: State, t: State) {
    && Sound(t)
    && t.config == s.config
    && s.history.applied <= t.history.applied && s.history.accepted <= t.history.accepted
    && (!Open(s) ==> !Open(t))
    && (!Open(s) && s.pending == [] ==> t.pending == [])
    && (s.cancelled ==> t.cancelled)
  }

  lemma DisturbedMoves(s: State, t: State)
    requires Disturbed(s, t)
    ensures Moved(s, t)
  {}

  lemma MovedOn(s: State, t: State, u: State)
    requires Moved(s, t) && Moved(t, u)
    ensures Moved(s, u)
  {}

  lemma TakenSound(s: State, followUp: bool, close: bool)
    requires Sound(s)
    ensures Sound(Taken(s, followUp, close))
    ensures Moved(s, Taken(s, followUp, close)) && Taken(s, followUp, close).pending == s.pending
    ensures Taken(s, followUp, close).history == s.history
  {
    StepSound(s, Next(followUp, close));
    assert Step(s, Next(followUp, close)) == Taken(s, followUp, close);
  }

  /** `next` either hands out an input, or finds deferred context, or closes an empty queue. */
  lemma TakenCloses(s: State)
    ensures Chosen(s.pending, true).None? && FirstOf(s.pending, Context).None? ==>
      !Open(Taken(s, true, true)) && s.pending == []
  {
    FollowUpsWaitForSteering(s.pending, true);
  }

  lemma AppliedSound(s: State, kind: Kind)
    requires Sound(s) && FirstOf(s.pending, kind).Some?
    ensures
      var input := FirstOf(s.pending, kind).value;
      var t := Applied(s, input.id);
      && Moved(s, t)
      && t.history.applied == s.history.applied + [input]
      && Deliverable(input.message) && input.kind == kind
  {
    var input := FirstOf(s.pending, kind).value;
    SoundIff(s);
    QueuedOnce(s);
    ChosenIsHead(s.pending, kind);
    StepSound(s, Apply(input.id));
    assert Step(s, Apply(input.id)) == Applied(s, input.id);
    assert s.pending[Position(s.pending, input.id)] in s.pending;
  }

  // ----- catching up -----

  /** Every input of a kind that was accepted up to `s` is applied by `t`, in the order of acceptance. */
  ghost predicate CaughtUp(s: State, t: State, kind: Kind) {
    OfKind(s.history.accepted, kind) <= OfKind(t.history.applied, kind)
  }

  lemma OfKindPrefix(a: seq<Input>, b: seq<Input>, kind: Kind)
    requires a <= b
    ensures OfKind(a, kind) <= OfKind(b, kind)
  {
    assert b == a + b[|a|..];
    OfKindConcat(a, b[|a|..], kind);
  }

  /** What was caught up with stays so. */
  lemma CaughtUpOn(s: State, t: State, u: State, v: State, kind: Kind)
    requires Moved(s, t) && CaughtUp(t, u, kind) && Moved(u, v)
    ensures CaughtUp(s, v, kind)
  {
    OfKindPrefix(s.history.accepted, t.history.accepted, kind);
    OfKindPrefix(u.history.applied, v.history.applied, kind);
  }

  lemma {:induction false} NoneOfKind(q: seq<Queued>, kind: Kind)
    requires FirstOf(q, kind).None?
    ensures OfKind(Inputs(q), kind) == []
    decreases q
  {
    if q != [] {
      NoneOfKind(q[1..], kind);
      assert Inputs(q)[1..] == Inputs(q[1..]);
    }
  }

  lemma FifoOf(s: State, kind: Kind)
    requires Sound(s)
    ensures OfKind(s.history.applied, kind) + OfKind(Inputs(s.pending), kind) == OfKind(s.history.accepted, kind)
  {
    assert Holds(s, Order);
  }

  /** With none of a kind in the queue, everything of that kind is applied. */
  lemma EmptyCatchesUp(s: State, t: State, kind: Kind)
    requires Moved(s, t) && FirstOf(t.pending, kind).None?
    ensures CaughtUp(s, t, kind)
  {
    FifoOf(t, kind);
    NoneOfKind(t.pending, kind);
    OfKindPrefix(s.history.accepted, t.history.accepted, kind);
  }

  lemma {:induction false} AtMostQueued(q: seq<Queued>, kind: Kind)
    ensures |OfKind(Inputs(q), kind)| <= |q|
    decreases q
  {
    if q != [] {
      AtMostQueued(q[1..], kind);
      assert Inputs(q)[1..] == Inputs(q[1..]);
    }
  }

  lemma {:induction false} AllOfKind(batch: seq<Input>, kind: Kind)
    requires forall i :: 0 <= i < |batch| ==> batch[i].kind == kind
    ensures OfKind(batch, kind) == batch
    decreases batch
  {
    if batch != [] {
      AllOfKind(batch[1..], kind);
    }
  }

  /** As many inputs of a kind as the queue can hold were applied: that includes all of those queued at first. */
  lemma CountCatchesUp(s: State, t: State, kind: Kind, batch: seq<Input>)
    requires Sound(s) && Moved(s, t) && t.history.applied == s.history.applied + batch
    requires (forall i :: 0 <= i < |batch| ==> batch[i].kind == kind) && |s.pending| <= |batch|
    ensures CaughtUp(s, t, kind)
  {
    FifoOf(s, kind);
    FifoOf(t, kind);
    AtMostQueued(s.pending, kind);
    OfKindConcat(s.history.applied, batch, kind);
    AllOfKind(batch, kind);
    OfKindPrefix(s.history.accepted, t.history.accepted, kind);
    ShorterPrefix(OfKind(s.history.accepted, kind), OfKind(t.history.applied, kind), OfKind(t.history.accepted, kind));
  }

  lemma ShorterPrefix<X>(a: seq<X>, b: seq<X>, c: seq<X>)
    requires a <= c && b <= c && |a| <= |b|
    ensures a <= b
  {}

  lemma QueueBounded(s: State)
    requires Sound(s)
    ensures |s.pending| <= s.config.maxInputs
  {
    assert Holds(s, Accounting);
  }

  // ----- a run applies finitely many inputs -----

  lemma AppliedBounded(s: State)
    requires Sound(s)
    ensures |s.history.applied| <= s.nextId <= WORD_MAX
  {
    assert Holds(s, Identity) && Holds(s, Conservation);
    AppliedOnce(s);
    OnceDistinct(Ids(s.history.applied));
    DistinctBounded(Ids(s.history.applied), s.nextId);
  }
}
