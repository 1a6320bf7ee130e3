/** What holds over every run of a controlled run's state. */
module ControlRuns {
  import opened Wrappers
  import opened Control
  import T = Transcript

  // ----- first in, first out, kind by kind -----

  function OfKind(inputs: seq<Input>, kind: Kind): seq<Input> {
    if inputs == [] then []
    else if inputs[0].kind == kind then [inputs[0]] + OfKind(inputs[1..], kind)
    else OfKind(inputs[1..], kind)
  }

  /** Applied inputs followed by the queue are the accepted inputs, for each kind in the order of acceptance. */
  ghost predicate Fifo(s: State) {
    forall kind: Kind ::
      OfKind(s.history.applied, kind) + OfKind(Inputs(s.pending), kind) == OfKind(s.history.accepted, kind)
  }

  /** Whether nothing of the same kind is queued before position `i`. */
  ghost predicate Head(q: seq<Queued>, i: nat)
    requires i < |q|
  {
    forall j :: 0 <= j < i ==> q[j].input.kind != q[i].input.kind
  }

  /** The executor applies only what `next` or `next_context` handed it. */
  ghost predicate Disciplined(s: State, e: Event) {
    e.Apply? && Position(s.pending, e.id) < |s.pending| ==> Head(s.pending, Position(s.pending, e.id))
  }

  lemma {:induction false} OfKindConcat(a: seq<Input>, b: seq<Input>, kind: Kind)
    ensures OfKind(a + b, kind) == OfKind(a, kind) + OfKind(b, kind)
    decreases a
  {
    if a == [] {
      assert a + b == b;
    } else {
      OfKindConcat(a[1..], b, kind);
      assert (a + b)[1..] == a[1..] + b;
    }
  }

  lemma {:induction false} OfKindRemove(q: seq<Queued>, i: nat, kind: Kind)
    requires i < |q| && Head(q, i)
    ensures OfKind(Inputs(q), kind) == OfKind([q[i].input], kind) + OfKind(Inputs(Removed(q, i)), kind)
    decreases q
  {
    var q' := Removed(q, i);
    RemovedStep(q, i);
    assert Inputs(q)[1..] == Inputs(q[1..]);
    assert [q[i].input][1..] == [];
    if i > 0 {
      assert q[0].input.kind != q[i].input.kind;
      forall j | 0 <= j < i - 1 ensures q[1..][j].input.kind != q[1..][i - 1].input.kind {
        assert q[1..][j] == q[j + 1];
      }
      OfKindRemove(q[1..], i - 1, kind);
      assert Inputs(q')[1..] == Inputs(Removed(q[1..], i - 1));
    }
  }

  lemma EnqueueFifo(s: State, input: Input, bytes: nat)
    requires Fifo(s)
    ensures Fifo(Enqueue(s, input, bytes))
  {
    QueueAppend(s.pending, Queued(input, bytes));
    forall kind: Kind
      ensures OfKind(s.history.applied, kind) + OfKind(Inputs(s.pending) + [input], kind)
        == OfKind(s.history.accepted + [input], kind)
    {
      OfKindConcat(Inputs(s.pending), [input], kind);
      OfKindConcat(s.history.accepted, [input], kind);
      Assoc(OfKind(s.history.applied, kind), OfKind(Inputs(s.pending), kind), OfKind([input], kind));
    }
  }

  lemma ApplyFifo(s: State, id: nat)
    requires Fifo(s) && Disciplined(s, Apply(id))
    ensures Fifo(Applied(s, id))
  {
    var i := Position(s.pending, id);
    if i < |s.pending| {
      var input, rest := s.pending[i].input, Removed(s.pending, i);
      forall kind: Kind
        ensures OfKind(s.history.applied + [input], kind) + OfKind(Inputs(rest), kind)
          == OfKind(s.history.accepted, kind)
      {
        OfKindConcat(s.history.applied, [input], kind);
        OfKindRemove(s.pending, i, kind);
        Assoc(OfKind(s.history.applied, kind), OfKind([input], kind), OfKind(Inputs(rest), kind));
      }
    }
  }

  lemma StepFifo(s: State, e: Event)
    requires Fifo(s) && Disciplined(s, e)
    ensures Fifo(Step(s, e))
  {
    if e.Submit? {
      if SubmitFault(s, e.message, e.bytes, e.asyncOnly).None? {
        EnqueueFifo(s.(nextId := s.nextId + 1), Input(s.nextId, e.kind, e.message), e.bytes);
      }
    } else if e.Complete? {
      if Turn(s, e.ticket) && Deliverable(e.message) && CompleteFault(s, e.ticket, e.plain, e.bytes).None? {
        var t := s.(inflight := s.inflight[1..], inflightBytes := SatSub(s.inflightBytes, s.inflight[0].bytes));
        EnqueueFifo(t, Input(e.ticket, e.kind, e.message), e.bytes);
      }
    } else if e.Apply? {
      ApplyFifo(s, e.id);
    }
  }

  ghost predicate AllDisciplined(s: State, es: seq<Event>)
    decreases es
  {
    es == [] || (Disciplined(s, es[0]) && AllDisciplined(Step(s, es[0]), es[1..]))
  }

  /** Over a whole run hosts never reorder what the executor applies. */
  lemma {:induction false} RunFifo(s: State, es: seq<Event>)
    requires Fifo(s) && AllDisciplined(s, es)
    ensures Fifo(Run(s, es))
    decreases es
  {
    if es != [] {
      StepFifo(s, es[0]);
      RunFifo(Step(s, es[0]), es[1..]);
    }
  }

  /** What `next` and `next_context` return is the oldest queued input of its kind. */
  lemma {:induction false} ChosenIsHead(q: seq<Queued>, kind: Kind)
    requires FirstOf(q, kind).Some? && DistinctIds(q)
    ensures
      var i := Position(q, FirstOf(q, kind).value.id);
      i < |q| && q[i].input == FirstOf(q, kind).value && q[i].input.kind == kind && Head(q, i)
    decreases q
  {
    if q[0].input.kind != kind {
      DistinctTail(q);
      ChosenIsHead(q[1..], kind);
      var i := Position(q[1..], FirstOf(q, kind).value.id);
      assert q[i + 1] == q[1..][i];
      assert q[0].input.id != q[i + 1].input.id;
      forall j | 0 <= j < i + 1 ensures q[j].input.kind != q[i + 1].input.kind {
        assert j > 0 ==> q[j] == q[1..][j - 1];
      }
    }
  }

  ghost predicate DistinctIds(q: seq<Queued>) {
    forall i, j :: 0 <= i < j < |q| ==> q[i].input.id != q[j].input.id
  }

  lemma DistinctTail(q: seq<Queued>)
    requires q != [] && DistinctIds(q)
    ensures DistinctIds(q[1..])
  {
    forall i, j | 0 <= i < j < |q| - 1 ensures q[1..][i].input.id != q[1..][j].input.id {
      assert q[1..][i] == q[i + 1] && q[1..][j] == q[j + 1];
    }
  }

  lemma OnceDistinct(ids: seq<nat>)
    requires forall id <- ids :: multiset(ids)[id] == 1
    ensures forall i, j :: 0 <= i < j < |ids| ==> ids[i] != ids[j]
  {
    forall i, j | 0 <= i < j < |ids| ensures ids[i] != ids[j] {
      MultisetRemove(ids, i);
      assert ids[j] == ids[i + 1..][j - i - 1];
      assert ids[j] in Removed(ids, i) && ids[i] in ids;
    }
  }

  lemma CountedOnce(q: seq<Queued>)
    requires forall id <- Ids(Inputs(q)) :: multiset(Ids(Inputs(q)))[id] == 1
    ensures DistinctIds(q)
  {
    OnceDistinct(Ids(Inputs(q)));
    forall i, j | 0 <= i < j < |q| ensures q[i].input.id != q[j].input.id {
      IdAt(q, i);
      IdAt(q, j);
    }
  }

  lemma {:induction false} IdAt(q: seq<Queued>, i: nat)
    requires i < |q|
    ensures Ids(Inputs(q))[i] == q[i].input.id
    decreases q
  {
    if i > 0 {
      IdAt(q[1..], i - 1);
      assert Inputs(q)[1..] == Inputs(q[1..]);
    }
  }

  lemma QueuedOnce(s: State)
    requires Inv(s)
    ensures DistinctIds(s.pending)
  {
    var ids := Ids(Inputs(s.pending));
    forall id <- ids ensures multiset(ids)[id] == 1 {
      assert multiset(ids)[id] > 0;
      assert Used(s)[id] >= multiset(Ids(s.history.accepted))[id] >= multiset(ids)[id];
      assert id in Used(s);
    }
    CountedOnce(s.pending);
  }

  /** A follow-up is chosen only when no steering is queued. */
  lemma {:induction false} FirstOfNone(q: seq<Queued>, kind: Kind)
    ensures FirstOf(q, kind).None? <==> forall e <- q :: e.input.kind != kind
    ensures FirstOf(q, kind).Some? ==> FirstOf(q, kind).value.kind == kind
    decreases q
  {
    if q != [] {
      FirstOfNone(q[1..], kind);
      assert q == [q[0]] + q[1..];
    }
  }

  lemma FollowUpsWaitForSteering(q: seq<Queued>, followUp: bool)
    ensures Chosen(q, followUp).Some? && Chosen(q, followUp).value.kind.FollowUp? ==>
      followUp && forall e <- q :: !e.input.kind.Steer?
    ensures Chosen(q, followUp).None? && followUp && FirstOf(q, Context).None? <==>
      followUp && q == []
  {
    FirstOfNone(q, Steer);
    FirstOfNone(q, FollowUp);
    FirstOfNone(q, Context);
    if q != [] {
      assert q[0] in q;
    }
  }

  lemma {:induction false} FirstOfPrefix(q: seq<Queued>, q': seq<Queued>, kind: Kind)
    requires q <= q' && FirstOf(q, kind).Some?
    ensures FirstOf(q', kind) == FirstOf(q, kind)
    decreases q
  {
    assert q'[0] == q[0];
    if q[0].input.kind != kind {
      assert q[1..] <= q'[1..];
      FirstOfPrefix(q[1..], q'[1..], kind);
    }
  }

  lemma ChosenPrefix(q: seq<Queued>, q': seq<Queued>, followUp: bool)
    requires q <= q' && Chosen(q, followUp).Some?
    ensures Chosen(q', followUp).Some?
  {
    if FirstOf(q, Steer).Some? {
      FirstOfPrefix(q, q', Steer);
    } else {
      FirstOfPrefix(q, q', FollowUp);
    }
  }

  lemma ChosenKind(q: seq<Queued>, followUp: bool)
    requires Chosen(q, followUp).Some?
    ensures
      var kind := Chosen(q, followUp).value.kind;
      && (kind.Steer? || (followUp && kind.FollowUp?))
      && FirstOf(q, kind) == Chosen(q, followUp)
  {
    FirstOfNone(q, Steer);
    FirstOfNone(q, FollowUp);
  }

  // ----- the order of identifiers -----

  ghost predicate Rising(ids: seq<nat>) {
    forall i, j :: 0 <= i < j < |ids| ==> ids[i] < ids[j]
  }

  function QueueIds(s: State): seq<nat> {
    Ids(Inputs(s.pending))
  }

  function AppliedIds(s: State, kind: Kind): seq<nat> {
    Ids(OfKind(s.history.applied, kind))
  }

  function AcceptedIds(s: State, kind: Kind): seq<nat> {
    Ids(OfKind(s.history.accepted, kind))
  }

  lemma RisingAppend(ids: seq<nat>, x: nat)
    requires Rising(ids)
    ensures Rising(ids + [x]) <==> forall id <- ids :: id < x
  {
    var all := ids + [x];
    if Rising(all) {
      forall id <- ids ensures id < x {
        var i :| 0 <= i < |ids| && ids[i] == id;
        assert all[i] == id && all[|ids|] == x;
      }
    }
    if forall id <- ids :: id < x {
      forall i, j | 0 <= i < j < |all| ensures all[i] < all[j] {
        assert all[i] == ids[i] && ids[i] in ids;
        assert j < |ids| ==> all[j] == ids[j];
      }
    }
  }

  lemma RisesUnless(ids: seq<nat>, x: nat)
    requires Rising(ids) && x !in ids
    ensures Rising(ids + [x]) <==> !exists id <- ids :: id > x
  {
    RisingAppend(ids, x);
  }

  lemma RisingRemove(ids: seq<nat>, i: nat)
    requires Rising(ids) && i < |ids|
    ensures Rising(Removed(ids, i))
  {
    var rest := Removed(ids, i);
    forall j, k | 0 <= j < k < |rest| ensures rest[j] < rest[k] {
      assert rest[j] == ids[if j < i then j else j + 1] && rest[k] == ids[if k < i then k else k + 1];
    }
  }

  lemma RisingPrefix(a: seq<nat>, b: seq<nat>)
    requires Rising(a + b)
    ensures Rising(a)
  {
    assert forall i :: 0 <= i < |a| ==> (a + b)[i] == a[i];
  }

  /** Identifiers of accepted inputs are below the next one and are nobody else's. */
  lemma AcceptedApart(s: State, id: nat)
    requires Identities(s) && id in Ids(s.history.accepted)
    ensures id < s.nextId && id !in Tickets(s.inflight)
  {
    assert multiset(Ids(s.history.accepted))[id] > 0 && id in Used(s);
    assert id in Tickets(s.inflight) ==> multiset(Tickets(s.inflight))[id] > 0;
  }

  lemma QueuedAccepted(s: State, id: nat)
    requires Conserved(s) && (id in QueueIds(s) || id in Ids(s.history.applied))
    ensures id in Ids(s.history.accepted)
  {
    assert id in multiset(Ids(s.history.applied)) + multiset(QueueIds(s));
    assert id in multiset(Ids(s.history.accepted));
  }

  /** The step in which a reservation takes its place in the queue. */
  predicate Completes(s: State, e: Event) {
    e.Complete? && Turn(s, e.ticket) && Deliverable(e.message) && CompleteFault(s, e.ticket, e.plain, e.bytes).None?
  }

  /** A reservation completes behind a queued input with a later identifier. */
  predicate Overtaken(s: State, e: Event) {
    Completes(s, e) && exists q <- s.pending :: q.input.id > e.ticket
  }

  lemma {:induction false} QueueIdsOf(q: seq<Queued>, id: nat)
    ensures id in Ids(Inputs(q)) <==> exists e <- q :: e.input.id == id
    decreases q
  {
    if q != [] {
      QueueIdsOf(q[1..], id);
      assert q == [q[0]] + q[1..];
    }
  }

  lemma QueueGrows(s: State, input: Input, bytes: nat)
    ensures QueueIds(Enqueue(s, input, bytes)) == QueueIds(s) + [input.id]
  {
    QueueAppend(s.pending, Queued(input, bytes));
    IdsAppend(Inputs(s.pending), input);
  }

  lemma SubmitRising(s: State, e: Event)
    requires Identities(s) && Conserved(s) && Rising(QueueIds(s)) && e.Submit?
    ensures Rising(QueueIds(Step(s, e)))
  {
    if SubmitFault(s, e.message, e.bytes, e.asyncOnly).None? {
      QueueGrows(s.(nextId := s.nextId + 1), Input(s.nextId, e.kind, e.message), e.bytes);
      forall id <- QueueIds(s) ensures id < s.nextId {
        QueuedAccepted(s, id);
        AcceptedApart(s, id);
      }
      RisingAppend(QueueIds(s), s.nextId);
    }
  }

  lemma CompleteRisingIff(s: State, e: Event)
    requires Identities(s) && Conserved(s) && Rising(QueueIds(s)) && Completes(s, e)
    ensures Rising(QueueIds(Step(s, e))) <==> !Overtaken(s, e)
  {
    CompleteGrows(s, e);
    TicketApart(s);
    RisesUnless(QueueIds(s), e.ticket);
    LaterQueued(s.pending, e.ticket);
  }

  lemma CompleteGrows(s: State, e: Event)
    requires Completes(s, e)
    ensures QueueIds(Step(s, e)) == QueueIds(s) + [e.ticket]
  {
    QueueGrows(s, Input(e.ticket, e.kind, e.message), e.bytes);
  }

  lemma TicketApart(s: State)
    requires Identities(s) && Conserved(s) && s.inflight != []
    ensures s.inflight[0].id !in QueueIds(s)
  {
    var ticket := s.inflight[0].id;
    assert Tickets(s.inflight)[0] == ticket;
    if ticket in QueueIds(s) {
      QueuedAccepted(s, ticket);
      AcceptedApart(s, ticket);
    }
  }

  lemma LaterQueued(q: seq<Queued>, id: nat)
    ensures (exists other <- Ids(Inputs(q)) :: other > id) <==> exists e <- q :: e.input.id > id
  {
    forall other ensures other in Ids(Inputs(q)) <==> exists e <- q :: e.input.id == other {
      QueueIdsOf(q, other);
    }
    assert forall e <- q :: e.input.id in Ids(Inputs(q));
  }

  lemma ApplyRising(s: State, id: nat)
    requires Rising(QueueIds(s))
    ensures Rising(QueueIds(Applied(s, id)))
  {
    var i := Position(s.pending, id);
    if i < |s.pending| {
      QueueRemove(s.pending, i);
      IdsRemove(Inputs(s.pending), i);
      RisingRemove(QueueIds(s), i);
    }
  }

  /** Which steps touch the queue and the histories of inputs. */
  lemma OtherwiseUnchanged(s: State, e: Event)
    ensures !Completes(s, e) && !e.Submit? ==> Step(s, e).history.accepted == s.history.accepted
    ensures !Completes(s, e) && !e.Submit? && !e.Apply? ==> Step(s, e).pending == s.pending
    ensures !e.Apply? ==> Step(s, e).history.applied == s.history.applied
  {}

  /** A step takes the queue out of identifier order exactly when it completes a reservation that was overtaken. */
  lemma QueueRisesIff(s: State, e: Event)
    requires Inv(s) && Rising(QueueIds(s))
    ensures Rising(QueueIds(Step(s, e))) <==> !Overtaken(s, e)
  {
    OtherwiseUnchanged(s, e);
    if Completes(s, e) {
      CompleteRisingIff(s, e);
    } else if e.Submit? {
      SubmitRising(s, e);
    } else if e.Apply? {
      ApplyRising(s, e.id);
    }
  }

  /** A list of identifiers read off the state is in order in every state a run goes through. */
  ghost predicate AlwaysRising(ids: State -> seq<nat>, s: State, es: seq<Event>) {
    forall k: nat :: k <= |es| ==> Rising(ids(Run(s, es[..k])))
  }

  lemma AlwaysRisingStep(ids: State -> seq<nat>, s: State, es: seq<Event>)
    ensures es == [] ==> (AlwaysRising(ids, s, es) <==> Rising(ids(s)))
    ensures es != [] ==>
      (AlwaysRising(ids, s, es) <==> Rising(ids(s)) && AlwaysRising(ids, Step(s, es[0]), es[1..]))
  {
    assert es[..0] == [] && Run(s, es[..0]) == s;
    if es != [] {
      forall k: nat | k < |es| ensures Run(s, es[..k + 1]) == Run(Step(s, es[0]), es[1..][..k]) {
        RunPrefix(s, es, k);
      }
      if AlwaysRising(ids, s, es) {
        forall k: nat | k <= |es[1..]| ensures Rising(ids(Run(Step(s, es[0]), es[1..][..k]))) {
          assert Rising(ids(Run(s, es[..k + 1])));
        }
      }
      if Rising(ids(s)) && AlwaysRising(ids, Step(s, es[0]), es[1..]) {
        forall k: nat | k <= |es| ensures Rising(ids(Run(s, es[..k]))) {
          assert k > 0 ==> Rising(ids(Run(Step(s, es[0]), es[1..][..k - 1])));
        }
      }
    }
  }

  predicate NeverOvertaken(s: State, es: seq<Event>)
    decreases es
  {
    es == [] || (!Overtaken(s, es[0]) && NeverOvertaken(Step(s, es[0]), es[1..]))
  }

  /** Identifiers increase along the queue in every state of a run exactly when no reservation completes overtaken. */
  lemma {:induction false} QueueAlwaysRisesIff(s: State, es: seq<Event>)
    requires Inv(s) && Rising(QueueIds(s))
    ensures AlwaysRising(QueueIds, s, es) <==> NeverOvertaken(s, es)
    decreases es
  {
    AlwaysRisingStep(QueueIds, s, es);
    if es != [] {
      QueueRisesIff(s, es[0]);
      StepKeeps(s, es[0]);
      if !Overtaken(s, es[0]) {
        QueueAlwaysRisesIff(Step(s, es[0]), es[1..]);
      } else {
        AlwaysRisingStep(QueueIds, Step(s, es[0]), es[1..]);
      }
    }
  }

  /** Right after an accepted submission some step can overtake, exactly when a reservation is outstanding. */
  lemma SubmitRisksOvertakingIff(s: State, e: Event)
    requires Inv(s) && e.Submit? && SubmitFault(s, e.message, e.bytes, e.asyncOnly).None?
    ensures (exists next :: Overtaken(Step(s, e), next)) <==> s.inflight != []
  {
    var t := Step(s, e);
    assert t.inflight == s.inflight && t.pending == s.pending + [Queued(Input(s.nextId, e.kind, e.message), e.bytes)];
    if s.inflight != [] {
      OutstandingBelow(s);
      CanOvertake(t, e.message, |s.pending|);
    }
  }

  lemma OutstandingBelow(s: State)
    requires Identities(s) && s.inflight != []
    ensures s.inflight[0].id < s.nextId
  {
    var ticket := s.inflight[0].id;
    assert Tickets(s.inflight)[0] == ticket;
    assert multiset(Tickets(s.inflight))[ticket] > 0 && ticket in Used(s);
  }

  lemma CanOvertake(t: State, message: T.Message, i: nat)
    requires Open(t) && !t.cancelled && Deliverable(message) && t.inflight != []
    requires i < |t.pending| && t.pending[i].input.id > t.inflight[0].id
    ensures exists e :: Overtaken(t, e)
  {
    assert t.pending[i] in t.pending;
    assert Overtaken(t, Complete(t.inflight[0].id, Steer, message, 0, 0));
  }

  /** When reservations are in play a synchronous submission can overtake one, and the queue is then out of order. */
  lemma ReservationsOvertaken(m: T.Message)
    requires UserInput(m)
    ensures
      var run := [Reserve(1, false, false), Submit(Steer, m, 1, false), Complete(1, Steer, m, 1, 1)];
      Ids(Inputs(Run(Fresh(Config(2, 1, 2)), run).pending)) == [2, 1]
  {
    var s := OvertakenState(m);
    IdAt(s.pending, 0);
    IdAt(s.pending, 1);
  }

  lemma OvertakenState(m: T.Message) returns (s: State)
    requires UserInput(m)
    ensures s == Run(Fresh(Config(2, 1, 2)),
                     [Reserve(1, false, false), Submit(Steer, m, 1, false), Complete(1, Steer, m, 1, 1)])
    ensures s.pending == [Queued(Input(2, Steer, m), 1), Queued(Input(1, Steer, m), 1)] && s.history.applied == []
  {
    var s0 := Fresh(Config(2, 1, 2));
    var e0, e1, e2 := Reserve(1, false, false), Submit(Steer, m, 1, false), Complete(1, Steer, m, 1, 1);
    var s1 := Step(s0, e0);
    assert s1.inflight == [Reservation(1, 1)] && s1.nextId == 2;
    var s2 := Step(s1, e1);
    assert s2.pending == [Queued(Input(2, Steer, m), 1)];
    s := Step(s2, e2);
    RunThree(s0, e0, e1, e2);
  }

  lemma RunThree(s: State, a: Event, b: Event, c: Event)
    ensures Run(s, [a, b, c]) == Step(Step(Step(s, a), b), c)
  {
    assert [a, b, c][1..] == [b, c] && [b, c][1..] == [c] && [c][1..] == [];
    var t := Step(s, a);
    var u := Step(t, b);
    assert Run(u, [c]) == Run(Step(u, c), []);
    assert Run(t, [b, c]) == Run(u, [c]);
  }

  lemma RunTwo(s: State, a: Event, b: Event)
    ensures Run(s, [a, b]) == Step(Step(s, a), b)
  {
    assert [a, b][1..] == [b] && [b][1..] == [];
    assert Run(Step(s, a), [b]) == Run(Step(Step(s, a), b), []);
  }

  lemma {:induction false} RunConcat(s: State, a: seq<Event>, b: seq<Event>)
    ensures Run(s, a + b) == Run(Run(s, a), b)
    decreases a
  {
    if a == [] {
      assert a + b == b;
    } else {
      RunConcat(Step(s, a[0]), a[1..], b);
      assert (a + b)[1..] == a[1..] + b;
    }
  }

  /** Steps that apply nothing ask no discipline. */
  lemma {:induction false} DisciplinedAfter(s: State, a: seq<Event>, b: seq<Event>)
    requires (forall e <- a :: !e.Apply?) && AllDisciplined(Run(s, a), b)
    ensures AllDisciplined(s, a + b)
    decreases a
  {
    if a == [] {
      assert a + b == b;
    } else {
      assert a[0] in a && forall e <- a[1..] :: e in a;
      DisciplinedAfter(Step(s, a[0]), a[1..], b);
      assert (a + b)[1..] == a[1..] + b;
    }
  }

  // ----- the order of what is applied -----

  lemma KindGrows(inputs: seq<Input>, input: Input, kind: Kind)
    ensures Ids(OfKind(inputs + [input], kind)) ==
      if input.kind == kind then Ids(OfKind(inputs, kind)) + [input.id] else Ids(OfKind(inputs, kind))
  {
    var before := OfKind(inputs, kind);
    OfKindConcat(inputs, [input], kind);
    assert [input][1..] == [] && before + [] == before && [input] + [] == [input];
    assert OfKind([input], kind) == if input.kind == kind then [input] else [];
    if input.kind == kind {
      IdsAppend(before, input);
    }
  }

  lemma {:induction false} OfKindIds(inputs: seq<Input>, kind: Kind)
    ensures forall id <- Ids(OfKind(inputs, kind)) :: id in Ids(inputs)
    decreases inputs
  {
    if inputs != [] {
      OfKindIds(inputs[1..], kind);
    }
  }

  lemma ApplyGrows(s: State, i: nat, kind: Kind)
    requires i < |s.pending| && Position(s.pending, s.pending[i].input.id) == i
    ensures
      var input := s.pending[i].input;
      AppliedIds(Applied(s, input.id), kind) ==
        if input.kind == kind then AppliedIds(s, kind) + [input.id] else AppliedIds(s, kind)
  {
    KindGrows(s.history.applied, s.pending[i].input, kind);
  }

  /** A reservation completes after an input of its kind with a later identifier was accepted. */
  predicate OvertakenInKind(s: State, e: Event, kind: Kind) {
    Completes(s, e) && e.kind == kind && exists id <- AcceptedIds(s, kind) :: id > e.ticket
  }

  /** A step takes the accepted inputs of a kind out of order exactly when it completes one that was overtaken. */
  lemma AcceptedRisesIff(s: State, e: Event, kind: Kind)
    requires Inv(s) && Rising(AcceptedIds(s, kind))
    ensures Rising(AcceptedIds(Step(s, e), kind)) <==> !OvertakenInKind(s, e, kind)
  {
    OtherwiseUnchanged(s, e);
    if Completes(s, e) || e.Submit? {
      AcceptedKindApart(s, kind);
      var id := if e.Submit? then s.nextId else e.ticket;
      KindGrows(s.history.accepted, Input(id, e.kind, e.message), kind);
      RisesUnless(AcceptedIds(s, kind), id);
      AcceptedBy(s, e);
    }
  }

  lemma AcceptedKindApart(s: State, kind: Kind)
    requires Identities(s)
    ensures forall id <- AcceptedIds(s, kind) :: id < s.nextId
    ensures s.inflight != [] ==> s.inflight[0].id !in AcceptedIds(s, kind)
  {
    OfKindIds(s.history.accepted, kind);
    forall id <- AcceptedIds(s, kind) ensures id < s.nextId && id !in Tickets(s.inflight) {
      AcceptedApart(s, id);
    }
    assert s.inflight != [] ==> Tickets(s.inflight)[0] == s.inflight[0].id;
  }

  lemma AcceptedBy(s: State, e: Event)
    requires Completes(s, e) || e.Submit?
    ensures Step(s, e).history.accepted ==
      if e.Complete? then s.history.accepted + [Input(e.ticket, e.kind, e.message)]
      else if SubmitFault(s, e.message, e.bytes, e.asyncOnly).None? then
        s.history.accepted + [Input(s.nextId, e.kind, e.message)]
      else s.history.accepted
  {}

  /** What is applied of a kind is in order when what was accepted is, and once all of it is applied, only then. */
  lemma AppliedInOrder(s: State, kind: Kind)
    requires Fifo(s)
    ensures Rising(AcceptedIds(s, kind)) ==> Rising(AppliedIds(s, kind))
    ensures OfKind(Inputs(s.pending), kind) == [] ==> (Rising(AppliedIds(s, kind)) <==> Rising(AcceptedIds(s, kind)))
  {
    var done, rest := OfKind(s.history.applied, kind), OfKind(Inputs(s.pending), kind);
    assert done + rest == OfKind(s.history.accepted, kind);
    IdsConcat(done, rest);
    if Rising(Ids(done) + Ids(rest)) {
      RisingPrefix(Ids(done), Ids(rest));
    }
  }

  lemma {:induction false} IdsConcat(a: seq<Input>, b: seq<Input>)
    ensures Ids(a + b) == Ids(a) + Ids(b)
    decreases a
  {
    if a == [] {
      assert a + b == b;
    } else {
      IdsConcat(a[1..], b);
      assert (a + b)[0] == a[0] && (a + b)[1..] == a[1..] + b;
      Assoc([a[0].id], Ids(a[1..]), Ids(b));
    }
  }

  /** A step only adds to the accepted inputs of a kind, one at a time; an overtaken reservation adds its own. */
  lemma AcceptedGrows(s: State, e: Event, kind: Kind)
    ensures AcceptedIds(s, kind) <= AcceptedIds(Step(s, e), kind)
    ensures |AcceptedIds(Step(s, e), kind)| <= |AcceptedIds(s, kind)| + 1
    ensures OvertakenInKind(s, e, kind) ==> AcceptedIds(Step(s, e), kind) == AcceptedIds(s, kind) + [e.ticket]
  {
    OtherwiseUnchanged(s, e);
    if Completes(s, e) || e.Submit? {
      var id := if e.Submit? then s.nextId else e.ticket;
      KindGrows(s.history.accepted, Input(id, e.kind, e.message), kind);
      AcceptedBy(s, e);
    }
  }

  lemma AppliedGrows(s: State, e: Event, kind: Kind)
    ensures AppliedIds(s, kind) <= AppliedIds(Step(s, e), kind)
  {
    OtherwiseUnchanged(s, e);
    if e.Apply? && Position(s.pending, e.id) < |s.pending| {
      ApplyGrows(s, Position(s.pending, e.id), kind);
    }
  }

  lemma {:induction false} RunGrows(s: State, es: seq<Event>, k: nat, kind: Kind)
    requires k <= |es|
    ensures AcceptedIds(s, kind) <= AcceptedIds(Run(s, es), kind)
    ensures AppliedIds(Run(s, es[..k]), kind) <= AppliedIds(Run(s, es), kind)
    decreases es
  {
    if es == [] {
      assert es[..k] == [];
    } else {
      AcceptedGrows(s, es[0], kind);
      AppliedGrows(s, es[0], kind);
      RunGrows(Step(s, es[0]), es[1..], if k == 0 then 0 else k - 1, kind);
      if k == 0 {
        assert es[..k] == [] && es[1..][..0] == [];
      } else {
        RunPrefix(s, es, k - 1);
      }
    }
  }

  lemma RisingFirst(ids: seq<nat>, more: seq<nat>)
    requires ids <= more && Rising(more)
    ensures Rising(ids)
  {
    assert more == ids + more[|ids|..];
    RisingPrefix(ids, more[|ids|..]);
  }

  /** No reservation of a kind completes overtaken. */
  predicate NeverOvertakenInKind(s: State, es: seq<Event>, kind: Kind)
    decreases es
  {
    es == [] || (!OvertakenInKind(s, es[0], kind) && NeverOvertakenInKind(Step(s, es[0]), es[1..], kind))
  }

  /** Over a run the accepted identifiers of a kind increase exactly when no reservation of it completes overtaken. */
  lemma {:induction false} AcceptedAlwaysRisesIff(s: State, es: seq<Event>, kind: Kind)
    requires Inv(s) && Rising(AcceptedIds(s, kind))
    ensures AlwaysRising(t => AcceptedIds(t, kind), s, es) <==> NeverOvertakenInKind(s, es, kind)
    decreases es
  {
    var ids := t => AcceptedIds(t, kind);
    AlwaysRisingStep(ids, s, es);
    if es != [] {
      AcceptedRisesIff(s, es[0], kind);
      StepKeeps(s, es[0]);
      if !OvertakenInKind(s, es[0], kind) {
        AcceptedAlwaysRisesIff(Step(s, es[0]), es[1..], kind);
      } else {
        AlwaysRisingStep(ids, Step(s, es[0]), es[1..]);
      }
    }
  }

  /** None of the first `n` inputs of a kind to be accepted is a reservation that completed overtaken. */
  predicate FirstNotOvertaken(s: State, es: seq<Event>, kind: Kind, n: nat)
    decreases es
  {
    es == [] ||
    (&& (OvertakenInKind(s, es[0], kind) ==> n <= |AcceptedIds(s, kind)|)
     && FirstNotOvertaken(Step(s, es[0]), es[1..], kind, n))
  }

  function First(ids: seq<nat>, n: nat): seq<nat> {
    if n <= |ids| then ids[..n] else ids
  }

  /** The first `n` accepted identifiers of a kind increase exactly when none of them was overtaken. */
  lemma {:induction false} FirstRisesIff(s: State, es: seq<Event>, kind: Kind, n: nat)
    requires Inv(s) && Rising(First(AcceptedIds(s, kind), n))
    ensures Rising(First(AcceptedIds(Run(s, es), kind), n)) <==> FirstNotOvertaken(s, es, kind, n)
    decreases es
  {
    if es != [] {
      var t := Step(s, es[0]);
      StepKeeps(s, es[0]);
      FirstStep(s, es[0], kind, n);
      if Rising(First(AcceptedIds(t, kind), n)) {
        FirstRisesIff(t, es[1..], kind, n);
      } else {
        RunGrows(t, es[1..], 0, kind);
        FirstGrows(AcceptedIds(t, kind), AcceptedIds(Run(t, es[1..]), kind), n);
      }
    }
  }

  lemma FirstStep(s: State, e: Event, kind: Kind, n: nat)
    requires Inv(s) && Rising(First(AcceptedIds(s, kind), n))
    ensures Rising(First(AcceptedIds(Step(s, e), kind), n)) <==>
      (OvertakenInKind(s, e, kind) ==> n <= |AcceptedIds(s, kind)|)
  {
    AcceptedGrows(s, e, kind);
    FirstOfGrown(AcceptedIds(s, kind), AcceptedIds(Step(s, e), kind), n);
    if |AcceptedIds(s, kind)| < n {
      AcceptedRisesIff(s, e, kind);
    }
  }

  lemma FirstOfGrown(ids: seq<nat>, more: seq<nat>, n: nat)
    requires ids <= more && |more| <= |ids| + 1
    ensures if |ids| < n then First(ids, n) == ids && First(more, n) == more else First(more, n) == First(ids, n)
  {}

  lemma FirstGrows(ids: seq<nat>, more: seq<nat>, n: nat)
    requires ids <= more
    ensures Rising(First(more, n)) ==> Rising(First(ids, n))
  {
    if Rising(First(more, n)) {
      RisingFirst(First(ids, n), First(more, n));
    }
  }

  /** An input that completed overtaken is among the accepted ones, so looking at all of those misses none. */
  lemma {:induction false} AllNotOvertaken(s: State, es: seq<Event>, kind: Kind, n: nat)
    ensures NeverOvertakenInKind(s, es, kind) ==> FirstNotOvertaken(s, es, kind, n)
    ensures |AcceptedIds(Run(s, es), kind)| <= n && FirstNotOvertaken(s, es, kind, n) ==>
      NeverOvertakenInKind(s, es, kind)
    decreases es
  {
    if es != [] {
      AllNotOvertaken(Step(s, es[0]), es[1..], kind, n);
      AcceptedGrows(s, es[0], kind);
      RunGrows(Step(s, es[0]), es[1..], 0, kind);
    }
  }

  /** The histories only grow, so the last state of a run decides. */
  lemma LastDecides(s: State, es: seq<Event>, kind: Kind)
    ensures AlwaysRising(t => AppliedIds(t, kind), s, es) <==> Rising(AppliedIds(Run(s, es), kind))
  {
    assert es[..|es|] == es;
    if Rising(AppliedIds(Run(s, es), kind)) {
      forall k: nat | k <= |es| ensures Rising(AppliedIds(Run(s, es[..k]), kind)) {
        RunGrows(s, es, k, kind);
        RisingFirst(AppliedIds(Run(s, es[..k]), kind), AppliedIds(Run(s, es), kind));
      }
    }
  }

  lemma AppliedIsFirst(s: State, kind: Kind)
    requires Fifo(s)
    ensures AppliedIds(s, kind) == First(AcceptedIds(s, kind), |AppliedIds(s, kind)|)
    ensures OfKind(Inputs(s.pending), kind) == [] ==> AppliedIds(s, kind) == AcceptedIds(s, kind)
  {
    var done, rest := OfKind(s.history.applied, kind), OfKind(Inputs(s.pending), kind);
    assert done + rest == OfKind(s.history.accepted, kind);
    IdsConcat(done, rest);
  }

  /**
   * Over a run the applied identifiers of a kind increase exactly when no reservation that completed overtaken is
   * among those applied. It is enough that none completes overtaken, and necessary once the kind is drained.
   */
  lemma AppliedAlwaysRisesIff(s: State, es: seq<Event>, kind: Kind)
    requires Inv(s) && Fifo(s) && AllDisciplined(s, es) && Rising(AcceptedIds(s, kind))
    ensures AlwaysRising(t => AppliedIds(t, kind), s, es) <==>
      FirstNotOvertaken(s, es, kind, |AppliedIds(Run(s, es), kind)|)
    ensures NeverOvertakenInKind(s, es, kind) ==> AlwaysRising(t => AppliedIds(t, kind), s, es)
    ensures OfKind(Inputs(Run(s, es).pending), kind) == [] ==>
      (AlwaysRising(t => AppliedIds(t, kind), s, es) <==> NeverOvertakenInKind(s, es, kind))
  {
    RunFifo(s, es);
    AppliedRises(s, es, kind);
    AppliedIsFirst(Run(s, es), kind);
    AllNotOvertaken(s, es, kind, |AppliedIds(Run(s, es), kind)|);
  }

  lemma AppliedRises(s: State, es: seq<Event>, kind: Kind)
    requires Inv(s) && Fifo(s) && AllDisciplined(s, es) && Rising(AcceptedIds(s, kind))
    ensures AlwaysRising(t => AppliedIds(t, kind), s, es) <==>
      FirstNotOvertaken(s, es, kind, |AppliedIds(Run(s, es), kind)|)
  {
    var n := |AppliedIds(Run(s, es), kind)|;
    RunFifo(s, es);
    LastDecides(s, es, kind);
    AppliedIsFirst(Run(s, es), kind);
    FirstGrows(First(AcceptedIds(s, kind), n), AcceptedIds(s, kind), |AcceptedIds(s, kind)|);
    FirstRisesIff(s, es, kind, n);
  }

  /** A run in which the executor applies the oldest steering input each time, and applies 2 before 1. */
  lemma AppliedOutOfOrder(m: T.Message)
    requires UserInput(m)
    ensures
      var s := Fresh(Config(2, 1, 2));
      var accepted := [Reserve(1, false, false), Submit(Steer, m, 1, false), Complete(1, Steer, m, 1, 1)];
      var run := accepted + [Apply(2), Apply(1)];
      AllDisciplined(s, run) && AppliedIds(Run(s, run), Steer) == [2, 1]
  {
    var s := Fresh(Config(2, 1, 2));
    var accepted := [Reserve(1, false, false), Submit(Steer, m, 1, false), Complete(1, Steer, m, 1, 1)];
    var t := OvertakenState(m);
    var first, second := Input(2, Steer, m), Input(1, Steer, m);
    TwoApplied(t, Queued(first, 1), Queued(second, 1));
    RunConcat(s, accepted, [Apply(2), Apply(1)]);
    DisciplinedAfter(s, accepted, [Apply(2), Apply(1)]);
    KindGrows([], first, Steer);
    KindGrows([first], second, Steer);
    assert [] + [first] == [first] && [first] + [second] == [first, second];
  }

  /** Two queued inputs applied in the order of the queue. */
  lemma TwoApplied(s: State, a: Queued, b: Queued)
    requires s.pending == [a, b] && a.input.id != b.input.id && s.history.applied == []
    ensures
      var es := [Apply(a.input.id), Apply(b.input.id)];
      AllDisciplined(s, es) && Run(s, es).history.applied == [a.input, b.input]
  {
    var e, f := Apply(a.input.id), Apply(b.input.id);
    var t := Step(s, e);
    assert Position(s.pending, e.id) == 0 && Removed(s.pending, 0) == [b];
    assert t.pending == [b] && t.history.applied == [a.input];
    assert Position(t.pending, f.id) == 0;
    RunTwo(s, e, f);
    assert [e, f][1..] == [f] && [f][1..] == [];
    assert AllDisciplined(t, [f]);
  }

  // ----- a run applies finitely many inputs -----

  lemma {:induction false} DistinctBounded(ids: seq<nat>, bound: nat)
    requires forall i, j :: 0 <= i < j < |ids| ==> ids[i] != ids[j]
    requires forall id <- ids :: id < bound
    ensures |ids| <= bound
    decreases bound
  {
    assert ids != [] ==> ids[0] in ids;
    if bound > 0 {
      if bound - 1 in ids {
        var k :| 0 <= k < |ids| && ids[k] == bound - 1;
        var rest := Removed(ids, k);
        assert forall i :: 0 <= i < |rest| ==> rest[i] == ids[if i < k then i else i + 1];
        forall id <- rest ensures id < bound - 1 {
          var i :| 0 <= i < |rest| && rest[i] == id;
          assert ids[if i < k then i else i + 1] in ids;
        }
        DistinctBounded(rest, bound - 1);
      } else {
        DistinctBounded(ids, bound - 1);
      }
    }
  }

  lemma AppliedOnce(s: State)
    requires Identities(s) && Conserved(s)
    ensures forall id <- Ids(s.history.applied) :: multiset(Ids(s.history.applied))[id] == 1
    ensures forall id <- Ids(s.history.applied) :: id < s.nextId
  {
    var ids := Ids(s.history.applied);
    forall id <- ids ensures multiset(ids)[id] == 1 && id < s.nextId {
      assert multiset(ids)[id] > 0;
      assert Used(s)[id] >= multiset(Ids(s.history.accepted))[id] >= multiset(ids)[id];
      assert id in Used(s);
    }
  }

  // ----- closing -----

  /** A closed run never reopens, and accepts nothing more. */
  lemma ClosedStep(s: State, e: Event)
    requires !Open(s)
    ensures !Open(Step(s, e)) && Step(s, e).history.accepted == s.history.accepted
    ensures s.pending == [] ==> Step(s, e).pending == []
  {}

  lemma {:induction false} ClosedForever(s: State, es: seq<Event>)
    requires !Open(s)
    ensures !Open(Run(s, es)) && Run(s, es).history.accepted == s.history.accepted
    ensures s.pending == [] ==> Run(s, es).pending == []
    decreases es
  {
    if es != [] {
      ClosedStep(s, es[0]);
      ClosedForever(Step(s, es[0]), es[1..]);
    }
  }

  /** When `next` closes a run it was looking for follow-ups in, nothing accepted is left behind. */
  lemma NextClosesEmpty(s: State, followUp: bool)
    requires Open(s)
    ensures !Open(Taken(s, followUp, true)) && followUp <==> followUp && s.pending == []
  {
    FollowUpsWaitForSteering(s.pending, followUp);
  }

  // ----- approvals -----

  /** What the waiter of an approval has been told: nothing yet, or a decision; a dropped sender reads as Deny. */
  function Waiter(s: State, id: nat): Option<Decision> {
    if s.approval.Some? && s.approval.value.id == id then None
    else Some(if id in s.history.answers then s.history.answers[id] else Deny)
  }

  /** What one step can tell the waiter of the pending approval. */
  lemma WaiterStep(s: State, e: Event, id: nat)
    requires Approvals(s) && id in s.history.asked && Waiter(s, id).None?
    ensures
      if e.Respond? && e.id == id && !e.gone && RespondFault(s, id, e.decision).None? then
        Waiter(Step(s, e), id) == Some(e.decision)
      else Waiter(Step(s, e), id).None? || Waiter(Step(s, e), id) == Some(Deny)
    ensures !Open(Step(s, e)) ==> Waiter(Step(s, e), id) == Some(Deny)
    ensures id in Step(s, e).history.asked
  {}

  lemma AnsweredStep(s: State, e: Event, id: nat)
    requires Approvals(s) && Identities(s) && id in s.history.asked && Waiter(s, id).Some?
    ensures id in Step(s, e).history.asked && Waiter(Step(s, e), id) == Waiter(s, id)
  {
    AskedUsed(s, id);
  }

  /** An approval is answered at most once: nothing changes what its waiter was told. */
  lemma {:induction false} AnswersAreFinal(s: State, es: seq<Event>, id: nat)
    requires Inv(s) && id in s.history.asked && Waiter(s, id).Some?
    ensures Waiter(Run(s, es), id) == Waiter(s, id)
    decreases es
  {
    if es != [] {
      StepKeeps(s, es[0]);
      AnsweredStep(s, es[0], id);
      AnswersAreFinal(Step(s, es[0]), es[1..], id);
    }
  }

  lemma RunPrefix(s: State, es: seq<Event>, k: nat)
    requires k < |es|
    ensures Run(s, es[..k + 1]) == Run(Step(s, es[0]), es[1..][..k])
  {
    assert es[..k + 1][0] == es[0] && es[..k + 1][1..] == es[1..][..k];
  }

  /** The first step of a run, seen from the waiter of a pending approval. */
  lemma Peel(s: State, es: seq<Event>, id: nat) returns (next: State)
    requires Inv(s) && id in s.history.asked && Waiter(s, id).None? && es != []
    ensures Inv(next) && id in next.history.asked
    ensures Run(s, es) == Run(next, es[1..])
    ensures forall k: nat :: k < |es| ==> Run(s, es[..k + 1]) == Run(next, es[1..][..k])
    ensures Waiter(next, id).Some? && Waiter(next, id) != Some(Deny) ==>
      es[0] == Respond(id, Waiter(next, id).value, false) && RespondFault(s, id, Waiter(next, id).value).None?
  {
    next := Step(s, es[0]);
    StepKeeps(s, es[0]);
    WaiterStep(s, es[0], id);
    forall k: nat | k < |es| ensures Run(s, es[..k + 1]) == Run(next, es[1..][..k]) {
      RunPrefix(s, es, k);
    }
  }

  /** Permission comes from a response that named this approval while it was pending in a running, uncancelled run. */
  lemma {:induction false} AllowedOnlyByResponse(s: State, es: seq<Event>, id: nat) returns (k: nat)
    requires Inv(s) && id in s.history.asked && Waiter(s, id).None?
    requires Waiter(Run(s, es), id).Some? && Waiter(Run(s, es), id) != Some(Deny)
    ensures k < |es| && es[k] == Respond(id, Waiter(Run(s, es), id).value, false)
    ensures RespondFault(Run(s, es[..k]), id, es[k].decision).None?
    decreases es
  {
    var next := Peel(s, es, id);
    if Waiter(next, id).Some? {
      AnswersAreFinal(next, es[1..], id);
      k := 0;
      assert es[..0] == [];
    } else {
      k := AllowedOnlyByResponse(next, es[1..], id);
      k := k + 1;
    }
  }
}
