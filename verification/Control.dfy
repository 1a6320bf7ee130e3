/** The shared state of one controlled run, and what each of its locked sections does to it. */
module Control {
  import opened Wrappers
  import T = Transcript

  type Message = T.Message

  const MAX_PREPARED_BYTES: nat := 4 * 2 * 1024 * 1024

  datatype Kind = Steer | FollowUp | Context
  datatype Status = Waiting | Running | Finishing | Finished | Dropped
  datatype Decision = Deny | AllowOnce | AllowSession

  datatype ControlError =
    | Closed | InputPreparationRequired | InputBindingMismatch | QueueFull
    | InputTooLarge | InvalidInput | UnknownApproval | InvalidApprovalDecision

  datatype Config = Config(maxInputs: nat, maxInputBytes: nat, maxBytes: nat)
  datatype Input = Input(id: nat, kind: Kind, message: Message)
  datatype Queued = Queued(input: Input, bytes: nat)
  datatype Reservation = Reservation(id: nat, bytes: nat)
  datatype Approval = Approval(id: nat, hasSession: bool)

  /** What happened so far: inputs accepted and applied, approvals asked for, and the answers their waiters got. */
  datatype History = History(accepted: seq<Input>, applied: seq<Input>, asked: seq<nat>, answers: map<nat, Decision>)

  /** `inflight` is a map ordered by id; ids are handed out in increasing order, so a sequence keeps that order. */
  datatype State = State(
    config: Config,
    status: Status,
    revision: nat,
    nextId: nat,
    pending: seq<Queued>,
    pendingBytes: nat,
    inflight: seq<Reservation>,
    inflightBytes: nat,
    approval: Option<Approval>,
    cancelled: bool,
    history: History)

  function Fresh(config: Config): State {
    State(config, Waiting, 0, 1, [], 0, [], 0, None, false, History([], [], [], map[]))
  }

  // ----- queries -----

  predicate Open(s: State) {
    s.status.Waiting? || s.status.Running?
  }

  predicate UserInput(m: Message) {
    m.role.User? && m.content != [] && forall b <- m.content :: b.Text? || b.Image?
  }

  /** What a queue may hold: user content, or a host message in the same form. */
  predicate Deliverable(m: Message) {
    (m.role.User? || m.role.Custom?) && m.content != [] && forall b <- m.content :: b.Text? || b.Image?
  }

  /** The first queued input of a kind. */
  function FirstOf(q: seq<Queued>, kind: Kind): Option<Input> {
    if q == [] then None
    else if q[0].input.kind == kind then Some(q[0].input)
    else FirstOf(q[1..], kind)
  }

  /** Steering goes before follow-ups; deferred context is never chosen here. */
  function Chosen(q: seq<Queued>, followUp: bool): Option<Input> {
    if FirstOf(q, Steer).Some? then FirstOf(q, Steer)
    else if followUp then FirstOf(q, FollowUp)
    else None
  }

  function Position(q: seq<Queued>, id: nat): (i: nat)
    ensures i <= |q|
    ensures i < |q| ==> q[i].input.id == id
  {
    if q == [] || q[0].input.id == id then 0 else 1 + Position(q[1..], id)
  }

  function Slot(rs: seq<Reservation>, id: nat): (i: nat)
    ensures i <= |rs|
    ensures i < |rs| ==> rs[i].id == id
  {
    if rs == [] || rs[0].id == id then 0 else 1 + Slot(rs[1..], id)
  }

  // ----- locked sections -----

  function Update(s: State): State {
    s.(revision := SatAdd(s.revision, 1))
  }

  predicate Full(s: State, bytes: nat) {
    || |s.pending| + |s.inflight| >= s.config.maxInputs
    || bytes > SatSub(s.config.maxBytes, SatAdd(s.pendingBytes, s.inflightBytes))
  }

  function SubmitFault(s: State, message: Message, bytes: nat, asyncOnly: bool): Option<ControlError> {
    if s.cancelled then Some(Closed)
    else if !UserInput(message) then Some(InvalidInput)
    else if bytes > s.config.maxInputBytes then Some(InputTooLarge)
    else if !Open(s) then Some(Closed)
    else if asyncOnly then Some(InputPreparationRequired)
    else if Full(s, bytes) || s.nextId >= WORD_MAX then Some(QueueFull)
    else None
  }

  function Enqueue(s: State, input: Input, bytes: nat): State {
    s.(pending := s.pending + [Queued(input, bytes)],
       pendingBytes := s.pendingBytes + bytes,
       history := s.history.(accepted := s.history.accepted + [input]))
  }

  function Submitted(s: State, kind: Kind, message: Message, bytes: nat, asyncOnly: bool): State {
    if SubmitFault(s, message, bytes, asyncOnly).Some? then s
    else Update(Enqueue(s.(nextId := s.nextId + 1), Input(s.nextId, kind, message), bytes))
  }

  /** `mismatch` stands for an input pipeline bound after inputs it should have seen; `seen` tells whether the caller
      looked for a cancellation after it happened, which it does before the lock. */
  function ReserveFault(s: State, bytes: nat, mismatch: bool, seen: bool): Option<ControlError> {
    if s.cancelled && seen then Some(Closed)
    else if !Open(s) then Some(Closed)
    else if mismatch then Some(InputBindingMismatch)
    else if Full(s, bytes) || s.nextId >= WORD_MAX then Some(QueueFull)
    else None
  }

  function Reserved(s: State, bytes: nat, mismatch: bool, seen: bool): State {
    if ReserveFault(s, bytes, mismatch, seen).Some? then s
    else Update(s.(nextId := s.nextId + 1,
                   inflight := s.inflight + [Reservation(s.nextId, bytes)],
                   inflightBytes := s.inflightBytes + bytes))
  }

  /** Only the oldest reservation may complete; the others wait for their turn. Its message was checked beforehand. */
  predicate Turn(s: State, ticket: nat) {
    s.inflight != [] && s.inflight[0].id == ticket
  }

  /** `plain` is the size of the message alone, `bytes` that of everything that is queued with it. */
  function CompleteFault(s: State, ticket: nat, plain: nat, bytes: nat): Option<ControlError>
    requires Turn(s, ticket)
  {
    if !Open(s) || s.cancelled then Some(Closed)
    else if plain > s.config.maxInputBytes || bytes > MAX_PREPARED_BYTES then Some(InputTooLarge)
    else if bytes > SatSub(s.config.maxBytes, SatSub(SatAdd(s.pendingBytes, s.inflightBytes), s.inflight[0].bytes)) then
      Some(QueueFull)
    else None
  }

  function Completed(s: State, ticket: nat, kind: Kind, message: Message, plain: nat, bytes: nat): State {
    if !Turn(s, ticket) || !Deliverable(message) || CompleteFault(s, ticket, plain, bytes).Some? then s
    else
      Update(Enqueue(
        s.(inflight := s.inflight[1..], inflightBytes := SatSub(s.inflightBytes, s.inflight[0].bytes)),
        Input(ticket, kind, message), bytes))
  }

  /** A reservation that is given up. */
  function Released(s: State, ticket: nat): State {
    var i := Slot(s.inflight, ticket);
    if i == |s.inflight| then s
    else Update(s.(inflight := Removed(s.inflight, i), inflightBytes := SatSub(s.inflightBytes, s.inflight[i].bytes)))
  }

  function CloseWith(s: State, status: Status): State {
    Update(s.(status := status, approval := None))
  }

  function Cancelled(s: State): State {
    if !Open(s) then s else CloseWith(s, Finishing).(cancelled := true)
  }

  function RespondFault(s: State, id: nat, decision: Decision): Option<ControlError> {
    if s.cancelled || s.status != Running then Some(Closed)
    else if s.approval.None? || s.approval.value.id != id then Some(UnknownApproval)
    else if decision.AllowSession? && !s.approval.value.hasSession then Some(InvalidApprovalDecision)
    else None
  }

  /** `gone` means that nobody waits for the answer any more. */
  function Responded(s: State, id: nat, decision: Decision, gone: bool): State {
    if RespondFault(s, id, decision).Some? then s
    else if gone then Update(s.(approval := None))
    else Update(s.(approval := None, history := s.history.(answers := s.history.answers[id := decision])))
  }

  function Started(s: State): State {
    if s.status.Waiting? then Update(s.(status := Running)) else s
  }

  function Taken(s: State, followUp: bool, close: bool): State {
    if Chosen(s.pending, followUp).None? && close && FirstOf(s.pending, Context).None? then CloseWith(s, Finishing)
    else s
  }

  function Applied(s: State, id: nat): State {
    var i := Position(s.pending, id);
    if i == |s.pending| then s
    else
      Update(s.(pending := Removed(s.pending, i),
                pendingBytes := SatSub(s.pendingBytes, s.pending[i].bytes),
                history := s.history.(applied := s.history.applied + [s.pending[i].input])))
  }

  function Abandoned(s: State): State {
    if s.status.Finished? then s else CloseWith(s, Dropped).(cancelled := true)
  }

  predicate MayAsk(s: State) {
    s.status.Running? && s.approval.None? && s.nextId < WORD_MAX
  }

  function Asked(s: State, hasSession: bool): State {
    if !MayAsk(s) then s
    else
      Update(s.(nextId := s.nextId + 1,
                approval := Some(Approval(s.nextId, hasSession)),
                history := s.history.(asked := s.history.asked + [s.nextId])))
  }

  /** What the waiter leaves behind when it goes away. */
  function CleanedUp(s: State, id: nat): State {
    if s.approval.Some? && s.approval.value.id == id then Update(s.(approval := None)) else s
  }

  /** One atomic step of a host, of a reservation in progress, or of the executor. */
  datatype Event =
    | Submit(kind: Kind, message: Message, bytes: nat, asyncOnly: bool)
    | Reserve(bytes: nat, mismatch: bool, seen: bool)
    | Complete(ticket: nat, kind: Kind, message: Message, plain: nat, bytes: nat)
    | Release(ticket: nat)
    | Cancel
    | ParentCancel
    | Respond(id: nat, decision: Decision, gone: bool)
    | Start
    | Next(followUp: bool, close: bool)
    | Apply(id: nat)
    | Seal
    | Finish
    | Drop
    | Ask(hasSession: bool)
    | Cleanup(id: nat)

  function Step(s: State, e: Event): State {
    match e
    case Submit(kind, message, bytes, asyncOnly) => Submitted(s, kind, message, bytes, asyncOnly)
    case Reserve(bytes, mismatch, seen) => Reserved(s, bytes, mismatch, seen)
    case Complete(ticket, kind, message, plain, bytes) => Completed(s, ticket, kind, message, plain, bytes)
    case Release(ticket) => Released(s, ticket)
    case Cancel => Cancelled(s)
    case ParentCancel => s.(cancelled := true)
    case Respond(id, decision, gone) => Responded(s, id, decision, gone)
    case Start => Started(s)
    case Next(followUp, close) => Taken(s, followUp, close)
    case Apply(id) => Applied(s, id)
    case Seal => CloseWith(s, Finishing)
    case Finish => CloseWith(s, Finished)
    case Drop => Abandoned(s)
    case Ask(hasSession) => Asked(s, hasSession)
    case Cleanup(id) => CleanedUp(s, id)
  }

  function Run(s: State, es: seq<Event>): State
    decreases es
  {
    if es == [] then s else Run(Step(s, es[0]), es[1..])
  }

  // ----- what every reachable state satisfies -----

  function QueuedBytes(q: seq<Queued>): nat {
    if q == [] then 0 else q[0].bytes + QueuedBytes(q[1..])
  }

  function ReservedBytes(rs: seq<Reservation>): nat {
    if rs == [] then 0 else rs[0].bytes + ReservedBytes(rs[1..])
  }

  function Inputs(q: seq<Queued>): (r: seq<Input>)
    ensures |r| == |q|
  {
    if q == [] then [] else [q[0].input] + Inputs(q[1..])
  }

  function Ids(inputs: seq<Input>): (r: seq<nat>)
    ensures |r| == |inputs|
  {
    if inputs == [] then [] else [inputs[0].id] + Ids(inputs[1..])
  }

  function Tickets(rs: seq<Reservation>): (r: seq<nat>)
    ensures |r| == |rs|
  {
    if rs == [] then [] else [rs[0].id] + Tickets(rs[1..])
  }

  /** Exact byte accounts, within both limits. */
  predicate Accounts(s: State) {
    && s.pendingBytes == QueuedBytes(s.pending)
    && s.inflightBytes == ReservedBytes(s.inflight)
    && s.pendingBytes + s.inflightBytes <= s.config.maxBytes <= WORD_MAX
    && |s.pending| + |s.inflight| <= s.config.maxInputs
  }

  /** Every identifier in use: by an input, by a reservation, or by an approval. */
  ghost function Used(s: State): multiset<nat> {
    multiset(Ids(s.history.accepted)) + multiset(Tickets(s.inflight)) + multiset(s.history.asked)
  }

  ghost predicate Identities(s: State) {
    && s.nextId <= WORD_MAX
    && forall id <- Used(s) :: Used(s)[id] == 1 && id < s.nextId
  }

  ghost predicate Split<X>(all: seq<X>, done: seq<X>, rest: seq<X>) {
    multiset(all) == multiset(done) + multiset(rest)
  }

  /** No accepted input is lost or applied twice. */
  ghost predicate Conserved(s: State) {
    && Split(s.history.accepted, s.history.applied, Inputs(s.pending))
    && Split(Ids(s.history.accepted), Ids(s.history.applied), Ids(Inputs(s.pending)))
  }

  predicate Approvals(s: State) {
    && (s.approval.Some? ==>
      s.status.Running? && s.approval.value.id in s.history.asked && s.approval.value.id !in s.history.answers)
    && forall id <- s.history.answers :: id in s.history.asked
  }

  ghost predicate Inv(s: State) {
    Accounts(s) && Identities(s) && Conserved(s) && Approvals(s)
  }

  lemma FreshInv(config: Config)
    requires config.maxBytes <= WORD_MAX
    ensures Inv(Fresh(config))
  {}

  // ----- preservation -----

  lemma {:induction false} QueueAppend(q: seq<Queued>, e: Queued)
    ensures QueuedBytes(q + [e]) == QueuedBytes(q) + e.bytes
    ensures Inputs(q + [e]) == Inputs(q) + [e.input]
    decreases q
  {
    if q == [] {
      assert q + [e] == [e] && [e][1..] == [];
    } else {
      QueueAppend(q[1..], e);
      assert (q + [e])[1..] == q[1..] + [e];
    }
  }

  lemma {:induction false} ReservationAppend(rs: seq<Reservation>, r: Reservation)
    ensures ReservedBytes(rs + [r]) == ReservedBytes(rs) + r.bytes
    ensures Tickets(rs + [r]) == Tickets(rs) + [r.id]
    decreases rs
  {
    if rs == [] {
      assert rs + [r] == [r] && [r][1..] == [];
    } else {
      ReservationAppend(rs[1..], r);
      assert (rs + [r])[1..] == rs[1..] + [r];
    }
  }

  lemma {:induction false} IdsAppend(inputs: seq<Input>, input: Input)
    ensures Ids(inputs + [input]) == Ids(inputs) + [input.id]
    decreases inputs
  {
    if inputs == [] {
      assert inputs + [input] == [input] && [input][1..] == [];
    } else {
      IdsAppend(inputs[1..], input);
      assert (inputs + [input])[1..] == inputs[1..] + [input];
    }
  }

  lemma {:induction false} QueueRemove(q: seq<Queued>, i: nat)
    requires i < |q|
    ensures QueuedBytes(q) == QueuedBytes(Removed(q, i)) + q[i].bytes
    ensures Inputs(Removed(q, i)) == Removed(Inputs(q), i) && Inputs(q)[i] == q[i].input
    decreases q
  {
    RemovedStep(q, i);
    RemovedStep(Inputs(q), i);
    if i > 0 {
      QueueRemove(q[1..], i - 1);
    }
  }

  lemma {:induction false} ReservationRemove(rs: seq<Reservation>, i: nat)
    requires i < |rs|
    ensures ReservedBytes(rs) == ReservedBytes(Removed(rs, i)) + rs[i].bytes
    ensures Tickets(Removed(rs, i)) == Removed(Tickets(rs), i) && Tickets(rs)[i] == rs[i].id
    decreases rs
  {
    RemovedStep(rs, i);
    RemovedStep(Tickets(rs), i);
    if i > 0 {
      ReservationRemove(rs[1..], i - 1);
    }
  }

  lemma {:induction false} IdsRemove(inputs: seq<Input>, i: nat)
    requires i < |inputs|
    ensures Ids(Removed(inputs, i)) == Removed(Ids(inputs), i) && Ids(inputs)[i] == inputs[i].id
    decreases inputs
  {
    RemovedStep(inputs, i);
    RemovedStep(Ids(inputs), i);
    if i > 0 {
      IdsRemove(inputs[1..], i - 1);
    }
  }

  lemma SplitGrow<X>(all: seq<X>, done: seq<X>, rest: seq<X>, x: X)
    requires Split(all, done, rest)
    ensures Split(all + [x], done, rest + [x])
  {
    MultisetAppend(all, x);
    MultisetAppend(rest, x);
  }

  lemma SplitMove<X>(all: seq<X>, done: seq<X>, rest: seq<X>, i: nat)
    requires i < |rest| && Split(all, done, rest)
    ensures Split(all, done + [rest[i]], Removed(rest, i))
  {
    MultisetAppend(done, rest[i]);
    MultisetRemove(rest, i);
  }

  // ----- the accounts -----

  lemma EnqueueAccounts(s: State, input: Input, bytes: nat)
    requires Accounts(s) && |s.pending| + |s.inflight| < s.config.maxInputs
    requires s.pendingBytes + s.inflightBytes + bytes <= s.config.maxBytes
    ensures Accounts(Enqueue(s, input, bytes))
  {
    QueueAppend(s.pending, Queued(input, bytes));
  }

  lemma SubmitAccounts(s: State, kind: Kind, message: Message, bytes: nat, asyncOnly: bool)
    requires Accounts(s)
    ensures Accounts(Submitted(s, kind, message, bytes, asyncOnly))
  {
    if SubmitFault(s, message, bytes, asyncOnly).None? {
      EnqueueAccounts(s.(nextId := s.nextId + 1), Input(s.nextId, kind, message), bytes);
    }
  }

  lemma ReserveAccounts(s: State, bytes: nat, mismatch: bool, seen: bool)
    requires Accounts(s)
    ensures Accounts(Reserved(s, bytes, mismatch, seen))
  {
    ReservationAppend(s.inflight, Reservation(s.nextId, bytes));
  }

  lemma CompleteAccounts(s: State, ticket: nat, kind: Kind, message: Message, plain: nat, bytes: nat)
    requires Accounts(s)
    ensures Accounts(Completed(s, ticket, kind, message, plain, bytes))
  {
    if Turn(s, ticket) && Deliverable(message) && CompleteFault(s, ticket, plain, bytes).None? {
      var t := s.(inflight := s.inflight[1..], inflightBytes := SatSub(s.inflightBytes, s.inflight[0].bytes));
      EnqueueAccounts(t, Input(ticket, kind, message), bytes);
    }
  }

  lemma ReleaseAccounts(s: State, ticket: nat)
    requires Accounts(s)
    ensures Accounts(Released(s, ticket))
  {
    var i := Slot(s.inflight, ticket);
    if i < |s.inflight| {
      ReservationRemove(s.inflight, i);
    }
  }

  lemma ApplyAccounts(s: State, id: nat)
    requires Accounts(s)
    ensures Accounts(Applied(s, id))
  {
    var i := Position(s.pending, id);
    if i < |s.pending| {
      QueueRemove(s.pending, i);
    }
  }

  lemma StepAccounts(s: State, e: Event)
    requires Accounts(s)
    ensures Accounts(Step(s, e))
  {
    match e
    case Submit(kind, message, bytes, asyncOnly) => SubmitAccounts(s, kind, message, bytes, asyncOnly);
    case Reserve(bytes, mismatch, seen) => ReserveAccounts(s, bytes, mismatch, seen);
    case Complete(ticket, kind, message, plain, bytes) => CompleteAccounts(s, ticket, kind, message, plain, bytes);
    case Release(ticket) => ReleaseAccounts(s, ticket);
    case Apply(id) => ApplyAccounts(s, id);
    case _ =>
  }

  // ----- the inputs -----

  lemma EnqueueConserved(s: State, input: Input, bytes: nat)
    requires Conserved(s)
    ensures Conserved(Enqueue(s, input, bytes))
  {
    QueueAppend(s.pending, Queued(input, bytes));
    IdsAppend(s.history.accepted, input);
    IdsAppend(Inputs(s.pending), input);
    SplitGrow(s.history.accepted, s.history.applied, Inputs(s.pending), input);
    SplitGrow(Ids(s.history.accepted), Ids(s.history.applied), Ids(Inputs(s.pending)), input.id);
  }

  lemma ApplyConserved(s: State, id: nat)
    requires Conserved(s)
    ensures Conserved(Applied(s, id))
  {
    var i := Position(s.pending, id);
    if i < |s.pending| {
      QueueRemove(s.pending, i);
      IdsRemove(Inputs(s.pending), i);
      IdsAppend(s.history.applied, s.pending[i].input);
      SplitMove(s.history.accepted, s.history.applied, Inputs(s.pending), i);
      SplitMove(Ids(s.history.accepted), Ids(s.history.applied), Ids(Inputs(s.pending)), i);
    }
  }

  lemma SubmitConserved(s: State, kind: Kind, message: Message, bytes: nat, asyncOnly: bool)
    requires Conserved(s)
    ensures Conserved(Submitted(s, kind, message, bytes, asyncOnly))
  {
    if SubmitFault(s, message, bytes, asyncOnly).None? {
      EnqueueConserved(s.(nextId := s.nextId + 1), Input(s.nextId, kind, message), bytes);
    }
  }

  lemma CompleteConserved(s: State, ticket: nat, kind: Kind, message: Message, plain: nat, bytes: nat)
    requires Conserved(s)
    ensures Conserved(Completed(s, ticket, kind, message, plain, bytes))
  {
    if Turn(s, ticket) && Deliverable(message) && CompleteFault(s, ticket, plain, bytes).None? {
      var t := s.(inflight := s.inflight[1..], inflightBytes := SatSub(s.inflightBytes, s.inflight[0].bytes));
      EnqueueConserved(t, Input(ticket, kind, message), bytes);
    }
  }

  lemma StepConserved(s: State, e: Event)
    requires Conserved(s)
    ensures Conserved(Step(s, e))
  {
    match e
    case Submit(kind, message, bytes, asyncOnly) => SubmitConserved(s, kind, message, bytes, asyncOnly);
    case Complete(ticket, kind, message, plain, bytes) => CompleteConserved(s, ticket, kind, message, plain, bytes);
    case Apply(id) => ApplyConserved(s, id);
    case _ => QuietInputs(s, e);
  }

  /** Which steps leave the inputs, and which the identifiers, as they are. */
  lemma QuietInputs(s: State, e: Event)
    requires !e.Submit? && !e.Complete?
    ensures var t := Step(s, e);
      && t.history.accepted == s.history.accepted
      && (!e.Apply? ==> t.history.applied == s.history.applied && t.pending == s.pending)
      && (!e.Reserve? && !e.Release? ==> t.inflight == s.inflight)
      && (!e.Ask? ==> t.history.asked == s.history.asked)
      && (!e.Reserve? && !e.Ask? ==> t.nextId == s.nextId)
  {}

  // ----- the identifiers -----

  lemma NewId(s: State, t: State)
    requires Identities(s) && s.nextId < WORD_MAX && t.nextId == s.nextId + 1
    requires Used(t) == Used(s) + multiset{s.nextId}
    ensures Identities(t)
  {
    forall id <- Used(t) ensures Used(t)[id] == 1 && id < t.nextId {
      assert Used(s)[s.nextId] == 0;
      assert id != s.nextId ==> id in Used(s);
    }
  }

  lemma SameUsed(s: State, t: State)
    requires Identities(s) && t.nextId == s.nextId && Used(t) <= Used(s)
    ensures Identities(t)
  {
    forall id <- Used(t) ensures Used(t)[id] == 1 && id < t.nextId {
      assert id in Used(s) && Used(t)[id] <= Used(s)[id];
    }
  }

  lemma EnqueueUsed(s: State, input: Input, bytes: nat)
    ensures Used(Enqueue(s, input, bytes)) == Used(s) + multiset{input.id}
  {
    IdsAppend(s.history.accepted, input);
    MultisetAppend(Ids(s.history.accepted), input.id);
  }

  lemma SubmitIdentities(s: State, kind: Kind, message: Message, bytes: nat, asyncOnly: bool)
    requires Identities(s)
    ensures Identities(Submitted(s, kind, message, bytes, asyncOnly))
  {
    if SubmitFault(s, message, bytes, asyncOnly).None? {
      EnqueueUsed(s.(nextId := s.nextId + 1), Input(s.nextId, kind, message), bytes);
      NewId(s, Submitted(s, kind, message, bytes, asyncOnly));
    }
  }

  lemma ReserveIdentities(s: State, bytes: nat, mismatch: bool, seen: bool)
    requires Identities(s)
    ensures Identities(Reserved(s, bytes, mismatch, seen))
  {
    if ReserveFault(s, bytes, mismatch, seen).None? {
      ReservationAppend(s.inflight, Reservation(s.nextId, bytes));
      MultisetAppend(Tickets(s.inflight), s.nextId);
      NewId(s, Reserved(s, bytes, mismatch, seen));
    }
  }

  /** A reservation turned into an input keeps its identifier. */
  lemma CompleteUsed(s: State, t: State, input: Input, bytes: nat)
    requires t.history == s.history && s.inflight != [] && s.inflight[0].id == input.id && t.inflight == s.inflight[1..]
    ensures Used(Enqueue(t, input, bytes)) == Used(s)
  {
    EnqueueUsed(t, input, bytes);
    assert Tickets(s.inflight) == [input.id] + Tickets(t.inflight);
  }

  lemma CompleteIdentities(s: State, ticket: nat, kind: Kind, message: Message, plain: nat, bytes: nat)
    requires Identities(s)
    ensures Identities(Completed(s, ticket, kind, message, plain, bytes))
  {
    if Turn(s, ticket) && Deliverable(message) && CompleteFault(s, ticket, plain, bytes).None? {
      var t := s.(inflight := s.inflight[1..], inflightBytes := SatSub(s.inflightBytes, s.inflight[0].bytes));
      CompleteUsed(s, t, Input(ticket, kind, message), bytes);
      SameUsed(s, Completed(s, ticket, kind, message, plain, bytes));
    }
  }

  lemma ReleaseIdentities(s: State, ticket: nat)
    requires Identities(s)
    ensures Identities(Released(s, ticket))
  {
    var i := Slot(s.inflight, ticket);
    if i < |s.inflight| {
      ReservationRemove(s.inflight, i);
      MultisetRemove(Tickets(s.inflight), i);
      SameUsed(s, Released(s, ticket));
    }
  }

  lemma AskIdentities(s: State, hasSession: bool)
    requires Identities(s)
    ensures Identities(Asked(s, hasSession))
  {
    if MayAsk(s) {
      MultisetAppend(s.history.asked, s.nextId);
      NewId(s, Asked(s, hasSession));
    }
  }

  lemma QuietIdentities(s: State, e: Event)
    requires Identities(s)
    requires !e.Submit? && !e.Reserve? && !e.Complete? && !e.Release? && !e.Ask?
    ensures Identities(Step(s, e))
  {
    QuietInputs(s, e);
    SameUsed(s, Step(s, e));
  }

  lemma StepIdentities(s: State, e: Event)
    requires Identities(s)
    ensures Identities(Step(s, e))
  {
    match e
    case Submit(kind, message, bytes, asyncOnly) => SubmitIdentities(s, kind, message, bytes, asyncOnly);
    case Reserve(bytes, mismatch, seen) => ReserveIdentities(s, bytes, mismatch, seen);
    case Complete(ticket, kind, message, plain, bytes) => CompleteIdentities(s, ticket, kind, message, plain, bytes);
    case Release(ticket) => ReleaseIdentities(s, ticket);
    case Ask(hasSession) => AskIdentities(s, hasSession);
    case _ => QuietIdentities(s, e);
  }

  // ----- the approvals -----

  lemma AskedUsed(s: State, id: nat)
    requires Identities(s) && id in s.history.asked
    ensures id < s.nextId
  {
    assert id in Used(s);
  }

  lemma StepApprovals(s: State, e: Event)
    requires Approvals(s) && Identities(s)
    ensures Approvals(Step(s, e))
  {
    if e.Ask? && s.nextId in s.history.asked {
      AskedUsed(s, s.nextId);
    }
  }

  /** Every locked section keeps the accounts, the identities, the inputs and the approvals in order. */
  lemma StepKeeps(s: State, e: Event)
    requires Inv(s)
    ensures Inv(Step(s, e))
  {
    StepAccounts(s, e);
    StepConserved(s, e);
    StepIdentities(s, e);
    StepApprovals(s, e);
  }

  lemma {:induction false} RunKeeps(s: State, es: seq<Event>)
    requires Inv(s)
    ensures Inv(Run(s, es))
    decreases es
  {
    if es != [] {
      StepKeeps(s, es[0]);
      RunKeeps(Step(s, es[0]), es[1..]);
    }
  }
}
