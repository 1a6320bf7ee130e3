/** The sizes hosts offered, followed over a whole run, and what each locked section accepts and changes. */
module ControlLedger {
  import opened Wrappers
  import opened Control
  import opened ControlRuns
  import T = Transcript

  // ----- what is accepted -----

  /** User content: something, and nothing but text and pictures. */
  predicate Plain(m: Message) {
    m.role == T.User && |m.content| > 0
    && forall i :: 0 <= i < |m.content| ==> m.content[i].Text? || m.content[i].Image?
  }

  lemma PlainIff(m: Message)
    ensures UserInput(m) <==> Plain(m)
  {
    assert forall i :: 0 <= i < |m.content| ==> m.content[i] in m.content;
  }

  /** A run that still takes input, with a free place and a free identifier. */
  predicate Takes(s: State) {
    && (s.status == Waiting || s.status == Running)
    && |s.pending| + |s.inflight| < s.config.maxInputs && s.nextId < WORD_MAX
  }

  /** Room for this many bytes more, besides what is queued and what is reserved. */
  predicate RoomFor(s: State, bytes: nat) {
    s.pendingBytes + s.inflightBytes + bytes <= s.config.maxBytes
  }

  lemma FullIff(s: State, bytes: nat)
    requires Accounts(s)
    ensures Full(s, bytes) <==> |s.pending| + |s.inflight| >= s.config.maxInputs || !RoomFor(s, bytes)
  {}

  /** A submission is accepted exactly when it is user content, small enough, and there is room for all of its bytes. */
  lemma SubmitIff(s: State, message: Message, bytes: nat, asyncOnly: bool)
    requires Accounts(s)
    ensures SubmitFault(s, message, bytes, asyncOnly).None? <==>
      && !s.cancelled && !asyncOnly && Plain(message) && Takes(s)
      && bytes <= s.config.maxInputBytes && RoomFor(s, bytes)
  {
    PlainIff(message);
    FullIff(s, bytes);
  }

  /** A reservation is made exactly when there is room, unless a cancellation was seen or the pipeline is bound. */
  lemma ReserveIff(s: State, bytes: nat, mismatch: bool, seen: bool)
    requires Accounts(s)
    ensures ReserveFault(s, bytes, mismatch, seen).None? <==>
      !(s.cancelled && seen) && !mismatch && Takes(s) && RoomFor(s, bytes)
  {
    FullIff(s, bytes);
  }

  /** The oldest reservation may complete exactly when its final size fits in the place of the size it reserved. */
  lemma CompleteIff(s: State, ticket: nat, plain: nat, bytes: nat)
    requires Accounts(s) && Turn(s, ticket)
    ensures CompleteFault(s, ticket, plain, bytes).None? <==>
      && !s.cancelled && (s.status == Waiting || s.status == Running)
      && plain <= s.config.maxInputBytes && bytes <= 8388608
      && s.pendingBytes + (s.inflightBytes - s.inflight[0].bytes) + bytes <= s.config.maxBytes
  {
    assert s.inflightBytes == s.inflight[0].bytes + ReservedBytes(s.inflight[1..]);
  }

  // ----- what is recorded -----

  /** An accepted submission stands at the back of the queue under the next identifier, with the size it offered. */
  lemma SubmitRecords(s: State, kind: Kind, message: Message, bytes: nat, asyncOnly: bool)
    requires SubmitFault(s, message, bytes, asyncOnly).None?
    ensures
      var t := Submitted(s, kind, message, bytes, asyncOnly);
      && t.pending == s.pending + [Queued(Input(s.nextId, kind, message), bytes)]
      && t.pendingBytes == s.pendingBytes + bytes
      && t.inflight == s.inflight && t.inflightBytes == s.inflightBytes && t.nextId == s.nextId + 1
  {}

  /** A completed reservation stands at the back of the queue under its own identifier, with its final size. */
  lemma CompleteRecords(s: State, ticket: nat, kind: Kind, message: Message, plain: nat, bytes: nat)
    requires Accounts(s) && Turn(s, ticket) && Deliverable(message) && CompleteFault(s, ticket, plain, bytes).None?
    ensures
      var t := Completed(s, ticket, kind, message, plain, bytes);
      && t.pending == s.pending + [Queued(Input(ticket, kind, message), bytes)]
      && t.pendingBytes == s.pendingBytes + bytes
      && t.inflight == s.inflight[1..] && t.inflightBytes == s.inflightBytes - s.inflight[0].bytes
      && t.nextId == s.nextId
  {
    assert s.inflightBytes == s.inflight[0].bytes + ReservedBytes(s.inflight[1..]);
  }

  /** What is queued and reserved, as pairs of an identifier and the size offered with it. */
  datatype Ledger = Ledger(queued: seq<(nat, nat)>, held: seq<(nat, nat)>)

  function Strike(entries: seq<(nat, nat)>, id: nat): seq<(nat, nat)> {
    if entries == [] then []
    else if entries[0].0 == id then entries[1..]
    else [entries[0]] + Strike(entries[1..], id)
  }

  function Total(entries: seq<(nat, nat)>): nat {
    if entries == [] then 0 else entries[0].1 + Total(entries[1..])
  }

  /**
   * One event on the books. An accepted submission enters its size, and so does a reservation; a completed reservation
   * gives up the size it reserved for its final size; what is released or applied is struck out.
   */
  function Book(l: Ledger, s: State, e: Event): Ledger {
    match e
    case Submit(_, message, bytes, asyncOnly) =>
      if SubmitFault(s, message, bytes, asyncOnly).None? then l.(queued := l.queued + [(s.nextId, bytes)]) else l
    case Reserve(bytes, mismatch, seen) =>
      if ReserveFault(s, bytes, mismatch, seen).None? then l.(held := l.held + [(s.nextId, bytes)]) else l
    case Complete(ticket, _, _, _, bytes) =>
      if Completes(s, e) then Ledger(l.queued + [(ticket, bytes)], Strike(l.held, ticket)) else l
    case Release(ticket) => l.(held := Strike(l.held, ticket))
    case Apply(id) => l.(queued := Strike(l.queued, id))
    case _ => l
  }

  function Books(l: Ledger, s: State, es: seq<Event>): Ledger
    decreases es
  {
    if es == [] then l else Books(Book(l, s, es[0]), Step(s, es[0]), es[1..])
  }

  function QueuedEntries(q: seq<Queued>): seq<(nat, nat)> {
    if q == [] then [] else [(q[0].input.id, q[0].bytes)] + QueuedEntries(q[1..])
  }

  function HeldEntries(rs: seq<Reservation>): seq<(nat, nat)> {
    if rs == [] then [] else [(rs[0].id, rs[0].bytes)] + HeldEntries(rs[1..])
  }

  /** The books say what the state holds. */
  predicate Balanced(l: Ledger, s: State) {
    l.queued == QueuedEntries(s.pending) && l.held == HeldEntries(s.inflight)
  }

  lemma {:induction false} QueuedPush(q: seq<Queued>, e: Queued)
    ensures QueuedEntries(q + [e]) == QueuedEntries(q) + [(e.input.id, e.bytes)]
    decreases q
  {
    if q == [] {
      assert q + [e] == [e] && [e][1..] == [];
    } else {
      QueuedPush(q[1..], e);
      assert (q + [e])[0] == q[0] && (q + [e])[1..] == q[1..] + [e];
    }
  }

  lemma {:induction false} HeldPush(rs: seq<Reservation>, r: Reservation)
    ensures HeldEntries(rs + [r]) == HeldEntries(rs) + [(r.id, r.bytes)]
    decreases rs
  {
    if rs == [] {
      assert rs + [r] == [r] && [r][1..] == [];
    } else {
      HeldPush(rs[1..], r);
      assert (rs + [r])[0] == rs[0] && (rs + [r])[1..] == rs[1..] + [r];
    }
  }

  lemma {:induction false} QueuedStrike(q: seq<Queued>, id: nat)
    ensures
      var i := Position(q, id);
      Strike(QueuedEntries(q), id) == if i < |q| then QueuedEntries(Removed(q, i)) else QueuedEntries(q)
    decreases q
  {
    if q != [] {
      if Position(q, id) < |q| {
        RemovedStep(q, Position(q, id));
      }
      if q[0].input.id != id {
        QueuedStrike(q[1..], id);
      }
    }
  }

  lemma {:induction false} HeldStrike(rs: seq<Reservation>, id: nat)
    ensures
      var i := Slot(rs, id);
      Strike(HeldEntries(rs), id) == if i < |rs| then HeldEntries(Removed(rs, i)) else HeldEntries(rs)
    decreases rs
  {
    if rs != [] {
      if Slot(rs, id) < |rs| {
        RemovedStep(rs, Slot(rs, id));
      }
      if rs[0].id != id {
        HeldStrike(rs[1..], id);
      }
    }
  }

  lemma {:induction false} Totals(q: seq<Queued>, rs: seq<Reservation>)
    ensures Total(QueuedEntries(q)) == QueuedBytes(q) && |QueuedEntries(q)| == |q|
    ensures Total(HeldEntries(rs)) == ReservedBytes(rs) && |HeldEntries(rs)| == |rs|
    decreases |q| + |rs|
  {
    if q != [] {
      Totals(q[1..], []);
    }
    if rs != [] {
      Totals([], rs[1..]);
    }
  }

  lemma SubmitBalanced(l: Ledger, s: State, e: Event)
    requires e.Submit? && Balanced(l, s)
    ensures Balanced(Book(l, s, e), Step(s, e))
  {
    QueuedPush(s.pending, Queued(Input(s.nextId, e.kind, e.message), e.bytes));
  }

  lemma ReserveBalanced(l: Ledger, s: State, e: Event)
    requires e.Reserve? && Balanced(l, s)
    ensures Balanced(Book(l, s, e), Step(s, e))
  {
    HeldPush(s.inflight, Reservation(s.nextId, e.bytes));
  }

  lemma CompleteBalanced(l: Ledger, s: State, e: Event)
    requires e.Complete? && Balanced(l, s)
    ensures Balanced(Book(l, s, e), Step(s, e))
  {
    if Completes(s, e) {
      QueuedPush(s.pending, Queued(Input(e.ticket, e.kind, e.message), e.bytes));
      assert Strike(HeldEntries(s.inflight), e.ticket) == HeldEntries(s.inflight[1..]);
    }
  }

  lemma StepBalanced(l: Ledger, s: State, e: Event)
    requires Balanced(l, s)
    ensures Balanced(Book(l, s, e), Step(s, e))
  {
    match e
    case Submit(_, _, _, _) => SubmitBalanced(l, s, e);
    case Reserve(_, _, _) => ReserveBalanced(l, s, e);
    case Complete(_, _, _, _, _) => CompleteBalanced(l, s, e);
    case Release(ticket) => HeldStrike(s.inflight, ticket);
    case Apply(id) => QueuedStrike(s.pending, id);
    case _ =>
  }

  lemma {:induction false} RunBalanced(l: Ledger, s: State, es: seq<Event>)
    requires Balanced(l, s)
    ensures Balanced(Books(l, s, es), Run(s, es))
    decreases es
  {
    if es != [] {
      StepBalanced(l, s, es[0]);
      RunBalanced(Book(l, s, es[0]), Step(s, es[0]), es[1..]);
    }
  }

  /**
   * Over any run the sizes offered with what is queued sum to the bytes accounted for it, and so do the sizes offered
   * with what is reserved; together they stay within the limit, and so does their number.
   */
  lemma OfferedSizes(config: Config, es: seq<Event>)
    requires config.maxBytes <= WORD_MAX
    ensures
      var l, t := Books(Ledger([], []), Fresh(config), es), Run(Fresh(config), es);
      && Total(l.queued) == t.pendingBytes && Total(l.held) == t.inflightBytes
      && Total(l.queued) + Total(l.held) <= config.maxBytes
      && |l.queued| == |t.pending| && |l.held| == |t.inflight| && |l.queued| + |l.held| <= config.maxInputs
  {
    var s, t := Fresh(config), Run(Fresh(config), es);
    FreshInv(config);
    RunBalanced(Ledger([], []), s, es);
    RunKeeps(s, es);
    SameConfig(s, es);
    Totals(t.pending, t.inflight);
  }

  lemma {:induction false} SameConfig(s: State, es: seq<Event>)
    ensures Run(s, es).config == s.config
    decreases es
  {
    if es != [] {
      SameConfig(Step(s, es[0]), es[1..]);
    }
  }

  // ----- the life of a run -----

  /** What each event makes of the status; every other event leaves it alone. */
  lemma StatusStep(s: State, e: Event)
    ensures
      var t, open := Step(s, e), s.status == Waiting || s.status == Running;
      match e
      case Start => t.status == if s.status == Waiting then Running else s.status
      case Cancel => t.status == if open then Finishing else s.status
      case Next(followUp, close) =>
        t.status == if close && Chosen(s.pending, followUp).None? && FirstOf(s.pending, Context).None? then Finishing
                    else s.status
      case Seal => t.status == Finishing
      case Finish => t.status == Finished
      case Drop => t.status == if s.status == Finished then Finished else Dropped
      case _ => t.status == s.status
    ensures Step(s, e).cancelled <==>
      s.cancelled || e.ParentCancel? || (e.Cancel? && (s.status == Waiting || s.status == Running))
      || (e.Drop? && s.status != Finished)
  {}

  /** Hosts that wait for a newer revision miss nothing: it grows with every change but the parent's cancellation. */
  lemma RevisionTells(s: State, e: Event)
    requires !e.ParentCancel? && s.revision < WORD_MAX
    ensures Step(s, e) == s || Step(s, e).revision == s.revision + 1
  {}

  /** What each event makes of the pending approval. */
  lemma ApprovalStep(s: State, e: Event)
    ensures
      var t := Step(s, e);
      match e
      case Ask(hasSession) =>
        t.approval == if s.status == Running && s.approval == None && s.nextId < WORD_MAX
                      then Some(Approval(s.nextId, hasSession)) else s.approval
      case Respond(id, decision, gone) =>
        var answered := && !s.cancelled && s.status == Running && s.approval.Some? && s.approval.value.id == id
                        && (decision == AllowSession ==> s.approval.value.hasSession);
        && t.approval == (if answered then None else s.approval)
        && t.history.answers == (if answered && !gone then s.history.answers[id := decision] else s.history.answers)
      case Cleanup(id) =>
        t.approval == if s.approval.Some? && s.approval.value.id == id then None else s.approval
      case _ => t.approval == s.approval || (t.approval == None && t.status != Running)
  {}
}
