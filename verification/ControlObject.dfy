/** The control object: every method is one locked section of the run's shared state. */
module ControlObject {
  import opened Wrappers
  import opened Control

  class ControlState {
    const config: Config
    var status: Status
    var revision: nat
    var nextId: nat
    var pending: seq<Queued>
    var pendingBytes: nat
    var inflight: seq<Reservation>
    var inflightBytes: nat
    var approval: Option<Approval>
    /** The run's cancellation token. */
    var cancelled: bool
    ghost var history: History

    ghost function View(): State
      reads this
    {
      State(config, status, revision, nextId, pending, pendingBytes, inflight, inflightBytes, approval, cancelled,
            history)
    }

    constructor (c: Config)
      requires c.maxInputs > 0 && c.maxInputBytes > 0 && 0 < c.maxBytes <= WORD_MAX
      ensures View() == Fresh(c)
    {
      config, status, revision, nextId := c, Waiting, 0, 1;
      pending, pendingBytes, inflight, inflightBytes := [], 0, [], 0;
      approval, cancelled, history := None, false, History([], [], [], map[]);
    }

    method Bump()
      modifies this`revision
      ensures revision == SatAdd(old(revision), 1)
    {
      revision := SatAdd(revision, 1);
    }

    // ----- hosts -----

    method Submit(kind: Kind, message: Message, bytes: nat, asyncOnly: bool) returns (r: Result<nat, ControlError>)
      modifies this
      ensures View() == Submitted(old(View()), kind, message, bytes, asyncOnly)
      ensures r == (
        var fault := SubmitFault(old(View()), message, bytes, asyncOnly);
        if fault.Some? then Err(fault.value) else Ok(old(nextId)))
    {
      if cancelled {
        return Err(Closed);
      }
      if !UserInput(message) {
        return Err(InvalidInput);
      }
      if bytes > config.maxInputBytes {
        return Err(InputTooLarge);
      }
      if !(status.Waiting? || status.Running?) {
        return Err(Closed);
      }
      if asyncOnly {
        return Err(InputPreparationRequired);
      }
      if |pending| + |inflight| >= config.maxInputs
         || bytes > SatSub(config.maxBytes, SatAdd(pendingBytes, inflightBytes))
      {
        return Err(QueueFull);
      }
      var id := nextId;
      if id >= WORD_MAX {
        return Err(QueueFull);
      }
      nextId := id + 1;
      Push(Input(id, kind, message), bytes);
      r := Ok(id);
    }

    /** Put an accepted input at the back of the queue. */
    method Push(input: Input, bytes: nat)
      modifies this`pending, this`pendingBytes, this`revision, this`history
      ensures View() == Update(Enqueue(old(View()), input, bytes))
    {
      pendingBytes := pendingBytes + bytes;
      pending := pending + [Queued(input, bytes)];
      history := history.(accepted := history.accepted + [input]);
      Bump();
    }

    method Reserve(bytes: nat, mismatch: bool, seen: bool) returns (r: Result<nat, ControlError>)
      modifies this
      ensures View() == Reserved(old(View()), bytes, mismatch, seen)
      ensures r == (
        var fault := ReserveFault(old(View()), bytes, mismatch, seen);
        if fault.Some? then Err(fault.value) else Ok(old(nextId)))
    {
      if cancelled && seen {
        return Err(Closed);
      }
      if !(status.Waiting? || status.Running?) {
        return Err(Closed);
      }
      if mismatch {
        return Err(InputBindingMismatch);
      }
      if |pending| + |inflight| >= config.maxInputs
         || bytes > SatSub(config.maxBytes, SatAdd(pendingBytes, inflightBytes))
      {
        return Err(QueueFull);
      }
      var id := nextId;
      if id >= WORD_MAX {
        return Err(QueueFull);
      }
      nextId := id + 1;
      inflight := inflight + [Reservation(id, bytes)];
      inflightBytes := inflightBytes + bytes;
      Bump();
      r := Ok(id);
    }

    /** A prepared input takes the place its reservation kept for it. */
    method Complete(
      ticket: nat, kind: Kind, message: Message, plain: nat, bytes: nat) returns (fault: Option<ControlError>)
      requires Turn(View(), ticket) && Deliverable(message)
      modifies this
      ensures View() == Completed(old(View()), ticket, kind, message, plain, bytes)
      ensures fault == CompleteFault(old(View()), ticket, plain, bytes)
    {
      if !(status.Waiting? || status.Running?) {
        return Some(Closed);
      }
      if cancelled {
        return Some(Closed);
      }
      if plain > config.maxInputBytes || bytes > MAX_PREPARED_BYTES {
        return Some(InputTooLarge);
      }
      var reserved := inflight[0].bytes;
      var others := SatSub(SatAdd(pendingBytes, inflightBytes), reserved);
      if bytes > SatSub(config.maxBytes, others) {
        return Some(QueueFull);
      }
      inflight := inflight[1..];
      inflightBytes := SatSub(inflightBytes, reserved);
      Push(Input(ticket, kind, message), bytes);
      fault := None;
    }

    /** The end of a reservation that was not completed. */
    method Release(ticket: nat)
      modifies this
      ensures View() == Released(old(View()), ticket)
    {
      var i := 0;
      while i < |inflight| && inflight[i].id != ticket
        invariant 0 <= i <= |inflight|
        invariant Slot(inflight, ticket) == i + Slot(inflight[i..], ticket)
      {
        i := i + 1;
      }
      if i < |inflight| {
        inflightBytes := SatSub(inflightBytes, inflight[i].bytes);
        inflight := Removed(inflight, i);
        Bump();
      }
    }

    /** Set a closing status, which also drops the pending approval's sender. */
    method Close(s: Status)
      modifies this`status, this`approval, this`revision
      ensures View() == CloseWith(old(View()), s)
    {
      status := s;
      approval := None;
      Bump();
    }

    method Cancel() returns (fault: Option<ControlError>)
      modifies this
      ensures View() == Cancelled(old(View()))
      ensures fault == if Open(old(View())) then None else Some(Closed)
    {
      if !(status.Waiting? || status.Running?) {
        return Some(Closed);
      }
      cancelled := true;
      Close(Finishing);
      fault := None;
    }

    /** An answer that nobody waits for is taken off all the same, and reported as unknown. */
    method RespondApproval(id: nat, decision: Decision, gone: bool) returns (fault: Option<ControlError>)
      modifies this
      ensures View() == Responded(old(View()), id, decision, gone)
      ensures fault == (
        var refused := RespondFault(old(View()), id, decision);
        if refused.None? && gone then Some(UnknownApproval) else refused)
    {
      if cancelled || status != Running {
        return Some(Closed);
      }
      if approval.None? || approval.value.id != id {
        return Some(UnknownApproval);
      }
      if decision == AllowSession && !approval.value.hasSession {
        return Some(InvalidApprovalDecision);
      }
      approval := None;
      if !gone {
        history := history.(answers := history.answers[id := decision]);
      }
      Bump();
      fault := if gone then Some(UnknownApproval) else None;
    }

    // ----- the executor -----

    method Start()
      modifies this
      ensures View() == Started(old(View()))
    {
      if status == Waiting {
        status := Running;
        Bump();
      }
    }

    /** The first queued input of a kind. */
    method Find(kind: Kind) returns (input: Option<Input>)
      ensures input == FirstOf(pending, kind)
    {
      var i := 0;
      while i < |pending|
        invariant 0 <= i <= |pending|
        invariant FirstOf(pending[i..], kind) == FirstOf(pending, kind)
      {
        if pending[i].input.kind == kind {
          return Some(pending[i].input);
        }
        i := i + 1;
      }
      input := None;
    }

    /** The next input; when there is none, the run may be closed in the same locked section. */
    method Next(followUp: bool, close: bool) returns (input: Option<Input>)
      modifies this
      ensures View() == Taken(old(View()), followUp, close)
      ensures input == Chosen(old(pending), followUp)
    {
      input := Find(Steer);
      if input.None? && followUp {
        input := Find(FollowUp);
      }
      if input.None? && close {
        var deferred := Find(Context);
        if deferred.None? {
          Close(Finishing);
        }
      }
    }

    method NextContext() returns (input: Option<Input>)
      ensures input == FirstOf(pending, Context)
    {
      input := Find(Context);
    }

    method MarkApplied(id: nat)
      modifies this
      ensures View() == Applied(old(View()), id)
    {
      var i := 0;
      while i < |pending| && pending[i].input.id != id
        invariant 0 <= i <= |pending|
        invariant Position(pending, id) == i + Position(pending[i..], id)
      {
        i := i + 1;
      }
      if i < |pending| {
        history := history.(applied := history.applied + [pending[i].input]);
        pendingBytes := SatSub(pendingBytes, pending[i].bytes);
        pending := Removed(pending, i);
        Bump();
      }
    }

    /** Close and report what was never applied. */
    method Seal() returns (left: seq<Input>)
      modifies this
      ensures View() == CloseWith(old(View()), Finishing)
      ensures left == Inputs(pending)
    {
      Close(Finishing);
      left := Inputs(pending);
    }

    method Finish()
      modifies this
      ensures View() == CloseWith(old(View()), Finished)
    {
      Close(Finished);
    }

    /** The execution side goes away. */
    method Drop()
      modifies this
      ensures View() == Abandoned(old(View()))
    {
      if status != Finished {
        cancelled := true;
        Close(Dropped);
      }
    }

    /** Ask for an approval: at most one is pending, and only while the run is going on. */
    method Approve(hasSession: bool) returns (id: Option<nat>)
      modifies this
      ensures View() == Asked(old(View()), hasSession)
      ensures id == if MayAsk(old(View())) then Some(old(nextId)) else None
    {
      if status != Running || approval.Some? {
        return None;
      }
      var sequence := nextId;
      if sequence >= WORD_MAX {
        return None;
      }
      nextId := sequence + 1;
      approval := Some(Approval(sequence, hasSession));
      history := history.(asked := history.asked + [sequence]);
      Bump();
      id := Some(sequence);
    }

    method Cleanup(id: nat)
      modifies this
      ensures View() == CleanedUp(old(View()), id)
    {
      if approval.Some? && approval.value.id == id {
        approval := None;
        Bump();
      }
    }
  }
}
