/** The executor of one controlled run, stepping between whatever hosts, tools and the world do. */
module Executor {
  import opened Wrappers
  import opened Control
  import opened ControlSound
  import opened ControlRuns
  import O = ControlObject
  import L = Limits
  import F = Lifecycle
  import C = Conversation
  import T = Transcript
  import P = Pruning

  /** Why a run stops early. */
  datatype Stop = Cancellation | BudgetReached | ModelRefusal | Failure

  /**
   One provider request: the counted input, the output it may produce, what the budget had left, whether the run
   was still clear to go on, what the provider reported and the output counted from its reply, and the charge.
   */
  datatype Sent = Sent(
    estimate: nat, granted: Option<nat>, left: Option<nat>, clear: bool, usage: L.Usage, produced: nat, charge: nat)

  /** A reply costs at most what the request was counted and granted for. */
  predicate Honest(s: Sent) {
    s.granted.Some? ==> s.charge <= s.estimate + s.granted.value
  }

  /** Under a token budget every request fits what is left, and asks for at least one token of output. */
  predicate Fits(estimate: nat, granted: Option<nat>, left: Option<nat>) {
    left.Some? ==> granted.Some? && 1 <= granted.value <= U32_MAX && estimate + granted.value <= left.value
  }

  /** A request that fits, was sent while nothing had ended the run, and was charged what its reply came to. */
  predicate Billed(s: Sent) {
    && Fits(s.estimate, s.granted, s.left) && s.clear
    && s.charge == L.FromUsage(s.usage, SatAdd(s.estimate, s.produced)).used
  }

  /** All charges so far, as far as a machine word can tell. */
  function Total(sent: seq<Sent>): (r: nat)
    ensures r <= WORD_MAX
  {
    if sent == [] then 0 else SatAdd(Total(sent[..|sent| - 1]), sent[|sent| - 1].charge)
  }

  datatype Account = Bills | Sum | Budget

  ghost predicate Balances(a: Account, sent: seq<Sent>, tokens: nat, max: Option<nat>) {
    match a
    case Bills => forall r <- sent :: Billed(r)
    case Sum => tokens == Total(sent)
    case Budget => max.Some? && (forall r <- sent :: Honest(r)) ==> tokens <= max.value <= WORD_MAX
  }

  /** Every request is billed, the tokens are the sum of the bills, and honest bills stay within the budget. */
  ghost predicate Balanced(sent: seq<Sent>, tokens: nat, max: Option<nat>) {
    forall a: Account :: Balances(a, sent, tokens, max)
  }

  lemma NothingSent(max: Option<nat>)
    requires max.Some? ==> max.value <= WORD_MAX
    ensures Balanced([], 0, max)
  {}

  lemma OneMoreSent(sent: seq<Sent>, tokens: nat, max: Option<nat>, call: Sent)
    requires Balanced(sent, tokens, max) && Billed(call)
    requires call.left == if max.Some? then Some(SatSub(max.value, tokens)) else None
    ensures Balanced(sent + [call], SatAdd(tokens, call.charge), max)
  {
    var all := sent + [call];
    assert Balances(Bills, sent, tokens, max) && Balances(Sum, sent, tokens, max);
    assert Balances(Budget, sent, tokens, max);
    assert all[..|sent|] == sent && call in all && forall r <- all :: r == call || r in sent;
    assert (forall r <- all :: Honest(r)) ==> Honest(call) && forall r <- sent :: Honest(r);
    forall a: Account ensures Balances(a, all, SatAdd(tokens, call.charge), max) {}
  }

  /** What a run is configured with; `prefix` are the system messages in front of its conversation. */
  datatype Setup = Setup(
    maxRounds: nat, callsPerRound: nat, maxOutput: Option<nat>, modelOutput: Option<nat>,
    measure: P.Measure, preserve: nat, prefix: seq<Message>)

  /** What pruning to a target makes of a conversation; a refusal leaves it as it was. */
  function Pruned(setup: Setup, target: nat, ms: seq<Message>): seq<Message> {
    var result := P.Prune(setup.measure.(target := target), setup.preserve, ms);
    if result.Ok? then result.value.messages else ms
  }

  predicate OverAndPrunable(setup: Setup, target: nat, ms: seq<Message>) {
    var m := setup.measure.(target := target);
    target < P.Count(m, ms) && P.Prune(m, setup.preserve, ms).Ok?
  }

  predicate Smaller(setup: Setup, target: nat, before: seq<Message>, after: seq<Message>) {
    var m := setup.measure.(target := target);
    P.Count(m, after) <= target < P.Count(m, before)
  }

  // The next three are stated under a quantifier, so that they are unfolded only on request.

  /** The context is over the goal, and pruning can meet it. */
  ghost predicate Prunable(setup: Setup, goal: nat, ms: seq<Message>) {
    forall target: nat :: target == goal ==> OverAndPrunable(setup, target, ms)
  }

  /** From above the goal to within it. */
  ghost predicate Reduced(setup: Setup, goal: nat, before: seq<Message>, after: seq<Message>) {
    forall target: nat :: target == goal ==> Smaller(setup, target, before, after)
  }

  /** The conversation that pruning to `goal` makes. */
  ghost predicate PrunedTo(setup: Setup, goal: nat, before: seq<Message>, after: seq<Message>) {
    forall target: nat :: target == goal ==> after == Pruned(setup, target, before)
  }

  lemma PrunedIff(setup: Setup, target: nat, ms: seq<Message>)
    ensures Prunable(setup, target, ms) <==> OverAndPrunable(setup, target, ms)
    ensures Prunable(setup, target, ms) ==> Reduced(setup, target, ms, Pruned(setup, target, ms))
    ensures !Prunable(setup, target, ms) ==> Pruned(setup, target, ms) == ms
  {
    if Prunable(setup, target, ms) {
      assert OverAndPrunable(setup, target, ms);
    }
  }

  /** Every call is answered; under a quantifier, so that it is unfolded only on request. */
  ghost predicate Answered(ms: seq<Message>) {
    forall x: seq<Message> :: x == ms ==> T.Paired(x)
  }

  lemma AnsweredIff(ms: seq<Message>)
    ensures Answered(ms) <==> T.Paired(ms)
  {
    if Answered(ms) {
      assert T.Paired(ms);
    }
  }

  function MessagesOf(inputs: seq<Input>): seq<Message> {
    if inputs == [] then [] else [inputs[0].message] + MessagesOf(inputs[1..])
  }

  datatype RoundEnd = Onward | Settled

  /** What a provider call yields; `clamped` tells whether the token budget cut what was asked for. */
  datatype Reply = Reply(message: Message, stop: C.StopReason, clamped: bool)

  /** A reply that passes the check, and answers nothing itself. */
  predicate Checked(reply: Reply) {
    C.ResponseVerdict(reply.message, reply.stop).None? && C.NoResults(reply.message)
  }

  /** The same, under a quantifier, so that it is unfolded only on request. */
  ghost predicate WellFormed(reply: Reply) {
    forall r: Reply :: r == reply ==> Checked(r)
  }

  /** The reply a run may end with: complete, without calls, and with something to show. */
  predicate Final(reply: Reply) {
    && reply.stop.Complete? && C.Called(reply.message) == []
    && exists b <- reply.message.content :: C.Shows(b)
  }

  datatype Verdict = Accepted | Rejected(feedback: string)

  datatype Point = Said | Judged

  ghost predicate Told(p: Point, replies: seq<Reply>, verdicts: seq<Verdict>, messages: seq<Message>) {
    match p
    case Said =>
      replies != [] && Final(replies[|replies| - 1]) && replies[|replies| - 1].message in messages
    case Judged => verdicts != [] && verdicts[|verdicts| - 1].Accepted?
  }

  /** The last reply is complete, shows something and is part of the conversation, and the verifier accepted it. */
  ghost predicate AnsweredFinally(replies: seq<Reply>, verdicts: seq<Verdict>, messages: seq<Message>) {
    forall p: Point :: Told(p, replies, verdicts, messages)
  }

  /** What the context policy wants. */
  datatype Advice = Keep | Shrink(goal: nat) | Refuse

  /** A limit that is set is a positive 32-bit number. */
  predicate Positive(limit: Option<nat>) {
    limit.Some? ==> 1 <= limit.value <= U32_MAX
  }

  /** The smallest of what is left, the request's limit (else the model's), and the largest 32-bit number. */
  function LeastOf(left: nat, own: Option<nat>, model: Option<nat>): nat {
    Min(left, if own.Some? then own.value else if model.Some? then model.value else U32_MAX)
  }

  class Executor {
    const control: O.ControlState
    const machine: F.AgentRunStateMachine
    const limits: L.RunLimiter
    const setup: Setup
    var rounds: nat
    var messages: seq<Message>
    /** How far each round got, what was sent to the provider, and the conversation each round began with. */
    ghost var visits: seq<F.Visit>
    ghost var sent: seq<Sent>
    ghost var begun: seq<Beginning>
    /** The valid replies of the run, and what the verifier said of its answers. */
    ghost var replies: seq<Reply>
    ghost var verdicts: seq<Verdict>
    /** Whether anything outside failed or refused, and whether deferred context outgrew what is applied in one go. */
    var hindered: bool
    var crowded: bool

    constructor (c: O.ControlState, m: F.AgentRunStateMachine, l: L.RunLimiter, s: Setup, history: seq<Message>)
      ensures control == c && machine == m && limits == l && setup == s
      ensures rounds == 0 && messages == history && visits == [] && sent == [] && begun == []
      ensures replies == [] && verdicts == [] && !hindered && !crowded
    {
      control, machine, limits, setup, rounds, messages := c, m, l, s, 0, history;
      visits, sent, begun, replies, verdicts := [], [], [], [], [];
      hindered, crowded := false, false;
    }

    /** What a round that begins now would start from. */
    ghost function Now(): Beginning
      reads this, control
    {
      Beginning(messages, control.View().history.accepted, control.View().history.applied)
    }

    /** Something that may end the run has happened. */
    predicate Hindered()
      reads this, control, limits
    {
      hindered || crowded || control.cancelled || limits.cancelled
    }

    /** What has to be true for a run to stop that way. */
    ghost predicate Justified(stop: Stop)
      reads this, control, limits
    {
      match stop
      case Cancellation => control.cancelled || limits.cancelled
      case BudgetReached => limits.stopped.Some? || rounds >= setup.maxRounds
      case ModelRefusal =>
        replies != [] && !replies[|replies| - 1].stop.Complete? && C.Called(replies[|replies| - 1].message) == []
      case Failure => hindered || crowded
    }

    /** Ask something outside: a journal, a provider, a verifier, a tool, a policy. */
    method Ask() returns (yes: bool)
      modifies this`hindered
      ensures hindered == (old(hindered) || !yes)
    {
      yes := *;
      if !yes {
        hindered := true;
      }
    }

    /** How the run stops, given that something ends it. */
    method Reason() returns (why: Stop)
      requires Hindered()
      ensures Justified(why)
      ensures why ==
        if limits.stopped.Some? then BudgetReached
        else if control.cancelled || limits.cancelled then Cancellation
        else Failure
    {
      if limits.stopped.Some? {
        return BudgetReached;
      }
      why := if control.cancelled || limits.cancelled then Cancellation else Failure;
    }

    /** The lifecycle has been through exactly the rounds recorded. */
    ghost predicate Tracked()
      reads this, machine
    {
      && F.Followed(machine.trace, machine.state, visits) && rounds == |visits| <= setup.maxRounds <= WORD_MAX
      && Modest(visits, setup.callsPerRound)
    }

    /** One step of another thread. */
    method Perform(e: Event)
      requires Elsewhere(e)
      modifies control
      ensures control.View() == Step(old(control.View()), e)
    {
      match e
      case Submit(kind, message, bytes, asyncOnly) => var _ := control.Submit(kind, message, bytes, asyncOnly);
      case Reserve(bytes, mismatch, seen) => var _ := control.Reserve(bytes, mismatch, seen);
      case Complete(ticket, kind, message, plain, bytes) =>
        if control.inflight != [] && control.inflight[0].id == ticket && Deliverable(message) {
          var _ := control.Complete(ticket, kind, message, plain, bytes);
        }
      case Release(ticket) => control.Release(ticket);
      case Cancel => var _ := control.Cancel();
      case ParentCancel => control.cancelled := true;
      case Respond(id, decision, gone) => var _ := control.RespondApproval(id, decision, gone);
      case Ask(hasSession) => var _ := control.Approve(hasSession);
      case Cleanup(id) => control.Cleanup(id);
    }

    /** Any number of steps of other threads. */
    method Hosts()
      requires Sound(control.View())
      modifies control
      ensures Disturbed(old(control.View()), control.View())
    {
      var schedule: seq<Event> := *;
      for i := 0 to |schedule|
        invariant Disturbed(old(control.View()), control.View())
      {
        if Elsewhere(schedule[i]) {
          ElsewhereStep(control.View(), schedule[i]);
          Perform(schedule[i]);
        }
      }
    }

    /** `RunLimiter.check`, on a context whose parent's cancellation has reached it. */
    method CheckLimits() returns (ok: bool)
      requires limits.Valid()
      modifies limits`stopped, limits`cancelled
      ensures limits.Valid()
      ensures ok <==> !limits.cancelled
      ensures old(limits.cancelled) ==> !ok
      ensures old(limits.stopped).Some? ==> limits.stopped == old(limits.stopped)
    {
      if control.cancelled {
        limits.cancelled := true;
      }
      var expired: bool := *;
      ok := limits.Check(expired);
    }

    // ----- applying inputs -----

    /**
     * Validate, journal and apply one input. It leaves the queue and enters the conversation together,
     * after the journal accepted it; otherwise neither happens.
     */
    method CommitInput(input: Input, ghost kind: Kind)
      returns (ok: bool, ghost batch: seq<Input>, ghost asked: Option<bool>)
      requires Sound(control.View()) && FirstOf(control.pending, kind) == Some(input)
      requires limits.Valid() && Answered(messages)
      modifies this`messages, this`hindered, control, limits`stopped, limits`cancelled
      ensures limits.Valid() && Answered(messages)
      ensures Moved(old(control.View()), control.View())
      ensures Took(old(control.View()), control.View(), old(messages), messages, batch)
      ensures batch == if asked == Some(true) then [input] else []
      ensures ok ==> batch == [input]
      ensures !ok ==> Hindered()
    {
      batch, asked := [], None;
      ghost var start := control.View();
      NothingTaken(start, messages);
      var valid := Ask();
      if !valid {
        return false, batch, asked;
      }
      ok := CheckLimits();
      if !ok {
        return;
      }
      Hosts();
      DisturbedMoves(start, control.View());
      if control.cancelled || limits.cancelled {
        return false, batch, asked;
      }
      FirstOfPrefix(start.pending, control.pending, kind);
      ghost var middle := control.View();
      ok, batch, asked := Record(input, kind);
      MovedOn(start, middle, control.View());
    }

    /** Once the journal has the input, it leaves the queue and enters the conversation. */
    method Record(input: Input, ghost kind: Kind) returns (ok: bool, ghost batch: seq<Input>, ghost asked: Option<bool>)
      requires Sound(control.View()) && FirstOf(control.pending, kind) == Some(input)
      requires limits.Valid() && Answered(messages)
      modifies this`messages, this`hindered, control, limits`stopped, limits`cancelled
      ensures limits.Valid() && Answered(messages)
      ensures Moved(old(control.View()), control.View())
      ensures Took(old(control.View()), control.View(), old(messages), messages, batch)
      ensures asked.Some? && batch == (if asked.value then [input] else [])
      ensures ok ==> asked.value
      ensures !ok ==> Hindered()
    {
      batch := [];
      NothingTaken(control.View(), messages);
      MovedSelf(control.View());
      var journaled := Ask();
      asked := Some(journaled);
      if !journaled {
        return false, batch, asked;
      }
      AppliedSound(control.View(), kind);
      control.MarkApplied(input.id);
      StillAnswered(messages, input.message);
      messages := messages + [input.message];
      batch := [input];
      ok := CheckLimits();
    }

    /** One turn of the loop below: take the next input, if there is one, and apply it. */
    method ApplyNext(followUp: bool, full: bool) returns (r: Result<bool, Stop>, ghost batch: seq<Input>)
      requires Sound(control.View()) && limits.Valid() && Answered(messages)
      requires full ==> rounds >= setup.maxRounds
      modifies this`messages, this`hindered, control, limits`stopped, limits`cancelled
      ensures limits.Valid() && Answered(messages)
      ensures Moved(old(control.View()), control.View())
      ensures Took(old(control.View()), control.View(), old(messages), messages, batch)
      ensures r.Err? ==> Justified(r.error)
      ensures |batch| <= 1 && AtBoundary(batch, followUp) && (full ==> batch == [])
      ensures r.Ok? ==> r.value == (batch != [])
      ensures r == Ok(false) ==> Chosen(old(control.View()).pending, followUp).None?
      ensures r == Ok(false) ==> FirstOf(control.View().pending, Steer).None?
    {
      batch := [];
      ghost var start := control.View();
      NothingTaken(start, messages);
      MovedSelf(start);
      if control.cancelled || limits.cancelled {
        return Err(Cancellation), batch;
      }
      Hosts();
      ghost var offered := control.View();
      TakenSound(offered, followUp, followUp);
      var input := control.Next(followUp, followUp);
      OneTaken(start, start, offered, control.View());
      if input.None? {
        ChosenStays(start.pending, offered.pending, followUp);
        return Ok(false), batch;
      }
      if full {
        return Err(BudgetReached), batch;
      }
      ChosenKind(offered.pending, followUp);
      ghost var middle := control.View();
      var ok, one, asked := CommitInput(input.value, input.value.kind);
      MovedOn(start, middle, control.View());
      batch := one;
      if ok {
        r := Ok(true);
      } else {
        var why := Reason();
        r := Err(why);
      }
    }

    /**
     * The inputs of one boundary: steering before the model, and after a completion at most one follow-up,
     * which opens the next round.
     */
    method ApplyInputs(after: bool) returns (r: Result<bool, Stop>, ghost batch: seq<Input>)
      requires Sound(control.View()) && limits.Valid() && Answered(messages) && control.config.maxInputs > 0
      modifies this`messages, this`hindered, control, limits`stopped, limits`cancelled
      ensures limits.Valid() && Answered(messages)
      ensures Moved(old(control.View()), control.View())
      ensures Took(old(control.View()), control.View(), old(messages), messages, batch)
      ensures r.Err? ==> Justified(r.error)
      ensures AtBoundary(batch, after) && (after && rounds >= setup.maxRounds ==> batch == [])
      ensures r.Ok? ==> r.value == (batch != [])
      ensures r.Ok? && Chosen(old(control.View()).pending, after).Some? ==> r.value
      ensures r.Ok? && !after ==> CaughtUp(old(control.View()), control.View(), Steer)
    {
      batch := [];
      ghost var start := control.View();
      NothingTaken(start, messages);
      MovedSelf(start);
      var applied := false;
      ghost var empty := false;
      for k := 0 to control.config.maxInputs
        invariant Sound(control.View()) && limits.Valid() && Answered(messages)
        invariant Moved(start, control.View()) && (k == 0 ==> control.View() == start)
        invariant Took(start, control.View(), old(messages), messages, batch)
        invariant AtBoundary(batch, after) && applied == (batch != []) && |batch| == k && !empty
        invariant after && rounds >= setup.maxRounds ==> batch == []
      {
        ghost var middle, said := control.View(), messages;
        var one, more := ApplyNext(after && !applied, after && rounds >= setup.maxRounds);
        MovedOn(start, middle, control.View());
        TookMore(start, middle, control.View(), old(messages), said, messages, batch, more);
        batch := batch + more;
        if one.Err? {
          return Err(one.error), batch;
        }
        if !one.value {
          empty := true;
          break;
        }
        applied := true;
      }
      if !after {
        SteeringApplied(start, control.View(), batch, empty);
      }
      r := Ok(applied);
    }

    /** One deferred context input, if there is one. */
    method ApplyContext() returns (r: Result<bool, Stop>, ghost batch: seq<Input>)
      requires Sound(control.View()) && limits.Valid() && Answered(messages)
      modifies this`messages, this`hindered, control, limits`stopped, limits`cancelled
      ensures limits.Valid() && Answered(messages)
      ensures Moved(old(control.View()), control.View())
      ensures Took(old(control.View()), control.View(), old(messages), messages, batch)
      ensures |batch| <= 1 && Deferred(batch)
      ensures r.Err? ==> Hindered()
      ensures r.Ok? ==> r.value == (batch != [])
      ensures r == Ok(false) ==> FirstOf(old(control.View()).pending, Context).None?
      ensures r == Ok(false) ==> FirstOf(control.View().pending, Context).None?
    {
      batch := [];
      ghost var start := control.View();
      NothingTaken(start, messages);
      MovedSelf(start);
      var ok := CheckLimits();
      if !ok {
        var why := Reason();
        return Err(why), batch;
      }
      Hosts();
      ghost var middle := control.View();
      DisturbedMoves(start, middle);
      var input := control.NextContext();
      if input.None? {
        ContextStays(start.pending, middle.pending);
        return Ok(false), batch;
      }
      KindOfFirst(middle.pending, Context);
      ghost var asked;
      ok, batch, asked := CommitInput(input.value, Context);
      MovedOn(start, middle, control.View());
      if ok {
        r := Ok(true);
      } else {
        var why := Reason();
        r := Err(why);
      }
    }

    /** Apply deferred context, at most 256 inputs of it in one go. */
    method FlushContext() returns (ok: bool, ghost batch: seq<Input>)
      requires Sound(control.View()) && limits.Valid() && Answered(messages)
      modifies this`messages, this`hindered, this`crowded, control, limits`stopped, limits`cancelled
      ensures limits.Valid() && Answered(messages)
      ensures Moved(old(control.View()), control.View())
      ensures Took(old(control.View()), control.View(), old(messages), messages, batch)
      ensures |batch| <= 256 && Deferred(batch)
      ensures !ok ==> Hindered()
      ensures ok && FirstOf(old(control.View()).pending, Context).Some? ==> batch != []
      ensures ok ==> CaughtUp(old(control.View()), control.View(), Context)
    {
      batch := [];
      ghost var start := control.View();
      NothingTaken(start, messages);
      MovedSelf(start);
      Hosts();
      DisturbedMoves(start, control.View());
      ContextStays(start.pending, control.pending);
      var first := control.NextContext();
      if first.None? {
        EmptyCatchesUp(start, control.View(), Context);
        return true, batch;
      }
      var checkpointed := Ask();
      if !checkpointed {
        return false, batch;
      }
      ghost var middle := control.View();
      ok, batch := ApplyDeferred();
      MovedOn(start, middle, control.View());
      if ok {
        CaughtUpOn(start, middle, control.View(), control.View(), Context);
      }
    }

    /** Deferred context, one input after another, and a last look when as much as is allowed was applied. */
    method ApplyDeferred() returns (ok: bool, ghost batch: seq<Input>)
      requires Sound(control.View()) && limits.Valid() && Answered(messages)
      requires FirstOf(control.pending, Context).Some?
      modifies this`messages, this`hindered, this`crowded, control, limits`stopped, limits`cancelled
      ensures limits.Valid() && Answered(messages)
      ensures Moved(old(control.View()), control.View())
      ensures Took(old(control.View()), control.View(), old(messages), messages, batch)
      ensures |batch| <= 256 && Deferred(batch)
      ensures !ok ==> Hindered()
      ensures crowded ==> old(crowded) || |batch| == 256
      ensures ok ==> batch != []
      ensures ok ==> CaughtUp(old(control.View()), control.View(), Context)
    {
      ghost var start := control.View();
      var empty;
      ok, empty, batch := ApplyUpTo(256);
      if ok && !empty {
        ghost var last := control.View();
        ok := LastLook();
        OneTaken(start, last, control.View(), control.View());
      }
      if ok {
        EmptyCatchesUp(start, control.View(), Context);
      }
    }

    /** The loop itself: it ends when there is no more deferred context, or after that many inputs. */
    method ApplyUpTo(count: nat) returns (ok: bool, empty: bool, ghost batch: seq<Input>)
      requires Sound(control.View()) && limits.Valid() && Answered(messages)
      requires FirstOf(control.pending, Context).Some? && count > 0
      modifies this`messages, this`hindered, control, limits`stopped, limits`cancelled
      ensures limits.Valid() && Answered(messages)
      ensures Moved(old(control.View()), control.View())
      ensures Took(old(control.View()), control.View(), old(messages), messages, batch)
      ensures |batch| <= count && Deferred(batch)
      ensures !ok ==> Hindered()
      ensures ok ==> batch != []
      ensures ok && empty ==> FirstOf(control.View().pending, Context).None?
      ensures ok && !empty ==> |batch| == count
    {
      batch := [];
      ghost var start := control.View();
      NothingTaken(start, messages);
      MovedSelf(start);
      for k := 0 to count
        invariant Sound(control.View()) && limits.Valid() && Answered(messages)
        invariant Moved(start, control.View())
        invariant Took(start, control.View(), old(messages), messages, batch)
        invariant |batch| == k && Deferred(batch)
        invariant k == 0 ==> FirstOf(control.View().pending, Context).Some?
      {
        ghost var middle, said := control.View(), messages;
        var one, more := ApplyContext();
        MovedOn(start, middle, control.View());
        TookMore(start, middle, control.View(), old(messages), said, messages, batch, more);
        batch := batch + more;
        if one.Err? || !one.value {
          return one.Ok?, true, batch;
        }
      }
      ok, empty := true, false;
    }

    /** More deferred context than is applied in one go ends the run. */
    method LastLook() returns (ok: bool)
      requires Sound(control.View())
      modifies this`crowded, control
      ensures Disturbed(old(control.View()), control.View())
      ensures Moved(control.View(), control.View())
      ensures ok <==> FirstOf(control.View().pending, Context).None?
      ensures crowded == (old(crowded) || !ok)
    {
      Hosts();
      MovedSelf(control.View());
      var next := control.NextContext();
      ok := next.None?;
      crowded := crowded || !ok;
    }

    // ----- settling a completed answer -----

    /** An offered input is applied, unless something ends the run first. */
    method Continue() returns (r: Result<bool, Stop>, ghost batch: seq<Input>)
      requires Sound(control.View()) && limits.Valid() && Answered(messages) && control.config.maxInputs > 0
      requires Chosen(control.pending, true).Some?
      modifies this`messages, this`hindered, this`crowded, control, limits`stopped, limits`cancelled
      ensures limits.Valid() && Answered(messages)
      ensures Moved(old(control.View()), control.View())
      ensures Took(old(control.View()), control.View(), old(messages), messages, batch)
      ensures AtBoundary(batch, true)
      ensures r.Err? ==> Justified(r.error)
      ensures r.Ok? ==> r.value && rounds < setup.maxRounds && Steered(old(control.View()), control.View())
    {
      batch := [];
      var checkpointed := Ask();
      if !checkpointed {
        NothingTaken(control.View(), messages);
        MovedSelf(control.View());
        return Err(Failure), batch;
      }
      ghost var start := control.View();
      r, batch := ApplyInputs(true);
      BoundarySteers(start, control.View(), batch);
    }

    /** One turn of the loop that ends a run while deferred context keeps arriving. */
    method DrainOnce() returns (r: Result<Drained, Stop>, ghost batch: seq<Input>, ghost late: seq<Input>)
      requires Sound(control.View()) && limits.Valid() && Answered(messages) && control.config.maxInputs > 0
      requires FirstOf(control.pending, Context).Some?
      modifies this`messages, this`hindered, this`crowded, control, limits`stopped, limits`cancelled
      ensures limits.Valid() && Answered(messages)
      ensures Moved(old(control.View()), control.View())
      ensures Took(old(control.View()), control.View(), old(messages), messages, batch + late)
      ensures Deferred(batch) && AtBoundary(late, true)
      ensures r.Err? ==> Justified(r.error)
      ensures r == Ok(Empty) ==> !Open(control.View()) && control.pending == []
      ensures r == Ok(Refilled) ==> FirstOf(control.pending, Context).Some? && batch != [] && late == []
      ensures r == Ok(Resumed) ==> rounds < setup.maxRounds && Steered(old(control.View()), control.View())
    {
      ghost var start := control.View();
      late := [];
      var ok;
      ok, batch := FlushContext();
      assert batch + [] == batch;
      if !ok {
        var why := Reason();
        return Err(why), batch, late;
      }
      ghost var middle, said := control.View(), messages;
      r, late := LookAgain();
      MovedOn(start, middle, control.View());
      TookMore(start, middle, control.View(), old(messages), said, messages, batch, late);
      SteeredOn(start, middle, control.View());
    }

    /** Once deferred context is applied: is there an input to go on with, or more context, or is this the end? */
    method LookAgain() returns (r: Result<Drained, Stop>, ghost late: seq<Input>)
      requires Sound(control.View()) && limits.Valid() && Answered(messages) && control.config.maxInputs > 0
      modifies this`messages, this`hindered, this`crowded, control, limits`stopped, limits`cancelled
      ensures limits.Valid() && Answered(messages)
      ensures Moved(old(control.View()), control.View())
      ensures Took(old(control.View()), control.View(), old(messages), messages, late)
      ensures AtBoundary(late, true)
      ensures r.Err? ==> Justified(r.error)
      ensures r == Ok(Empty) ==> !Open(control.View()) && control.pending == []
      ensures r == Ok(Refilled) ==> FirstOf(control.pending, Context).Some? && late == []
      ensures r == Ok(Resumed) ==> rounds < setup.maxRounds && Steered(old(control.View()), control.View())
    {
      ghost var start := control.View();
      late := [];
      MovedSelf(start);
      Hosts();
      ghost var offered := control.View();
      TakenSound(offered, true, true);
      TakenCloses(offered);
      var next := control.Next(true, true);
      OneTaken(start, start, offered, control.View());
      ghost var taken := control.View();
      if next.Some? {
        var resumed;
        resumed, late := Continue();
        MovedOn(start, taken, control.View());
        SteeredOn(start, taken, control.View());
        r := if resumed.Ok? then Ok(Resumed) else Err(resumed.error);
        return;
      }
      Hosts();
      OneTaken(start, taken, control.View(), control.View());
      var context := control.NextContext();
      r := Ok(if context.Some? then Refilled else Empty);
      ClosedQueue(offered, taken, control.View());
    }

    /** Deferred context that arrives while the run settles is applied until there is none, or until the run goes on. */
    method Drain() returns (r: Result<bool, Stop>, ghost batch: seq<Input>)
      requires Sound(control.View()) && limits.Valid() && Answered(messages) && control.config.maxInputs > 0
      requires FirstOf(control.pending, Context).Some?
      modifies this`messages, this`hindered, this`crowded, control, limits`stopped, limits`cancelled
      ensures limits.Valid() && Answered(messages)
      ensures Moved(old(control.View()), control.View())
      ensures Took(old(control.View()), control.View(), old(messages), messages, batch)
      ensures FollowUps(batch) <= 1
      ensures r.Err? ==> Justified(r.error)
      ensures r == Ok(false) ==> !Open(control.View()) && control.pending == []
      ensures r == Ok(true) ==> rounds < setup.maxRounds && Steered(old(control.View()), control.View())
    {
      batch := [];
      ghost var start := control.View();
      NothingTaken(start, messages);
      MovedSelf(start);
      AppliedBounded(start);
      while true
        invariant Sound(control.View()) && limits.Valid() && Answered(messages)
        invariant Moved(start, control.View()) && |control.history.applied| <= WORD_MAX
        invariant Took(start, control.View(), old(messages), messages, batch)
        invariant FollowUps(batch) == 0
        invariant FirstOf(control.View().pending, Context).Some?
        decreases WORD_MAX - |control.history.applied|
      {
        ghost var middle, said := control.View(), messages;
        var step, more, late := DrainOnce();
        MovedOn(start, middle, control.View());
        TookMore(start, middle, control.View(), old(messages), said, messages, batch, more + late);
        AtMostOneFollowUp(batch, more, late);
        AppliedBounded(control.View());
        SteeredOn(start, middle, control.View());
        batch := batch + (more + late);
        if step.Err? {
          return Err(step.error), batch;
        }
        if !step.value.Refilled? {
          return Ok(step.value.Resumed?), batch;
        }
      }
    }

    /**
     * What follows an accepted answer. Either another round begins, with at most one new follow-up, or the
     * run is closed to submissions with an empty queue, or something ends it early.
     */
    method Settle() returns (r: Result<bool, Stop>, ghost batch: seq<Input>)
      requires Sound(control.View()) && limits.Valid() && Answered(messages) && control.config.maxInputs > 0
      modifies this`messages, this`hindered, this`crowded, control, limits`stopped, limits`cancelled
      ensures limits.Valid() && Answered(messages)
      ensures Moved(old(control.View()), control.View())
      ensures Took(old(control.View()), control.View(), old(messages), messages, batch)
      ensures FollowUps(batch) <= 1
      ensures r.Err? ==> Justified(r.error)
      ensures r == Ok(false) ==> !Open(control.View()) && control.pending == []
      ensures r == Ok(true) ==> rounds < setup.maxRounds && Steered(old(control.View()), control.View())
    {
      ghost var start := control.View();
      batch := [];
      Hosts();
      ghost var offered := control.View();
      TakenSound(offered, true, true);
      TakenCloses(offered);
      MovedSelf(start);
      var next := control.Next(true, true);
      OneTaken(start, start, offered, control.View());
      ghost var taken := control.View();
      if next.Some? {
        r, batch := Continue();
        MovedOn(start, taken, control.View());
        AtMostOneFollowUp([], [], batch);
        SteeredOn(start, taken, control.View());
        return;
      }
      Hosts();
      OneTaken(start, taken, control.View(), control.View());
      ClosedQueue(offered, taken, control.View());
      ghost var middle := control.View();
      var context := control.NextContext();
      if context.None? {
        return Ok(false), batch;
      }
      r, batch := Drain();
      MovedOn(start, middle, control.View());
      SteeredOn(start, middle, control.View());
    }

    // ----- the lifecycle -----

    /** Enter the next state of the current round. */
    method Advance(to: F.AgentRunState, ghost v: F.Visit)
      requires Tracked() && visits != [] && Continues(visits[|visits| - 1], v, |visits|, to)
      requires v.AtTools? ==> v.count <= setup.callsPerRound
      modifies this`visits, machine
      ensures Tracked() && visits == WithLast(old(visits), v)
    {
      F.FollowedIff(machine.trace, machine.state, visits);
      AdvanceShaped(visits, v);
      AdvanceTrace(visits, v, to);
      ModestLast(visits, setup.callsPerRound, v);
      var ok := machine.Transition(to);
      visits := WithLast(visits, v);
      F.FollowedIff(machine.trace, machine.state, visits);
    }

    method StartCompacting()
      requires Tracked() && visits != [] && visits[|visits| - 1].AtModel?
      modifies this`visits, machine
      ensures Tracked() && visits == WithLast(old(visits), F.AtCompaction)
    {
      Advance(F.Compacting(rounds), F.AtCompaction);
    }

    method EndCompacting()
      requires Tracked() && visits != [] && visits[|visits| - 1].AtCompaction?
      modifies this`visits, machine
      ensures Tracked() && visits == WithLast(old(visits), F.AfterCompaction)
    {
      Advance(F.AwaitingModel(rounds), F.AfterCompaction);
    }

    method StartVerifying()
      requires Tracked() && visits != [] && (visits[|visits| - 1].AtModel? || visits[|visits| - 1].AfterCompaction?)
      modifies this`visits, machine
      ensures Tracked() && |visits| == |old(visits)| && visits[|visits| - 1].AtVerification?
    {
      Advance(F.VerifyingCompletion(rounds), F.AtVerification(visits[|visits| - 1].AfterCompaction?));
    }

    method StartTools(count: nat)
      requires Tracked() && visits != [] && (visits[|visits| - 1].AtModel? || visits[|visits| - 1].AfterCompaction?)
      requires 0 < count <= setup.callsPerRound
      modifies this`visits, machine
      ensures Tracked() && |visits| == |old(visits)|
      ensures visits[|visits| - 1].AtTools? && visits[|visits| - 1].count == count
    {
      Advance(F.ExecutingTools(rounds, count), F.AtTools(visits[|visits| - 1].AfterCompaction?, count));
    }

    method BeginRound()
      requires Tracked() && rounds < setup.maxRounds && (visits == [] || F.Whole(visits[|visits| - 1]))
      modifies this`visits, this`rounds, this`begun, machine
      ensures Tracked() && visits == old(visits) + [F.AtModel] && begun == old(begun) + [Now()]
    {
      F.FollowedIff(machine.trace, machine.state, visits);
      BeginShaped(visits);
      BeginTrace(visits);
      ModestLast(visits, setup.callsPerRound, F.AtModel);
      var ok := machine.Transition(F.AwaitingModel(rounds + 1));
      rounds := rounds + 1;
      visits := visits + [F.AtModel];
      F.FollowedIff(machine.trace, machine.state, visits);
      begun := begun + [Now()];
    }

    // ----- tokens -----

    /** As long as replies cost no more than was granted, the run stays within its token budget. */
    ghost predicate Solvent()
      reads this, limits
    {
      limits.Valid() && Balanced(sent, limits.tokens, limits.budget.maxTokens)
    }

    /** Stop the run unless the counted input leaves room for at least one token of output. */
    method EnsureCapacity(estimate: nat) returns (ok: bool)
      requires limits.Valid()
      modifies limits`stopped, limits`cancelled
      ensures limits.Valid()
      ensures ok && limits.RemainingTokens().Some? ==> estimate < limits.RemainingTokens().value
      ensures !ok ==> limits.cancelled
      ensures ok ==> !limits.cancelled
    {
      var left := limits.RemainingTokens();
      if left.Some? && left.value <= estimate {
        var max := limits.budget.maxTokens.value;
        limits.Stop(L.Exceeded(L.Tokens, max, SatSub(max, left.value), Some(SatAdd(estimate, 1))));
        return false;
      }
      ok := CheckLimits();
    }

    /** The output a request may ask for: its own limit, unless what remains of the budget is less. */
    method Clamp(estimate: nat) returns (granted: Option<nat>, clamped: bool)
      requires limits.RemainingTokens().Some? ==> estimate < limits.RemainingTokens().value
      requires Positive(setup.maxOutput) && Positive(setup.modelOutput)
      ensures limits.RemainingTokens().None? ==> granted == setup.maxOutput && !clamped
      ensures limits.RemainingTokens().Some? ==>
        && granted.Some? && 1 <= granted.value <= U32_MAX
        && estimate + granted.value <= limits.RemainingTokens().value
        && granted.value == LeastOf(limits.RemainingTokens().value - estimate, setup.maxOutput, setup.modelOutput)
      ensures setup.maxOutput.Some? ==> granted.Some? && granted.value <= setup.maxOutput.value
      ensures clamped <==>
        && limits.RemainingTokens().Some?
        && limits.RemainingTokens().value - estimate <
             (if setup.maxOutput.Some? then setup.maxOutput.value
              else if setup.modelOutput.Some? then setup.modelOutput.value else U32_MAX)
    {
      granted, clamped := setup.maxOutput, false;
      var left := limits.RemainingTokens();
      if left.Some? {
        var modelLimit :=
          if granted.Some? then granted.value
          else if setup.modelOutput.Some? then setup.modelOutput.value
          else U32_MAX;
        var output := Min(left.value - estimate, modelLimit) % (U32_MAX + 1);
        if granted.None? || output < granted.value {
          granted := Some(output);
          clamped := output < modelLimit;
        }
      }
    }

    /** Charge one provider call, whatever its outcome, and record it. */
    method Charge(estimate: nat, granted: Option<nat>)
      requires Solvent() && !limits.cancelled
      requires Fits(estimate, granted, limits.RemainingTokens())
      modifies this`sent, limits`tokens, limits`estimated
      ensures Solvent() && !limits.cancelled
      ensures |sent| == |old(sent)| + 1 && old(sent) <= sent
      ensures
        var call := sent[|old(sent)|];
        && call.estimate == estimate && call.granted == granted && call.left == old(limits.RemainingTokens())
        && call.clear && Billed(call)
        && limits.tokens == SatAdd(old(limits.tokens), call.charge)
    {
      var usage: L.Usage := *;
      var produced: nat := *;
      ghost var left := limits.RemainingTokens();
      limits.AccountTokens(usage, SatAdd(estimate, produced));
      ghost var charge := L.FromUsage(usage, SatAdd(estimate, produced)).used;
      ghost var call := Sent(estimate, granted, left, !limits.cancelled, usage, produced, charge);
      OneMoreSent(sent, old(limits.tokens), limits.budget.maxTokens, call);
      sent := sent + [call];
    }

    /** One provider call: count, clamp, send, charge, validate. The reply is anything the provider contract allows. */
    method Converse() returns (r: Result<Reply, Stop>, ghost heard: Option<Reply>)
      requires Sound(control.View()) && Solvent() && Positive(setup.maxOutput) && Positive(setup.modelOutput)
      modifies this`sent, this`hindered, control
      modifies limits`tokens, limits`estimated, limits`stopped, limits`cancelled
      ensures Disturbed(old(control.View()), control.View())
      ensures Solvent() && old(sent) <= sent && |sent| <= |old(sent)| + 1
      ensures r.Ok? ==> |sent| == |old(sent)| + 1
      ensures r.Ok? ==> WellFormed(r.value)
      ensures r.Ok? ==> heard == Some(r.value)
      ensures r.Err? ==> Justified(r.error)
      ensures heard.Some? && r.Err? ==> limits.cancelled || !WellFormed(heard.value)
    {
      ghost var start := control.View();
      var estimate: nat := *;
      heard := None;
      DisturbedSelf(start);
      var admitted := Ask();
      var ok := false;
      if admitted {
        ok := EnsureCapacity(estimate);
      }
      if !ok {
        var why := Reason();
        return Err(why), heard;
      }
      var granted, clamped := Clamp(estimate);
      ok := CheckLimits();
      if !ok {
        var why := Reason();
        return Err(why), heard;
      }
      r, heard := Hear(estimate, granted, clamped);
    }

    /** The call itself and what becomes of its reply. */
    method Hear(estimate: nat, granted: Option<nat>, clamped: bool)
      returns (r: Result<Reply, Stop>, ghost heard: Option<Reply>)
      requires Sound(control.View()) && Solvent() && !limits.cancelled
      requires Fits(estimate, granted, limits.RemainingTokens())
      modifies this`sent, this`hindered, control
      modifies limits`tokens, limits`estimated, limits`stopped, limits`cancelled
      ensures Disturbed(old(control.View()), control.View())
      ensures Solvent() && old(sent) <= sent && |sent| == |old(sent)| + 1
      ensures r.Ok? ==> WellFormed(r.value)
      ensures r.Ok? ==> heard == Some(r.value) && r.value.clamped == clamped
      ensures r.Err? ==> Justified(r.error)
      ensures heard.Some? && r.Err? ==> limits.cancelled || !WellFormed(heard.value)
    {
      heard := None;
      Hosts();
      var message: Message, stop: C.StopReason := *, *;
      var reply := Reply(message, stop, clamped);
      var answered := Ask();
      Charge(estimate, granted);
      if !answered {
        var why := Reason();
        return Err(why), heard;
      }
      heard := Some(reply);
      WellFormedIff(reply);
      var fault := C.ValidateResponse(reply.message, reply.stop);
      if fault.Some? || !C.NoResults(reply.message) {
        hindered := true;
        var why := Reason();
        return Err(why), heard;
      }
      var ok := CheckLimits();
      if ok {
        r := Ok(reply);
      } else {
        var why := Reason();
        r := Err(why);
      }
    }

    // ----- one round -----

    /** Deterministic compaction, when the context policy asks for it; any policy may, with any target. */
    method Compact() returns (ok: bool, ghost target: Option<nat>, ghost advice: Advice)
      requires Tracked() && visits != [] && visits[|visits| - 1].AtModel?
      requires Solvent() && Answered(messages) && C.Headed(setup.prefix, messages)
      modifies this`messages, this`visits, this`hindered, machine
      modifies limits`tokens, limits`estimated, limits`stopped, limits`cancelled
      ensures Tracked() && Solvent() && Answered(messages) && |visits| == |old(visits)|
      ensures C.Headed(setup.prefix, messages)
      ensures ok ==> visits[|visits| - 1].AtModel? || visits[|visits| - 1].AfterCompaction?
      ensures if target.Some? then PrunedTo(setup, target.value, old(messages), messages) else messages == old(messages)
      ensures ok ==> (visits[|visits| - 1].AfterCompaction? <==> target.Some?)
      ensures ok && target.Some? ==> Reduced(setup, target.value, old(messages), messages)
      ensures ok ==> !advice.Refuse? && target == if advice.Shrink? then Some(advice.goal) else None
      ensures !ok ==> Hindered()
      ensures advice.Keep? ==> ok
      ensures advice.Shrink? && !limits.cancelled && Prunable(setup, advice.goal, old(messages)) ==> ok
    {
      target := None;
      var wanted: Advice := *;
      advice := wanted;
      match wanted
      case Keep =>
        ok := true;
      case Refuse =>
        hindered := true;
        ok := false;
      case Shrink(goal) =>
        ok, target := ShrinkTo(goal);
    }

    /** Compaction to the target the policy wants, unless a limit ends the run first. */
    method ShrinkTo(goal: nat) returns (ok: bool, ghost target: Option<nat>)
      requires Tracked() && visits != [] && visits[|visits| - 1].AtModel?
      requires Solvent() && Answered(messages) && C.Headed(setup.prefix, messages)
      modifies this`messages, this`visits, this`hindered, machine
      modifies limits`tokens, limits`estimated, limits`stopped, limits`cancelled
      ensures Tracked() && Solvent() && Answered(messages) && |visits| == |old(visits)|
      ensures C.Headed(setup.prefix, messages)
      ensures ok ==> visits[|visits| - 1].AfterCompaction? && target == Some(goal)
      ensures target == None || target == Some(goal)
      ensures if target.Some? then PrunedTo(setup, goal, old(messages), messages) else messages == old(messages)
      ensures ok ==> Reduced(setup, goal, old(messages), messages)
      ensures !ok ==> Hindered()
      ensures !limits.cancelled && Prunable(setup, goal, old(messages)) ==> ok
    {
      target := None;
      StartCompacting();
      ok := CheckLimits();
      if ok {
        target := Some(goal);
        ok := Reduce(goal);
      }
    }

    /** Compaction itself; once it is admitted the round goes back to awaiting the model. */
    method Reduce(goal: nat) returns (ok: bool)
      requires Tracked() && visits != [] && visits[|visits| - 1].AtCompaction?
      requires Solvent() && Answered(messages) && C.Headed(setup.prefix, messages)
      modifies this`messages, this`visits, this`hindered, machine
      modifies limits`tokens, limits`estimated, limits`stopped, limits`cancelled
      ensures Tracked() && Solvent() && Answered(messages) && C.Headed(setup.prefix, messages)
      ensures !ok ==> Hindered()
      ensures !limits.cancelled && Prunable(setup, goal, old(messages)) ==> ok
      ensures |visits| == |old(visits)| && PrunedTo(setup, goal, old(messages), messages)
      ensures ok ==> visits[|visits| - 1].AfterCompaction?
      ensures ok ==> Reduced(setup, goal, old(messages), messages)
    {
      ghost var admitted;
      ok, admitted := PruneContext(goal);
      if ok {
        EndCompacting();
      }
    }

    /**
     * Pruning, and the checks on what it returns. They admit it exactly when the context was over the target;
     * a context that fits already has nothing to reduce, which ends the run.
     */
    method PruneContext(goal: nat) returns (ok: bool, ghost admitted: bool)
      requires Solvent() && Answered(messages) && C.Headed(setup.prefix, messages)
      modifies this`messages, this`hindered, limits`tokens, limits`estimated, limits`stopped, limits`cancelled
      ensures Solvent() && Answered(messages) && C.Headed(setup.prefix, messages)
      ensures !ok ==> Hindered()
      ensures !limits.cancelled && admitted ==> ok
      ensures admitted <==> Prunable(setup, goal, old(messages))
      ensures PrunedTo(setup, goal, old(messages), messages)
      ensures admitted ==> Reduced(setup, goal, old(messages), messages)
      ensures ok ==> admitted
    {
      admitted := Prunable(setup, goal, messages);
      var pruned := TryPruning(goal);
      if pruned.None? {
        hindered := true;
        return false, admitted;
      }
      var c := pruned.value;
      if !C.Admitted(c, goal, |setup.prefix|, messages) {
        var estimated: nat := *;
        limits.AccountTokens(L.Usage(Some(0), Some(0), Some(0)), SatAdd(estimated, goal));
        hindered := true;
        return false, admitted;
      }
      limits.AccountTokens(L.Usage(Some(0), Some(0), Some(0)), SatAdd(c.before, c.after));
      messages := c.messages;
      ok := CheckLimits();
    }

    /** What pruning makes of the conversation, and what the checks on it will say. */
    method TryPruning(goal: nat) returns (c: Option<P.Compaction>)
      requires Answered(messages) && C.Headed(setup.prefix, messages)
      ensures c.Some? ==> Answered(c.value.messages) && C.Headed(setup.prefix, c.value.messages)
      ensures c.Some? ==>
        (C.Admitted(c.value, goal, |setup.prefix|, messages) <==> Prunable(setup, goal, messages))
      ensures if Prunable(setup, goal, messages)
        then
          && c.Some? && PrunedTo(setup, goal, messages, c.value.messages)
          && Reduced(setup, goal, messages, c.value.messages)
        else PrunedTo(setup, goal, messages, messages)
    {
      var m := setup.measure.(target := goal);
      PrunedIff(setup, goal, messages);
      var result, _ := P.PruneCounted(m, setup.preserve, messages);
      if result.Err? {
        return None;
      }
      C.CompactionAdmittedIff(m, setup.preserve, setup.prefix, messages);
      AnsweredIff(messages);
      C.PrunedStaysPaired(m, setup.preserve, messages);
      AnsweredIff(result.value.messages);
      c := Some(result.value);
    }

    /** One result per call, in the order of the calls; `given` is what the dispatcher returned, if it did. */
    method Dispatch(reply: Reply, ghost before: seq<Message>)
      returns (ok: bool, ghost results: seq<Message>, ghost given: Option<seq<Message>>)
      requires Sound(control.View()) && Solvent() && Answered(before) && messages == before + [reply.message]
      requires WellFormed(reply)
      modifies this`messages, this`hindered, control, limits`stopped, limits`cancelled
      ensures Solvent() && Disturbed(old(control.View()), control.View())
      ensures ok ==> Answered(messages) && C.AllAnswered(results, C.Called(reply.message))
      ensures messages == old(messages) + results
      ensures !ok ==> Hindered()
      ensures ok ==> given == Some(results)
      ensures given.Some? && C.AllAnswered(given.value, C.Called(reply.message)) && !limits.cancelled ==> ok
    {
      results, given := [], None;
      Hosts();
      var tools: seq<Message> := *;
      var dispatched := Ask();
      if !dispatched {
        return false, results, given;
      }
      given := Some(tools);
      if !C.AllAnswered(tools, C.Called(reply.message)) {
        hindered := true;
        return false, results, given;
      }
      WellFormedIff(reply);
      AnsweredIff(before);
      C.AppendExchange(before, reply.message, reply.stop, tools);
      AnsweredIff(before + [reply.message] + tools);
      results := tools;
      messages := messages + tools;
      ok := CheckLimits();
    }

    /** The calls of a reply: admitted as a batch, then dispatched. */
    method CallTools(reply: Reply, ghost before: seq<Message>) returns (ok: bool, ghost results: seq<Message>)
      requires Tracked() && visits != [] && (visits[|visits| - 1].AtModel? || visits[|visits| - 1].AfterCompaction?)
      requires Sound(control.View()) && Solvent() && Answered(before) && messages == before + [reply.message]
      requires WellFormed(reply)
      requires C.Called(reply.message) != []
      modifies this`messages, this`visits, this`hindered, this`crowded, this`verdicts, machine
      modifies control, limits`stopped, limits`cancelled
      ensures Tracked() && Solvent() && |visits| == |old(visits)|
      ensures Disturbed(old(control.View()), control.View())
      ensures ok ==> Answered(messages) && C.AllAnswered(results, C.Called(reply.message))
      ensures ok ==> visits[|visits| - 1].AtTools? && visits[|visits| - 1].count == |C.Called(reply.message)|
      ensures messages == old(messages) + results
      ensures !ok ==> Hindered()
    {
      results := [];
      DisturbedSelf(control.View());
      ok := AdmitCalls(|C.Called(reply.message)|);
      if ok {
        ghost var given;
        ok, results, given := Dispatch(reply, before);
      }
    }

    /** The calls of a round are reserved as one batch before any of them is dispatched. */
    method AdmitCalls(count: nat) returns (ok: bool)
      requires Tracked() && visits != [] && (visits[|visits| - 1].AtModel? || visits[|visits| - 1].AfterCompaction?)
      requires Solvent() && count > 0
      modifies this`visits, this`hindered, machine, limits`stopped, limits`cancelled
      ensures Tracked() && Solvent() && |visits| == |old(visits)|
      ensures ok ==> visits[|visits| - 1].AtTools? && visits[|visits| - 1].count == count
      ensures ok ==> count <= setup.callsPerRound && limits.HasRoom(count)
      ensures !ok ==> Hindered()
    {
      var expired: bool := *;
      var checkpointed := Ask();
      if !checkpointed {
        return false;
      }
      if control.cancelled {
        limits.cancelled := true;
      }
      ok := limits.ReserveTools(count, setup.callsPerRound, expired);
      if ok {
        StartTools(count);
      }
    }

    /** What holds between the steps of a round while no call is open. */
    ghost predicate Ready()
      reads this, control, limits, machine
    {
      && Sound(control.View()) && control.config.maxInputs > 0
      && Solvent() && Positive(setup.maxOutput) && Positive(setup.modelOutput)
      && Tracked() && Answered(messages) && C.Headed(setup.prefix, messages)
    }

    /** Deferred context, delivered between the steps of a round. */
    method Deliver() returns (ok: bool)
      requires Ready()
      modifies this`messages, this`hindered, this`crowded, control, limits`stopped, limits`cancelled
      ensures Ready() && Moved(old(control.View()), control.View())
      ensures old(messages) <= messages
      ensures !ok ==> Hindered()
      ensures ok ==> CaughtUp(old(control.View()), control.View(), Context)
    {
      ghost var said, batch := messages, [];
      ok, batch := FlushContext();
      C.HeadedOn(setup.prefix, said, MessagesOf(batch));
    }

    /** A verifier's objection becomes a user message, and the run goes on. */
    method Object(feedback: string) returns (ok: bool)
      requires Ready()
      modifies this`messages, this`hindered, this`crowded, control, limits`stopped, limits`cancelled
      ensures Ready() && Moved(old(control.View()), control.View())
      ensures old(messages) <= messages
      ensures ok ==> old(messages) + [T.Message(T.User, [T.Text(feedback)])] <= messages
      ensures !ok ==> Hindered()
    {
      MovedSelf(control.View());
      var checkpointed := Ask();
      if !checkpointed {
        return false;
      }
      var message := T.Message(T.User, [T.Text(feedback)]);
      StillAnswered(messages, message);
      C.HeadedOn(setup.prefix, messages, [message]);
      messages := messages + [message];
      ok := Deliver();
    }

    /** Verification of an answer: rejected, the run goes on; accepted, it settles. */
    method Verify() returns (r: Result<RoundEnd, Stop>)
      requires Ready()
      modifies this`messages, this`hindered, this`crowded, this`verdicts, control, limits`stopped, limits`cancelled
      ensures Ready() && Moved(old(control.View()), control.View())
      ensures old(messages) <= messages
      ensures r == Ok(Settled) ==> !Open(control.View()) && control.pending == []
      ensures r.Err? ==> Justified(r.error)
      ensures r.Ok? ==> verdicts != [] && verdicts == old(verdicts) + [verdicts[|verdicts| - 1]]
      ensures r == Ok(Settled) ==> verdicts[|verdicts| - 1].Accepted?
      ensures r.Ok? && verdicts[|verdicts| - 1].Rejected? ==>
        r.value.Onward? && T.Message(T.User, [T.Text(verdicts[|verdicts| - 1].feedback)]) in messages[|old(messages)|..]
      ensures r.Ok? ==> CaughtUp(old(control.View()), control.View(), Context)
      ensures r == Ok(Onward) ==>
        verdicts[|verdicts| - 1].Rejected? || Steered(old(control.View()), control.View())
    {
      ghost var start, said := control.View(), messages;
      var flushed := Deliver();
      if !flushed {
        var why := Reason();
        return Err(why);
      }
      ghost var flush := control.View();
      Hosts();
      DisturbedMoves(flush, control.View());
      MovedOn(start, flush, control.View());
      ghost var middle := control.View();
      var verified := Ask();
      if !verified {
        var why := Reason();
        return Err(why);
      }
      r := Heed(said);
      MovedOn(flush, middle, control.View());
      MovedOn(start, flush, control.View());
      SteeredOn(start, middle, control.View());
      MovedSelf(start);
      CaughtUpOn(start, start, flush, control.View(), Context);
    }

    /** What follows from the verifier's verdict. */
    method Heed(ghost said: seq<Message>) returns (r: Result<RoundEnd, Stop>)
      requires Ready() && said <= messages
      modifies this`messages, this`hindered, this`crowded, this`verdicts, control, limits`stopped, limits`cancelled
      ensures Ready() && Moved(old(control.View()), control.View())
      ensures old(messages) <= messages
      ensures r == Ok(Settled) ==> !Open(control.View()) && control.pending == []
      ensures r.Err? ==> Justified(r.error)
      ensures verdicts != [] && verdicts == old(verdicts) + [verdicts[|verdicts| - 1]]
      ensures r == Ok(Settled) ==> verdicts[|verdicts| - 1].Accepted?
      ensures r.Ok? && verdicts[|verdicts| - 1].Rejected? ==>
        r.value.Onward? && T.Message(T.User, [T.Text(verdicts[|verdicts| - 1].feedback)]) in messages[|said|..]
      ensures r == Ok(Onward) ==>
        verdicts[|verdicts| - 1].Rejected? || Steered(old(control.View()), control.View())
    {
      ghost var before := messages;
      var verdict: Verdict := *;
      verdicts := verdicts + [verdict];
      match verdict
      case Accepted =>
        r := Accept();
      case Rejected(feedback) =>
        var ok := Object(feedback);
        if ok {
          assert messages[|before|] == T.Message(T.User, [T.Text(feedback)]);
          assert messages[|said|..][|before| - |said|] == messages[|before|];
          r := Ok(Onward);
        } else {
          var why := Reason();
          r := Err(why);
        }
    }

    /** An answer that passed: the run settles, unless a limit ends it first. */
    method Accept() returns (r: Result<RoundEnd, Stop>)
      requires Ready()
      modifies this`messages, this`hindered, this`crowded, control, limits`stopped, limits`cancelled
      ensures Ready() && Moved(old(control.View()), control.View())
      ensures old(messages) <= messages
      ensures r == Ok(Settled) ==> !Open(control.View()) && control.pending == []
      ensures r == Ok(Onward) ==> Steered(old(control.View()), control.View())
      ensures r.Err? ==> Justified(r.error)
    {
      MovedSelf(control.View());
      var ok := CheckLimits();
      if !ok {
        var why := Reason();
        return Err(why);
      }
      ghost var before := messages;
      var again, inputs := Settle();
      C.HeadedOn(setup.prefix, before, MessagesOf(inputs));
      r := if again.Err? then Err(again.error) else Ok(if again.value then Onward else Settled);
    }

    /** A reply that calls tools: run them, then deliver deferred context. */
    method UseTools(reply: Reply) returns (ok: bool)
      requires Ready() && visits != [] && (visits[|visits| - 1].AtModel? || visits[|visits| - 1].AfterCompaction?)
      requires WellFormed(reply)
      requires C.Called(reply.message) != []
      modifies this`messages, this`visits, this`hindered, this`crowded, this`verdicts, machine
      modifies control, limits`stopped, limits`cancelled
      ensures Tracked() && Solvent() && |visits| == |old(visits)|
      ensures Moved(old(control.View()), control.View())
      ensures old(messages) + [reply.message] <= messages && C.Headed(setup.prefix, messages)
      ensures ok ==> Ready() && F.Whole(visits[|visits| - 1])
      ensures !ok ==> Hindered()
      ensures ok ==> CaughtUp(old(control.View()), control.View(), Context)
    {
      ghost var before, start := messages, control.View();
      messages := messages + [reply.message];
      ghost var results;
      ok, results := CallTools(reply, before);
      ghost var middle := control.View();
      DisturbedMoves(start, middle);
      C.HeadedOn(setup.prefix, before, [reply.message]);
      C.HeadedOn(setup.prefix, before + [reply.message], results);
      if ok {
        ok := Deliver();
        MovedOn(start, middle, control.View());
        if ok {
          MovedSelf(control.View());
          CaughtUpOn(start, middle, control.View(), control.View(), Context);
        }
      }
    }

    /** A reply without calls: a complete one is verified as the answer, any other ends the run. */
    method Answer(reply: Reply) returns (r: Result<RoundEnd, Stop>, ghost passed: bool)
      requires Ready() && visits != [] && (visits[|visits| - 1].AtModel? || visits[|visits| - 1].AfterCompaction?)
      requires reply.message.role == T.Assistant && C.NoResults(reply.message) && C.Called(reply.message) == []
      requires replies != [] && replies[|replies| - 1] == reply
      modifies this`messages, this`visits, this`hindered, this`crowded, this`verdicts, machine
      modifies control, limits`stopped, limits`cancelled
      ensures Ready() && |visits| == |old(visits)|
      ensures Moved(old(control.View()), control.View())
      ensures old(messages) + [reply.message] <= messages
      ensures visits[|visits| - 1].AtVerification? <==> reply.stop.Complete? && passed
      ensures r.Ok? ==> reply.stop.Complete? && passed
      ensures r == Ok(Settled) ==> !Open(control.View()) && control.pending == []
      ensures r == Ok(Settled) ==> verdicts != [] && verdicts[|verdicts| - 1].Accepted?
      ensures !reply.stop.Complete? ==> visits == old(visits) && r.Err? && verdicts == old(verdicts)
      ensures !reply.stop.Complete? && !(reply.clamped && reply.stop.MaxTokens?) ==> r == Err(ModelRefusal)
      ensures !reply.stop.Complete? && reply.clamped && reply.stop.MaxTokens? ==>
        limits.cancelled && r == Err(if limits.stopped.Some? then BudgetReached else Cancellation)
      ensures r.Err? ==> Justified(r.error)
      ensures r.Ok? ==> CaughtUp(old(control.View()), control.View(), Context)
      ensures r == Ok(Onward) ==>
        && verdicts != []
        && (verdicts[|verdicts| - 1].Rejected? || Steered(old(control.View()), control.View()))
    {
      MovedSelf(control.View());
      passed := false;
      AnsweredIff(messages);
      C.AppendAnswer(messages, reply.message);
      AnsweredIff(messages + [reply.message]);
      C.HeadedOn(setup.prefix, messages, [reply.message]);
      messages := messages + [reply.message];
      if reply.stop.Complete? {
        r, passed := Examine();
      } else {
        r := Incomplete(reply);
      }
    }

    /** A reply that was cut off or refused: the budget's fault when the budget cut what was asked for. */
    method Incomplete(reply: Reply) returns (r: Result<RoundEnd, Stop>)
      requires Ready() && replies != [] && replies[|replies| - 1] == reply
      requires !reply.stop.Complete? && C.Called(reply.message) == []
      modifies limits`stopped, limits`cancelled
      ensures Ready() && r.Err? && Justified(r.error)
      ensures !(reply.clamped && reply.stop.MaxTokens?) ==> r == Err(ModelRefusal)
      ensures reply.clamped && reply.stop.MaxTokens? ==>
        limits.cancelled && r == Err(if limits.stopped.Some? then BudgetReached else Cancellation)
    {
      if reply.clamped && reply.stop.MaxTokens? {
        var left := limits.RemainingTokens();
        var max := if limits.budget.maxTokens.Some? then limits.budget.maxTokens.value else 0;
        limits.Stop(L.Exceeded(L.Tokens, max, SatSub(max, if left.Some? then left.value else 0), None));
        var why := Reason();
        return Err(why);
      }
      r := Err(ModelRefusal);
    }

    /** A complete answer is verified, unless a limit ends the run first. */
    method Examine() returns (r: Result<RoundEnd, Stop>, ghost passed: bool)
      requires Ready() && visits != [] && (visits[|visits| - 1].AtModel? || visits[|visits| - 1].AfterCompaction?)
      modifies this`messages, this`visits, this`hindered, this`crowded, this`verdicts, machine
      modifies control, limits`stopped, limits`cancelled
      ensures Ready() && |visits| == |old(visits)|
      ensures Moved(old(control.View()), control.View())
      ensures old(messages) <= messages
      ensures visits[|visits| - 1].AtVerification? <==> passed
      ensures !passed ==> limits.cancelled && visits == old(visits) && r.Err?
      ensures r == Ok(Settled) ==> !Open(control.View()) && control.pending == []
      ensures r == Ok(Settled) ==> verdicts != [] && verdicts[|verdicts| - 1].Accepted?
      ensures r.Err? ==> Justified(r.error)
      ensures r.Ok? ==> CaughtUp(old(control.View()), control.View(), Context)
      ensures r == Ok(Onward) ==>
        && verdicts != []
        && (verdicts[|verdicts| - 1].Rejected? || Steered(old(control.View()), control.View()))
    {
      MovedSelf(control.View());
      var ok := CheckLimits();
      passed := ok;
      if !ok {
        var why := Reason();
        return Err(why), passed;
      }
      StartVerifying();
      r := Verify();
    }

    /** After the calls of a reply the run goes on, unless something ends it. */
    method Call(reply: Reply) returns (r: Result<RoundEnd, Stop>)
      requires Ready() && visits != [] && (visits[|visits| - 1].AtModel? || visits[|visits| - 1].AfterCompaction?)
      requires WellFormed(reply)
      requires C.Called(reply.message) != []
      modifies this`messages, this`visits, this`hindered, this`crowded, this`verdicts, machine
      modifies control, limits`stopped, limits`cancelled
      ensures Tracked() && Solvent() && |visits| == |old(visits)|
      ensures Moved(old(control.View()), control.View())
      ensures old(messages) + [reply.message] <= messages && C.Headed(setup.prefix, messages)
      ensures r.Ok? ==> Ready() && F.Whole(visits[|visits| - 1]) && r == Ok(Onward)
      ensures r.Ok? ==> CaughtUp(old(control.View()), control.View(), Context)
      ensures r.Err? ==> Justified(r.error)
    {
      var ok := UseTools(reply);
      if ok {
        r := Ok(Onward);
      } else {
        var why := Reason();
        r := Err(why);
      }
    }

    method HandleReply(reply: Reply) returns (r: Result<RoundEnd, Stop>)
      requires Ready() && visits != [] && (visits[|visits| - 1].AtModel? || visits[|visits| - 1].AfterCompaction?)
      requires WellFormed(reply)
      modifies this`messages, this`visits, this`hindered, this`crowded, this`verdicts, this`replies, machine
      modifies control, limits`stopped, limits`cancelled
      ensures Tracked() && Solvent() && |visits| == |old(visits)|
      ensures Moved(old(control.View()), control.View())
      ensures old(messages) + [reply.message] <= messages && C.Headed(setup.prefix, messages)
      ensures replies == old(replies) + [reply]
      ensures r.Ok? ==> Ready() && F.Whole(visits[|visits| - 1])
      ensures r == Ok(Settled) ==>
        !Open(control.View()) && control.pending == [] && visits[|visits| - 1].AtVerification?
      ensures r == Ok(Settled) ==> Final(reply) && verdicts != [] && verdicts[|verdicts| - 1].Accepted?
      ensures r.Err? ==> Justified(r.error)
      ensures r.Ok? ==> CaughtUp(old(control.View()), control.View(), Context)
      ensures r == Ok(Onward) && C.Called(reply.message) == [] ==>
        && verdicts != []
        && (verdicts[|verdicts| - 1].Rejected? || Steered(old(control.View()), control.View()))
    {
      replies := replies + [reply];
      ValidReply(reply);
      if C.Called(reply.message) != [] {
        r := Call(reply);
      } else {
        ghost var passed;
        r, passed := Answer(reply);
      }
    }

    /** The inputs of a round: deferred context after the first round, then steering. */
    method TakeInputs() returns (stop: Option<Stop>)
      requires Ready()
      modifies this`messages, this`hindered, this`crowded, control, limits`stopped, limits`cancelled
      ensures Ready() && Moved(old(control.View()), control.View())
      ensures stop.Some? ==> Justified(stop.value)
      ensures stop.None? ==> CaughtUp(old(control.View()), control.View(), Steer)
      ensures stop.None? && rounds > 1 ==> CaughtUp(old(control.View()), control.View(), Context)
    {
      ghost var start := control.View();
      MovedSelf(start);
      if rounds > 1 {
        var ok := Deliver();
        if !ok {
          var why := Reason();
          return Some(why);
        }
      }
      ghost var middle, said := control.View(), messages;
      var applied, batch := ApplyInputs(false);
      C.HeadedOn(setup.prefix, said, MessagesOf(batch));
      MovedOn(start, middle, control.View());
      stop := if applied.Ok? then None else Some(applied.error);
      MovedSelf(control.View());
      if applied.Ok? {
        CaughtUpOn(start, middle, control.View(), control.View(), Steer);
      }
      if rounds > 1 {
        CaughtUpOn(start, start, middle, control.View(), Context);
      }
    }

    /** The first steps of a round: one more check, then the model is awaited. */
    method EnterRound() returns (ok: bool)
      requires Ready() && rounds < setup.maxRounds && (visits == [] || F.Whole(visits[|visits| - 1]))
      modifies this`visits, this`rounds, this`begun, machine, limits`stopped, limits`cancelled
      ensures Ready()
      ensures ok ==> rounds == old(rounds) + 1 && visits[|visits| - 1].AtModel? && begun == old(begun) + [Now()]
      ensures !ok ==> rounds == old(rounds) && begun == old(begun)
      ensures !ok ==> limits.cancelled
    {
      ok := CheckLimits();
      if ok {
        BeginRound();
      }
    }

    /** From the start of a round to its provider request: deferred context, steering, compaction. */
    method Prepare() returns (stop: Option<Stop>)
      requires Ready() && rounds < setup.maxRounds && (visits == [] || F.Whole(visits[|visits| - 1]))
      modifies this`messages, this`visits, this`rounds, this`begun, this`hindered, this`crowded
      modifies machine, control, limits
      ensures Ready() && Moved(old(control.View()), control.View())
      ensures stop.None? ==> rounds == old(rounds) + 1
      ensures stop.None? ==> visits[|visits| - 1].AtModel? || visits[|visits| - 1].AfterCompaction?
      ensures stop.Some? ==> Justified(stop.value)
      ensures stop.None? ==> CaughtUp(old(control.View()), control.View(), Steer)
      ensures stop.None? && rounds > 1 ==> CaughtUp(old(control.View()), control.View(), Context)
      ensures if stop.None? then begun == old(begun) + [old(Now())] else BegunOnce(old(begun), old(Now()), begun)
    {
      MovedSelf(control.View());
      var ok := EnterRound();
      if ok {
        stop := Furnish();
      } else {
        var why := Reason();
        stop := Some(why);
      }
    }

    /** What a round adds before it asks the model: deferred context, steering, and a smaller context if wanted. */
    method Furnish() returns (stop: Option<Stop>)
      requires Ready() && visits != [] && visits[|visits| - 1].AtModel?
      modifies this`messages, this`visits, this`hindered, this`crowded, machine, control, limits
      ensures Ready() && Moved(old(control.View()), control.View())
      ensures stop.None? ==> visits[|visits| - 1].AtModel? || visits[|visits| - 1].AfterCompaction?
      ensures stop.Some? ==> Justified(stop.value)
      ensures stop.None? ==> CaughtUp(old(control.View()), control.View(), Steer)
      ensures stop.None? && rounds > 1 ==> CaughtUp(old(control.View()), control.View(), Context)
    {
      stop := TakeInputs();
      if stop.Some? {
        return;
      }
      ghost var target, advice;
      var ok;
      ok, target, advice := Compact();
      if !ok {
        var why := Reason();
        stop := Some(why);
      }
    }

    /** The first half of a round, up to a validated reply. */
    method Request() returns (r: Result<Reply, Stop>)
      requires Ready() && rounds < setup.maxRounds && (visits == [] || F.Whole(visits[|visits| - 1]))
      modifies this, machine, control, limits
      ensures Ready() && Moved(old(control.View()), control.View())
      ensures r.Ok? ==> rounds == old(rounds) + 1
      ensures r.Ok? ==> visits[|visits| - 1].AtModel? || visits[|visits| - 1].AfterCompaction?
      ensures r.Ok? ==> WellFormed(r.value)
      ensures r.Err? ==> Justified(r.error)
      ensures r.Ok? ==> CaughtUp(old(control.View()), control.View(), Steer)
      ensures r.Ok? && rounds > 1 ==> CaughtUp(old(control.View()), control.View(), Context)
      ensures if r.Ok? then begun == old(begun) + [old(Now())] else BegunOnce(old(begun), old(Now()), begun)
    {
      ghost var start := control.View();
      var stop := Prepare();
      if stop.Some? {
        return Err(stop.value);
      }
      ghost var middle, heard := control.View(), None;
      r, heard := Converse();
      DisturbedMoves(middle, control.View());
      MovedOn(start, middle, control.View());
      MovedSelf(start);
      CaughtUpOn(start, start, middle, control.View(), Steer);
      if rounds > 1 {
        CaughtUpOn(start, start, middle, control.View(), Context);
      }
    }

    method RunRound() returns (r: Result<RoundEnd, Stop>)
      requires Ready() && rounds < setup.maxRounds && (visits == [] || F.Whole(visits[|visits| - 1]))
      modifies this, machine, control, limits
      ensures Tracked() && Solvent() && C.Headed(setup.prefix, messages)
      ensures Moved(old(control.View()), control.View())
      ensures r.Ok? ==> Ready() && rounds == old(rounds) + 1 && F.Whole(visits[|visits| - 1])
      ensures r == Ok(Settled) ==>
        !Open(control.View()) && control.pending == [] && visits[|visits| - 1].AtVerification?
      ensures r == Ok(Settled) ==> AnsweredFinally(replies, verdicts, messages)
      ensures r.Err? ==> Justified(r.error)
      ensures r.Ok? ==> Heeded(old(control.View()), control.View())
      ensures if r.Ok? then begun == old(begun) + [old(Now())] else BegunOnce(old(begun), old(Now()), begun)
    {
      ghost var start := control.View();
      var reply := Request();
      if reply.Err? {
        return Err(reply.error);
      }
      ghost var middle, said := control.View(), messages;
      r := HandleReply(reply.value);
      MovedOn(start, middle, control.View());
      if r.Ok? {
        HeededBoth(start, middle, control.View());
      }
      if r == Ok(Settled) {
        FinallyTold(replies, verdicts, said, messages, reply.value);
      }
    }

    // ----- the run -----

    /**
     * The round loop. Every round begins with a conversation in which all calls are answered; when an answer
     * is returned, the run is closed to submissions and its queue is empty.
     */
    method RunInner() returns (r: Result<bool, Stop>)
      requires Ready() && visits == [] && begun == []
      modifies this, machine, control, limits
      ensures Tracked() && Solvent() && C.Headed(setup.prefix, messages)
      ensures Moved(old(control.View()), control.View())
      ensures Begun()
      ensures r.Ok? ==> !Open(control.View()) && control.pending == []
      ensures r.Ok? ==> visits != [] && visits[|visits| - 1].AtVerification?
      ensures r.Ok? ==> AnsweredFinally(replies, verdicts, messages)
      ensures r.Err? ==> Justified(r.error)
    {
      ghost var start := control.View();
      MovedSelf(start);
      var prepared := Ask();
      if !prepared {
        var why := Reason();
        return Err(why);
      }
      r := AllRounds(start);
    }

    /** The loop itself. */
    method AllRounds(ghost start: State) returns (r: Result<bool, Stop>)
      requires Ready() && visits == [] && begun == [] && Moved(start, control.View())
      modifies this, machine, control, limits
      ensures Tracked() && Solvent() && C.Headed(setup.prefix, messages)
      ensures Moved(start, control.View()) && Begun()
      ensures r.Ok? ==> !Open(control.View()) && control.pending == []
      ensures r.Ok? ==> visits != [] && visits[|visits| - 1].AtVerification?
      ensures r.Ok? ==> AnsweredFinally(replies, verdicts, messages)
      ensures r.Err? ==> Justified(r.error)
    {
      while rounds < setup.maxRounds
        invariant Ready() && (visits == [] || F.Whole(visits[|visits| - 1]))
        invariant Moved(start, control.View())
        invariant Begun() && LastHeeded(begun, Now())
        decreases setup.maxRounds - rounds
      {
        var end := NextRound(start);
        if end.Err? {
          return Err(end.error);
        }
        if end.value.Settled? {
          return Ok(true);
        }
      }
      r := Err(BudgetReached);
    }

    /** Every round began with all calls answered, and with all steering and context of the round before applied. */
    ghost predicate Begun()
      reads this
    {
      (forall b <- begun :: Answered(b.messages)) && AllTimely(begun)
    }

    /** One turn of the round loop. */
    method NextRound(ghost start: State) returns (r: Result<RoundEnd, Stop>)
      requires Ready() && rounds < setup.maxRounds && (visits == [] || F.Whole(visits[|visits| - 1]))
      requires Moved(start, control.View()) && Begun() && LastHeeded(begun, Now())
      modifies this, machine, control, limits
      ensures Tracked() && Solvent() && C.Headed(setup.prefix, messages)
      ensures Moved(start, control.View()) && Begun()
      ensures r.Ok? ==> Ready() && rounds == old(rounds) + 1 && F.Whole(visits[|visits| - 1])
      ensures r.Ok? ==> LastHeeded(begun, Now())
      ensures r == Ok(Settled) ==>
        !Open(control.View()) && control.pending == [] && visits[|visits| - 1].AtVerification?
      ensures r == Ok(Settled) ==> AnsweredFinally(replies, verdicts, messages)
      ensures r.Err? ==> Justified(r.error)
    {
      ghost var middle := control.View();
      ghost var now, before := Now(), begun;
      r := RunRound();
      MovedOn(start, middle, control.View());
      EachPaired(before, now, begun);
      EachTimely(before, now, begun);
      if r.Ok? {
        NowHeeded(middle, control.View(), now, Now());
      }
    }

    /** The terminal state an outcome asks for. */
    function TerminalFor(stop: Option<Stop>): F.AgentRunState
      reads this`rounds
    {
      var last := if rounds > 0 then Some(rounds) else None;
      if stop.None? then F.Completed(rounds)
      else if stop.value.Cancellation? then F.Aborted(last)
      else if stop.value.BudgetReached? || stop.value.ModelRefusal? then F.Stopped(last)
      else F.Failed(last)
    }

    /** The last transition; the fallback for an illegal one is never needed. */
    method FinishScope(stop: Option<Stop>) returns (result: Option<Stop>)
      requires Tracked()
      requires stop.None? ==> visits != [] && visits[|visits| - 1].AtVerification?
      modifies machine
      ensures machine.trace == F.Rounds(visits) + [TerminalFor(stop)] && F.Shaped(visits)
      ensures F.Legal(F.Idle, machine.trace) && |machine.trace| <= 4 * setup.maxRounds + 2
      ensures result == stop
    {
      F.FollowedIff(machine.trace, machine.state, visits);
      F.TerminalLegal(visits, TerminalFor(stop));
      F.RoundsLegal(visits);
      TerminalFollows(visits, TerminalFor(stop));
      var legal := machine.Transition(TerminalFor(stop));
      result := if legal then stop else Some(Failure);
    }

    /** Everything a run starts from. */
    ghost predicate Unstarted()
      reads this, control, limits, machine
    {
      && Sound(control.View()) && control.config.maxInputs > 0
      && Solvent() && Positive(setup.maxOutput) && Positive(setup.modelOutput)
      && machine.trace == [] && machine.state == F.Idle && setup.maxRounds <= WORD_MAX
      && visits == [] && begun == [] && rounds == 0
      && Answered(messages) && C.Headed(setup.prefix, messages)
    }

    method Start()
      requires Unstarted()
      modifies machine, control
      ensures Ready() && visits == [] && begun == []
      ensures Moved(old(control.View()), control.View())
    {
      StartedSound(control.View());
      control.Start();
      var ok := machine.Transition(F.Preparing);
      F.FollowedIff(machine.trace, machine.state, visits);
    }

    /** Close the control for good and report what was accepted but never applied. */
    method CloseControl() returns (left: seq<Input>)
      requires Sound(control.View())
      modifies control
      ensures control.status.Finished? && Moved(old(control.View()), control.View())
      ensures multiset(control.history.accepted) == multiset(control.history.applied) + multiset(left)
      ensures left == Inputs(control.pending) && Fifo(control.View())
    {
      ghost var start := control.View();
      left := SealControl();
      ghost var sealed := control.View();
      Hosts();
      ghost var last := control.View();
      OneTaken(start, sealed, last, last);
      ClosedSound(last, Finished);
      control.Finish();
      MovedOn(start, last, control.View());
      assert Holds(control.View(), Conservation) && Holds(control.View(), Order);
    }

    /** Close the queue and report what is in it. */
    method SealControl() returns (left: seq<Input>)
      requires Sound(control.View())
      modifies control
      ensures !Open(control.View()) && Moved(old(control.View()), control.View())
      ensures left == Inputs(control.pending)
    {
      ghost var start := control.View();
      MovedSelf(start);
      Hosts();
      ghost var open := control.View();
      OneTaken(start, start, open, open);
      ClosedSound(open, Finishing);
      left := control.Seal();
      MovedOn(start, open, control.View());
    }

    /** What is true when a run is over. */
    ghost predicate Ended(outcome: Option<Stop>, left: seq<Input>)
      reads this, control, limits, machine
    {
      && control.status.Finished? && Sound(control.View())
      && multiset(control.history.accepted) == multiset(control.history.applied) + multiset(left)
      && (outcome.None? ==> left == [] && AnsweredFinally(replies, verdicts, messages))
      && (outcome.Some? ==> Justified(outcome.value))
      && left == Inputs(control.pending) && Fifo(control.View())
      && Begun() && C.Headed(setup.prefix, messages) && Modest(visits, setup.callsPerRound)
      && machine.trace == F.Rounds(visits) + [TerminalFor(outcome)] && F.Shaped(visits)
      && F.Legal(F.Idle, machine.trace) && |machine.trace| <= 4 * setup.maxRounds + 2
      && Solvent()
    }

    /**
     * A whole run under any interleaving. It ends closed; what was accepted is exactly what was applied plus
     * what is reported as left over, which is nothing when the run completes; every round began with all calls
     * answered, and with all steering and deferred context accepted before the previous round applied; the system
     * messages in front survive; the lifecycle trace is legal and short; no round dispatched more calls than it
     * may; every request was within the token budget, sent while nothing had ended the run, and charged what its
     * reply came to, and the tokens used are the sum of those charges; a completed run ends with a complete reply
     * that the verifier accepted; and a run stops short only for the reason it gives.
     */
    method Run() returns (outcome: Option<Stop>, left: seq<Input>)
      requires Unstarted()
      modifies this, machine, control, limits
      ensures Ended(outcome, left)
    {
      Start();
      var execution := RunInner();
      outcome, left := Conclude(execution);
    }

    /** What follows the round loop: one more check, the closing of the control, and the last transition. */
    method Conclude(execution: Result<bool, Stop>) returns (outcome: Option<Stop>, left: seq<Input>)
      requires Tracked() && Solvent() && Sound(control.View())
      requires execution.Ok? ==> !Open(control.View()) && control.pending == []
      requires execution.Ok? ==> visits != [] && visits[|visits| - 1].AtVerification?
      requires execution.Err? ==> Justified(execution.error)
      modifies this`hindered, machine, control, limits`stopped, limits`cancelled
      ensures control.status.Finished? && Moved(old(control.View()), control.View())
      ensures multiset(control.history.accepted) == multiset(control.history.applied) + multiset(left)
      ensures outcome.None? ==> left == [] && execution.Ok?
      ensures outcome.Some? ==> Justified(outcome.value)
      ensures left == Inputs(control.pending) && Fifo(control.View())
      ensures machine.trace == F.Rounds(visits) + [TerminalFor(outcome)] && F.Shaped(visits)
      ensures F.Legal(F.Idle, machine.trace) && |machine.trace| <= 4 * setup.maxRounds + 2
      ensures Solvent()
    {
      outcome := Classify(execution);
      left := CloseControl();
      var recorded := Ask();
      if outcome.None? && !recorded {
        outcome := Some(Failure);
      }
      outcome := FinishScope(outcome);
    }

    /** A failure that came before any limit is kept; otherwise one more check may end the run another way. */
    method Classify(execution: Result<bool, Stop>) returns (outcome: Option<Stop>)
      requires Tracked() && Solvent() && (execution.Err? ==> Justified(execution.error))
      modifies limits`stopped, limits`cancelled
      ensures Tracked() && Solvent()
      ensures outcome.Some? ==> Justified(outcome.value)
      ensures outcome.None? ==> execution.Ok?
      ensures execution.Ok? && !limits.cancelled ==> outcome.None?
      ensures outcome.Some? && limits.stopped.Some? ==> outcome == Some(BudgetReached)
      ensures execution == Err(Failure) && old(limits.stopped).None? ==> outcome == Some(Failure)
      ensures !(execution == Err(Failure) && old(limits.stopped).None?) ==>
        outcome ==
          if !limits.cancelled then (if execution.Err? then Some(execution.error) else None)
          else Some(if limits.stopped.Some? then BudgetReached else Cancellation)
    {
      outcome := if execution.Err? then Some(execution.error) else None;
      var preserved := limits.stopped.None? && execution.Err? && execution.error.Failure?;
      if !preserved {
        var ok := CheckLimits();
        if !ok {
          var why := Reason();
          outcome := Some(why);
        }
      }
    }
  }

  /** A run from its parts: every configuration the constructors accept is one a run can start from. */
  method Launch(config: Config, budget: L.Budget, setup: Setup, history: seq<Message>)
    returns (executor: Executor, outcome: Option<Stop>, left: seq<Input>)
    requires config.maxInputs > 0 && config.maxInputBytes > 0 && 0 < config.maxBytes <= WORD_MAX
    requires budget.maxOutputBytes.Some? ==> budget.maxOutputBytes.value <= WORD_MAX
    requires budget.maxTokens.Some? ==> budget.maxTokens.value <= WORD_MAX
    requires setup.maxRounds <= WORD_MAX && Positive(setup.maxOutput) && Positive(setup.modelOutput)
    requires Answered(history) && C.Headed(setup.prefix, history)
    ensures executor.setup == setup && executor.control.config == config && executor.limits.budget == budget
    ensures executor.Ended(outcome, left)
  {
    FreshSound(config);
    var control := new O.ControlState(config);
    var machine := new F.AgentRunStateMachine();
    var limits := new L.RunLimiter(budget);
    NothingSent(budget.maxTokens);
    executor := new Executor(control, machine, limits, setup, history);
    outcome, left := executor.Run();
  }

  /** A valid reply without calls that is complete is one a run may end with. */
  lemma ValidReply(reply: Reply)
    requires WellFormed(reply)
    ensures reply.message.role == T.Assistant && C.NoResults(reply.message)
    ensures reply.stop.Complete? && C.Called(reply.message) == [] ==> Final(reply)
  {
    WellFormedIff(reply);
    C.ResponseValidIff(reply.message, reply.stop);
  }

  lemma FinallyTold(
    replies: seq<Reply>, verdicts: seq<Verdict>, said: seq<Message>, messages: seq<Message>, reply: Reply)
    requires replies != [] && replies[|replies| - 1] == reply && Final(reply)
    requires verdicts != [] && verdicts[|verdicts| - 1].Accepted?
    requires said + [reply.message] <= messages
    ensures AnsweredFinally(replies, verdicts, messages)
  {
    assert messages[|said|] == reply.message;
  }

  lemma StillAnswered(ms: seq<Message>, m: Message)
    requires Answered(ms) && Deliverable(m)
    ensures Answered(ms + [m])
  {
    AnsweredIff(ms);
    AnsweredIff(ms + [m]);
    C.AppendDeliverable(ms, m);
  }

  lemma WellFormedIff(reply: Reply)
    ensures WellFormed(reply) <==> Checked(reply)
  {
    if WellFormed(reply) {
      assert Checked(reply);
    }
  }

  lemma EachPaired(before: seq<Beginning>, now: Beginning, after: seq<Beginning>)
    requires (forall b <- before :: Answered(b.messages)) && Answered(now.messages) && BegunOnce(before, now, after)
    ensures forall b <- after :: Answered(b.messages)
  {}

  /** What a round starts from: the conversation, and the inputs accepted and applied so far. */
  datatype Beginning = Beginning(messages: seq<Message>, accepted: seq<Input>, applied: seq<Input>)

  /** At most one more round was begun. */
  predicate BegunOnce(before: seq<Beginning>, now: Beginning, after: seq<Beginning>) {
    after == before || after == before + [now]
  }

  /** All steering and all deferred context accepted up to `s` is applied by `t`. */
  ghost predicate Heeded(s: State, t: State) {
    forall kind: Kind :: kind.FollowUp? || CaughtUp(s, t, kind)
  }

  lemma HeededBoth(s: State, t: State, u: State)
    requires Sound(s) && Moved(s, t) && Moved(t, u) && CaughtUp(s, t, Steer) && CaughtUp(t, u, Context)
    ensures Heeded(s, u)
  {
    MovedSelf(s);
    MovedSelf(u);
    CaughtUpOn(s, s, t, u, Steer);
    CaughtUpOn(s, t, u, u, Context);
  }

  /** What was accepted before one round began is applied before the next one begins; follow-ups wait. */
  ghost predicate Timely(a: Beginning, b: Beginning) {
    forall kind: Kind :: kind.FollowUp? || OfKind(a.accepted, kind) <= OfKind(b.applied, kind)
  }

  ghost predicate AllTimely(begun: seq<Beginning>) {
    forall i, j :: 0 <= i < j < |begun| && j == i + 1 ==> Timely(begun[i], begun[j])
  }

  /** The round begun last, if there is one, left nothing of what was accepted before it. */
  ghost predicate LastHeeded(begun: seq<Beginning>, now: Beginning) {
    begun != [] ==> Timely(begun[|begun| - 1], now)
  }

  lemma EachTimely(before: seq<Beginning>, now: Beginning, after: seq<Beginning>)
    requires AllTimely(before) && LastHeeded(before, now) && BegunOnce(before, now, after)
    ensures AllTimely(after)
  {}

  lemma NowHeeded(s: State, t: State, was: Beginning, now: Beginning)
    requires Heeded(s, t) && was.accepted == s.history.accepted && now.applied == t.history.applied
    ensures Timely(was, now)
  {
    forall kind: Kind ensures kind.FollowUp? || OfKind(was.accepted, kind) <= OfKind(now.applied, kind) {
      assert kind.FollowUp? || CaughtUp(s, t, kind);
    }
  }

  function FollowUps(batch: seq<Input>): nat {
    if batch == [] then 0 else (if batch[0].kind.FollowUp? then 1 else 0) + FollowUps(batch[1..])
  }

  lemma {:induction false} FollowUpsConcat(a: seq<Input>, b: seq<Input>)
    ensures FollowUps(a + b) == FollowUps(a) + FollowUps(b)
    decreases a
  {
    if a == [] {
      assert a + b == b;
    } else {
      FollowUpsConcat(a[1..], b);
      assert (a + b)[0] == a[0] && (a + b)[1..] == a[1..] + b;
    }
  }

  lemma {:induction false} NoFollowUps(batch: seq<Input>)
    requires forall i :: 0 <= i < |batch| ==> !batch[i].kind.FollowUp?
    ensures FollowUps(batch) == 0
    decreases batch
  {
    if batch != [] {
      NoFollowUps(batch[1..]);
    }
  }

  lemma AtMostOneFollowUp(batch: seq<Input>, more: seq<Input>, late: seq<Input>)
    requires Deferred(more) && AtBoundary(late, true)
    ensures FollowUps(batch + (more + late)) <= FollowUps(batch) + 1
    ensures late == [] ==> FollowUps(batch + (more + late)) == FollowUps(batch)
    ensures batch == more == [] ==> FollowUps(late) <= 1
  {
    FollowUpsConcat(batch, more + late);
    FollowUpsConcat(more, late);
    NoFollowUps(more);
    if late != [] {
      NoFollowUps(late[1..]);
    }
  }

  /** `v` is how far a round is once it moves from `from` into `to`. */
  predicate Continues(from: F.Visit, v: F.Visit, round: nat, to: F.AgentRunState) {
    && F.Entered(v, round) == F.Entered(from, round) + [to]
    && F.ValidTransition(F.Last(from, round), to) && F.Last(v, round) == to
    && (v.AtTools? ==> v.count > 0)
  }

  function WithLast(visits: seq<F.Visit>, v: F.Visit): (r: seq<F.Visit>)
    requires visits != []
    ensures |r| == |visits| && r[|r| - 1] == v
  {
    visits[..|visits| - 1] + [v]
  }

  /** No round dispatches more calls than a round may. */
  ghost predicate Modest(visits: seq<F.Visit>, perRound: nat) {
    forall limit: nat :: limit == perRound ==> AtMostCalls(visits, limit)
  }

  predicate AtMostCalls(visits: seq<F.Visit>, limit: nat) {
    forall v <- visits :: v.AtTools? ==> v.count <= limit
  }

  lemma ModestLast(visits: seq<F.Visit>, perRound: nat, v: F.Visit)
    requires Modest(visits, perRound) && (v.AtTools? ==> v.count <= perRound)
    ensures visits != [] ==> Modest(WithLast(visits, v), perRound)
    ensures Modest(visits + [v], perRound)
  {
    assert AtMostCalls(visits, perRound);
    assert AtMostCalls(visits + [v], perRound);
    if visits != [] {
      assert forall x <- WithLast(visits, v) :: x == v || x in visits;
      assert AtMostCalls(WithLast(visits, v), perRound);
    }
  }

  lemma AdvanceShaped(visits: seq<F.Visit>, v: F.Visit)
    requires F.Shaped(visits) && visits != [] && (v.AtTools? ==> v.count > 0)
    ensures F.Shaped(WithLast(visits, v))
  {
    var next := WithLast(visits, v);
    assert forall i :: 0 <= i < |visits| - 1 ==> next[i] == visits[i];
  }

  lemma AdvanceTrace(visits: seq<F.Visit>, v: F.Visit, to: F.AgentRunState)
    requires visits != [] && Continues(visits[|visits| - 1], v, |visits|, to)
    ensures F.Rounds(WithLast(visits, v)) == F.Rounds(visits) + [to]
  {
    var n := |visits|;
    assert WithLast(visits, v)[..n - 1] == visits[..n - 1];
    Assoc(F.Rounds(visits[..n - 1]), F.Entered(visits[n - 1], n), [to]);
  }

  lemma TerminalFollows(visits: seq<F.Visit>, terminal: F.AgentRunState)
    requires F.Rounds(visits) != [] && F.Rounds(visits)[|F.Rounds(visits)| - 1] == F.LastOf(visits)
    requires F.Legal(F.Idle, F.Rounds(visits) + [terminal])
    ensures F.ValidTransition(F.LastOf(visits), terminal)
  {
    assert F.LegalAt(F.Idle, F.Rounds(visits) + [terminal], |F.Rounds(visits)|);
  }

  lemma BeginShaped(visits: seq<F.Visit>)
    requires F.Shaped(visits) && (visits == [] || F.Whole(visits[|visits| - 1]))
    ensures F.Shaped(visits + [F.AtModel])
    ensures |visits| < WORD_MAX ==> F.ValidTransition(F.LastOf(visits), F.AwaitingModel(|visits| + 1))
  {}

  lemma BeginTrace(visits: seq<F.Visit>)
    ensures
      var next := visits + [F.AtModel];
      && F.Rounds(next) == F.Rounds(visits) + [F.AwaitingModel(|visits| + 1)]
      && F.LastOf(next) == F.AwaitingModel(|visits| + 1)
  {
    assert (visits + [F.AtModel])[..|visits|] == visits;
  }

  datatype Drained = Empty | Refilled | Resumed

  /** With nothing left in the queue after `next`, there is no deferred context exactly when the run was closed. */
  lemma ClosedQueue(offered: State, taken: State, now: State)
    requires Chosen(offered.pending, true).None? && taken == Taken(offered, true, true)
    requires Disturbed(taken, now)
    ensures FirstOf(now.pending, Context).None? ==> !Open(now) && now.pending == []
  {
    TakenCloses(offered);
    ContextStays(taken.pending, now.pending);
  }

  predicate Deferred(batch: seq<Input>) {
    forall input <- batch :: input.kind.Context?
  }

  lemma ContextStays(q: seq<Queued>, q': seq<Queued>)
    ensures q <= q' && FirstOf(q, Context).Some? ==> FirstOf(q', Context).Some?
  {
    if q <= q' && FirstOf(q, Context).Some? {
      FirstOfPrefix(q, q', Context);
    }
  }

  lemma KindOfFirst(q: seq<Queued>, kind: Kind)
    ensures FirstOf(q, kind).Some? ==> FirstOf(q, kind).value.kind == kind
  {
    FirstOfNone(q, kind);
  }

  lemma StartedSound(s: State)
    requires Sound(s)
    ensures Moved(s, Started(s))
  {
    StepSound(s, Event.Start);
    assert Step(s, Event.Start) == Started(s);
  }

  lemma ClosedSound(s: State, status: Status)
    requires Sound(s) && (status.Finishing? || status.Finished?)
    ensures Moved(s, CloseWith(s, status)) && CloseWith(s, status).history == s.history
  {
    var e := if status.Finishing? then Event.Seal else Event.Finish;
    StepSound(s, e);
    assert Step(s, e) == CloseWith(s, status);
  }

  lemma DisturbedSelf(s: State)
    requires Sound(s)
    ensures Disturbed(s, s)
  {}

  lemma MovedSelf(s: State)
    requires Sound(s)
    ensures Moved(s, s)
  {}

  /** Steering, except that the first input after a completion may be a follow-up. */
  predicate AtBoundary(batch: seq<Input>, after: bool) {
    forall i :: 0 <= i < |batch| ==> batch[i].kind.Steer? || (after && i == 0 && batch[i].kind.FollowUp?)
  }

  /** Some steering or some follow-up was applied. */
  ghost predicate Steered(s: State, t: State) {
    exists i :: |s.history.applied| <= i < |t.history.applied| && !t.history.applied[i].kind.Context?
  }

  lemma BoundarySteers(s: State, t: State, batch: seq<Input>)
    requires t.history.applied == s.history.applied + batch && AtBoundary(batch, true)
    ensures batch != [] ==> Steered(s, t)
  {
    if batch != [] {
      assert t.history.applied[|s.history.applied|] == batch[0];
    }
  }

  lemma SteeredOn(s: State, t: State, u: State)
    requires Moved(s, t)
    ensures Steered(t, u) ==> Steered(s, u)
  {}

  lemma OneTaken(start: State, before: State, offered: State, now: State)
    requires Moved(start, before) && Disturbed(before, offered) && Moved(offered, now) && now.history == offered.history
    ensures Moved(start, now) && now.history.applied == before.history.applied
  {
    DisturbedMoves(before, offered);
    MovedOn(start, before, offered);
    MovedOn(start, offered, now);
  }

  /** The loop over steering ends with none queued, or after as many inputs as the queue can hold. */
  lemma SteeringApplied(s: State, t: State, batch: seq<Input>, empty: bool)
    requires Sound(s) && Moved(s, t) && t.history.applied == s.history.applied + batch && AtBoundary(batch, false)
    requires if empty then FirstOf(t.pending, Steer).None? else |batch| == s.config.maxInputs
    ensures CaughtUp(s, t, Steer)
  {
    if empty {
      EmptyCatchesUp(s, t, Steer);
    } else {
      QueueBounded(s);
      CountCatchesUp(s, t, Steer, batch);
    }
  }

  lemma ChosenStays(q: seq<Queued>, q': seq<Queued>, followUp: bool)
    ensures q <= q' && Chosen(q, followUp).Some? ==> Chosen(q', followUp).Some?
  {
    if q <= q' && Chosen(q, followUp).Some? {
      ChosenPrefix(q, q', followUp);
    }
  }

  lemma {:induction false} MessagesConcat(a: seq<Input>, b: seq<Input>)
    ensures MessagesOf(a + b) == MessagesOf(a) + MessagesOf(b)
    decreases a
  {
    if a == [] {
      assert a + b == b;
    } else {
      MessagesConcat(a[1..], b);
      assert (a + b)[0] == a[0] && (a + b)[1..] == a[1..] + b;
      Assoc([a[0].message], MessagesOf(a[1..]), MessagesOf(b));
    }
  }

  lemma TookMore(
      a: State, b: State, c: State, first: seq<Message>, second: seq<Message>, third: seq<Message>,
      batch: seq<Input>, more: seq<Input>)
    requires b.history.applied == a.history.applied + batch && second == first + MessagesOf(batch)
    requires Took(b, c, second, third, more)
    ensures Took(a, c, first, third, batch + more)
  {
    MessagesConcat(batch, more);
    Assoc(a.history.applied, batch, more);
    Assoc(first, MessagesOf(batch), MessagesOf(more));
  }

  /** The batch moved from the queue to the history of applied inputs and, in the same order, to the conversation. */
  ghost predicate Took(a: State, b: State, before: seq<Message>, after: seq<Message>, batch: seq<Input>) {
    b.history.applied == a.history.applied + batch && after == before + MessagesOf(batch)
  }

  lemma NothingTaken(s: State, ms: seq<Message>)
    ensures Took(s, s, ms, ms, [])
  {}
}
