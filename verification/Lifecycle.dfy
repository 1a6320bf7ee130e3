/** The lifecycle of one agent run: its states, its legal transitions, and the shape of a whole trace. */
module Lifecycle {
  import opened Wrappers

  datatype AgentRunState =
    | Idle
    | Preparing
    | AwaitingModel(round: nat)
    | VerifyingCompletion(round: nat)
    | ExecutingTools(round: nat, count: nat)
    | Compacting(round: nat)
    | Completed(rounds: nat)
    | Failed(last: Option<nat>)
    | Aborted(last: Option<nat>)
    | Stopped(last: Option<nat>)

  predicate Interrupted(s: AgentRunState) {
    s.Failed? || s.Aborted? || s.Stopped?
  }

  predicate InRound(s: AgentRunState) {
    s.AwaitingModel? || s.VerifyingCompletion? || s.ExecutingTools? || s.Compacting?
  }

  predicate ValidTransition(a: AgentRunState, b: AgentRunState) {
    if a.Idle? then b.Preparing?
    else if a.Preparing? then b == AwaitingModel(1) || (Interrupted(b) && b.last.None?)
    else if InRound(a) && Interrupted(b) then b.last == Some(a.round)
    else if a.AwaitingModel? then
      || (b.VerifyingCompletion? && b.round == a.round)
      || (b.ExecutingTools? && b.round == a.round && b.count > 0)
      || (b.Compacting? && b.round == a.round)
    else if a.Compacting? then b == AwaitingModel(a.round)
    else if a.VerifyingCompletion? then
      || (b.AwaitingModel? && a.round < WORD_MAX && b.round == a.round + 1)
      || (b.Completed? && b.rounds == a.round)
    else if a.ExecutingTools? then b.AwaitingModel? && a.round < WORD_MAX && b.round == a.round + 1
    else false
  }

  /** Where the run is, in its round. */
  function RoundOf(s: AgentRunState): Option<nat> {
    match s
    case AwaitingModel(r) => Some(r)
    case VerifyingCompletion(r) => Some(r)
    case ExecutingTools(r, _) => Some(r)
    case Compacting(r) => Some(r)
    case _ => None
  }

  /** Which states may come before each state: the transitions, seen from where they lead. */
  lemma TransitionRules(a: AgentRunState, b: AgentRunState)
    ensures ValidTransition(a, b) <==> match b
      case Idle => false
      case Preparing => a == Idle
      case AwaitingModel(r) =>
        || (a == Preparing && r == 1)
        || (r <= WORD_MAX && (a.ExecutingTools? || a.VerifyingCompletion?) && a.round + 1 == r)
        || a == Compacting(r)
      case VerifyingCompletion(r) => a == AwaitingModel(r)
      case ExecutingTools(r, count) => a == AwaitingModel(r) && count > 0
      case Compacting(r) => a == AwaitingModel(r)
      case Completed(r) => a == VerifyingCompletion(r)
      case Failed(last) => (a == Preparing || RoundOf(a).Some?) && last == RoundOf(a)
      case Aborted(last) => (a == Preparing || RoundOf(a).Some?) && last == RoundOf(a)
      case Stopped(last) => (a == Preparing || RoundOf(a).Some?) && last == RoundOf(a)
  {}

  class AgentRunStateMachine {
    var state: AgentRunState
    /** Every state entered so far. */
    ghost var trace: seq<AgentRunState>

    constructor ()
      ensures state == Idle && trace == []
    {
      state, trace := Idle, [];
    }

    /** A legal request is carried out; an illegal one changes nothing. */
    method Transition(requested: AgentRunState) returns (ok: bool)
      modifies this
      ensures ok <==> ValidTransition(old(state), requested)
      ensures ok ==> state == requested && trace == old(trace) + [requested]
      ensures !ok ==> state == old(state) && trace == old(trace)
    {
      ok := ValidTransition(state, requested);
      if ok {
        state := requested;
        trace := trace + [requested];
      }
    }
  }

  // ----- whole traces -----

  /** The `i`-th state entered is a legal successor of the one before it. */
  predicate LegalAt(from: AgentRunState, trace: seq<AgentRunState>, i: nat)
    requires i < |trace|
  {
    ValidTransition(if i == 0 then from else trace[i - 1], trace[i])
  }

  ghost predicate Legal(from: AgentRunState, trace: seq<AgentRunState>) {
    forall i: nat :: i < |trace| ==> LegalAt(from, trace, i)
  }

  /** How far one round got. */
  datatype Visit =
    | AtModel
    | AtCompaction
    | AfterCompaction
    | AtVerification(compacted: bool)
    | AtTools(compacted: bool, count: nat)

  predicate Whole(v: Visit) {
    v.AtVerification? || (v.AtTools? && v.count > 0)
  }

  function Opening(compacted: bool, round: nat): seq<AgentRunState> {
    if compacted then [AwaitingModel(round), Compacting(round), AwaitingModel(round)] else [AwaitingModel(round)]
  }

  /** The states one round enters. */
  function Entered(v: Visit, round: nat): seq<AgentRunState> {
    match v
    case AtModel => [AwaitingModel(round)]
    case AtCompaction => [AwaitingModel(round), Compacting(round)]
    case AfterCompaction => Opening(true, round)
    case AtVerification(compacted) => Opening(compacted, round) + [VerifyingCompletion(round)]
    case AtTools(compacted, count) => Opening(compacted, round) + [ExecutingTools(round, count)]
  }

  /** The trace of the rounds `visits`, the last of which is round |visits|. */
  function Rounds(visits: seq<Visit>): seq<AgentRunState> {
    if visits == [] then [Preparing]
    else Rounds(visits[..|visits| - 1]) + Entered(visits[|visits| - 1], |visits|)
  }

  /** All rounds but the last ran to their end. */
  ghost predicate Shaped(visits: seq<Visit>) {
    && (forall i :: 0 <= i < |visits| - 1 ==> Whole(visits[i]))
    && forall i :: 0 <= i < |visits| ==> visits[i].AtTools? ==> visits[i].count > 0
  }

  function Last(v: Visit, round: nat): AgentRunState {
    match v
    case AtModel => AwaitingModel(round)
    case AtCompaction => Compacting(round)
    case AfterCompaction => AwaitingModel(round)
    case AtVerification(_) => VerifyingCompletion(round)
    case AtTools(_, count) => ExecutingTools(round, count)
  }

  function LastOf(visits: seq<Visit>): AgentRunState {
    if visits == [] then Preparing else Last(visits[|visits| - 1], |visits|)
  }

  datatype Facet = Trace | Current | Shape

  ghost predicate Kept(f: Facet, trace: seq<AgentRunState>, state: AgentRunState, visits: seq<Visit>) {
    match f
    case Trace => trace == Rounds(visits)
    case Current => state == LastOf(visits)
    case Shape => Shaped(visits)
  }

  /** The lifecycle has been through exactly these rounds. */
  ghost predicate Followed(trace: seq<AgentRunState>, state: AgentRunState, visits: seq<Visit>) {
    forall f: Facet :: Kept(f, trace, state, visits)
  }

  lemma FollowedIff(trace: seq<AgentRunState>, state: AgentRunState, visits: seq<Visit>)
    ensures Followed(trace, state, visits) <==> trace == Rounds(visits) && state == LastOf(visits) && Shaped(visits)
  {
    if Followed(trace, state, visits) {
      assert Kept(Trace, trace, state, visits) && Kept(Current, trace, state, visits);
      assert Kept(Shape, trace, state, visits);
    }
  }

  lemma LegalAppend(from: AgentRunState, a: seq<AgentRunState>, b: seq<AgentRunState>)
    requires a != [] && Legal(from, a) && Legal(a[|a| - 1], b)
    ensures Legal(from, a + b)
  {
    var c := a + b;
    forall i: nat | i < |c| ensures LegalAt(from, c, i) {
      if i < |a| {
        assert LegalAt(from, a, i);
        assert c[i] == a[i] && (i > 0 ==> c[i - 1] == a[i - 1]);
      } else {
        assert LegalAt(a[|a| - 1], b, i - |a|);
        assert c[i] == b[i - |a|] && c[i - 1] == if i == |a| then a[|a| - 1] else b[i - |a| - 1];
      }
    }
  }

  lemma EnteredLegal(v: Visit, round: nat, from: AgentRunState)
    requires v.AtTools? ==> v.count > 0
    requires ValidTransition(from, AwaitingModel(round))
    ensures Legal(from, Entered(v, round))
    ensures 0 < |Entered(v, round)| <= 4
    ensures Entered(v, round)[|Entered(v, round)| - 1] == Last(v, round)
  {}

  /** A run that goes through its rounds in this shape never requests an illegal transition, and is short. */
  lemma {:induction false} RoundsLegal(visits: seq<Visit>)
    requires Shaped(visits) && |visits| <= WORD_MAX
    ensures Legal(Idle, Rounds(visits))
    ensures 0 < |Rounds(visits)| <= 1 + 4 * |visits|
    ensures Rounds(visits)[|Rounds(visits)| - 1] == LastOf(visits)
    decreases |visits|
  {
    if visits != [] {
      var n := |visits|;
      var before, v := visits[..n - 1], visits[n - 1];
      RoundsLegal(before);
      assert n > 1 ==> before[n - 2] == visits[n - 2] && Whole(visits[n - 2]);
      EnteredLegal(v, n, LastOf(before));
      LegalAppend(Idle, Rounds(before), Entered(v, n));
    }
  }

  /** Every terminal state an outcome can ask for is legal from where its last round stopped. */
  lemma TerminalLegal(visits: seq<Visit>, terminal: AgentRunState)
    requires Shaped(visits) && |visits| <= WORD_MAX
    requires
      || (Interrupted(terminal) && terminal.last == if visits == [] then None else Some(|visits|))
      || (terminal == Completed(|visits|) && LastOf(visits).VerifyingCompletion?)
    ensures Legal(Idle, Rounds(visits) + [terminal])
    ensures |Rounds(visits) + [terminal]| <= 4 * |visits| + 2
  {
    RoundsLegal(visits);
    LegalAppend(Idle, Rounds(visits), [terminal]);
  }
}
