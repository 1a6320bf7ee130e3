/** The window policy, the guard around every policy, and convergence of compaction. */
module ContextPolicy {
  import opened Wrappers
  import opened Transcript
  import opened ModelView
  import opened Pruning
  import opened PruneShape

  /** The window policy's own codes are fixed ASCII words; any other policy brings its own text. */
  datatype Code = NoInputCapacity | ConfiguredContextExceedsModel | ModelContextExceeded | Foreign(text: string)

  datatype Decision = Keep | Compact(targetTokens: nat) | Reject(code: Code)

  /** What a policy sees: the counted view, the configured target and the legacy estimate, if any. */
  datatype PolicyInput = PolicyInput(
    contextTokens: Option<nat>, tokens: nat, compactorTarget: Option<nat>,
    legacyEstimate: Option<nat>, outputReservation: nat)

  /** The part of a known window that input may use. */
  function Known(input: PolicyInput): Option<nat> {
    match input.contextTokens
    case None => None
    case Some(window) => Some(SatSub(window, input.outputReservation))
  }

  function OrElse(a: Option<nat>, b: Option<nat>): Option<nat> {
    if a.Some? then a else b
  }

  function GetOr(a: Option<nat>, d: nat): nat {
    if a.Some? then a.value else d
  }

  function WindowDecide(input: PolicyInput): Decision {
    var known := Known(input);
    if known == Some(0) then Reject(NoInputCapacity)
    else if input.compactorTarget.Some? && known.Some? && input.compactorTarget.value > known.value then
      Reject(ConfiguredContextExceedsModel)
    else
      var target := OrElse(input.compactorTarget, known);
      if target.Some? && Max(input.tokens, GetOr(input.legacyEstimate, 0)) > target.value then
        if input.compactorTarget.Some? then Compact(target.value) else Reject(ModelContextExceeded)
      else Keep
  }

  predicate PlainCode(code: Code) {
    code.Foreign? ==> 0 < |code.text| <= 128 && forall c :: c in code.text ==> ' ' <= c <= '~'
  }

  datatype Violation = KeptTooMuch | InvalidTarget | NoCompactor | InvalidRejection

  /** The guard that every policy's answer passes through. */
  function Admit(input: PolicyInput, decision: Decision): Result<Decision, Violation> {
    var known := Known(input);
    match decision
    case Keep => if known.Some? && input.tokens > known.value then Err(KeptTooMuch) else Ok(decision)
    case Compact(t) =>
      if t == 0 || (known.Some? && t > known.value) then Err(InvalidTarget)
      else if input.compactorTarget.None? then Err(NoCompactor)
      else Ok(decision)
    case Reject(code) => if PlainCode(code) then Ok(decision) else Err(InvalidRejection)
  }

  /** The room a known window leaves for input once the output is reserved, which may be none. */
  predicate RoomIs(input: PolicyInput, room: nat) {
    && input.contextTokens.Some?
    && (input.contextTokens.value >= input.outputReservation ==>
          input.outputReservation + room == input.contextTokens.value)
    && (input.contextTokens.value < input.outputReservation ==> room == 0)
  }

  predicate OverTarget(input: PolicyInput, target: nat) {
    input.tokens > target || (input.legacyEstimate.Some? && input.legacyEstimate.value > target)
  }

  /** When the window policy keeps, compacts and rejects: with each of its inputs known or not. */
  lemma WindowRules(input: PolicyInput)
    ensures
      var window, target, d := input.contextTokens, input.compactorTarget, WindowDecide(input);
      && (d == Reject(NoInputCapacity) <==> window.Some? && window.value <= input.outputReservation)
      && (d == Reject(ConfiguredContextExceedsModel) <==>
            window.Some? && window.value > input.outputReservation && target.Some?
            && target.value + input.outputReservation > window.value)
      && (d == Reject(ModelContextExceeded) <==>
            target.None? && exists room: nat :: RoomIs(input, room) && room > 0 && OverTarget(input, room))
      && (forall t: nat :: d == Compact(t) <==>
            && target == Some(t) && OverTarget(input, t)
            && (window.Some? ==> window.value > input.outputReservation && t + input.outputReservation <= window.value))
      && (d == Keep || d.Compact? || d == Reject(NoInputCapacity) || d == Reject(ConfiguredContextExceedsModel)
            || d == Reject(ModelContextExceeded))
  {
    if input.contextTokens.Some? {
      assert RoomIs(input, Known(input).value);
    }
  }

  /** What the guard lets through: a context that fits beside its output, a target in the window, a printable code. */
  lemma AdmitRules(input: PolicyInput, decision: Decision)
    ensures Admit(input, decision).Ok? ==> Admit(input, decision).value == decision
    ensures Admit(input, decision).Ok? <==> match decision
      case Keep => input.contextTokens.Some? ==>
        input.tokens == 0 || input.tokens + input.outputReservation <= input.contextTokens.value
      case Compact(t) =>
        && t > 0 && input.compactorTarget.Some?
        && (input.contextTokens.Some? ==> t + input.outputReservation <= input.contextTokens.value)
      case Reject(Foreign(text)) =>
        && 0 < |text| && |text| <= 128
        && forall k :: 0 <= k < |text| ==> 0x20 <= text[k] as int <= 0x7E
      case Reject(_) => true
  {
    if decision.Reject? && decision.code.Foreign? {
      var text := decision.code.text;
      assert forall k :: 0 <= k < |text| ==> text[k] in text;
    }
  }

  /**
   The guard refuses the window policy's own answer in exactly one case: a compactor configured with a
   zero target, asked about a nonempty count, under a window that is unknown or has room for input.
   */
  lemma WindowPolicyRefusedIff(input: PolicyInput)
    ensures Admit(input, WindowDecide(input)).Err? <==>
      && input.compactorTarget == Some(0)
      && Known(input) != Some(0)
      && (input.tokens > 0 || GetOr(input.legacyEstimate, 0) > 0)
    ensures Admit(input, WindowDecide(input)).Err? ==> Admit(input, WindowDecide(input)) == Err(InvalidTarget)
  {
  }

  /** The question asked again about another message list, with no legacy estimate. */
  function Again(input: PolicyInput, m: Measure, ms: seq<Message>): PolicyInput {
    input.(tokens := Count(m, ms), legacyEstimate := None)
  }

  /** Compaction converges in one step: once pruning meets the policy's target, the policy keeps the result. */
  lemma CompactionConverges(input: PolicyInput, m: Measure, preserve: nat, ms: seq<Message>)
    requires input.tokens == Count(m, ms)
    requires WindowDecide(input) == Compact(m.target)
    requires Prune(m, preserve, ms).Ok?
    ensures
      var next := Again(input, m, Prune(m, preserve, ms).value.messages);
      WindowDecide(next) == Keep && Admit(next, Keep) == Ok(Keep)
  {
    PruneMeetsTarget(m, preserve, ms);
  }
}
