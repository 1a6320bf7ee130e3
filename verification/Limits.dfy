/** Resource accounting for one run: output bytes, tool calls and tokens. */
module Limits {
  import opened Wrappers
  import Utf8

  type byte = Utf8.byte

  datatype Resource = ToolCalls | ToolCallsPerRound | Tokens | Duration | OutputBytes | Rounds
  datatype Exceeded = Exceeded(resource: Resource, limit: nat, used: nat, requested: Option<nat>)
  datatype Budget = Budget(maxToolCalls: Option<nat>, maxTokens: Option<nat>, maxOutputBytes: Option<nat>)

  // ----- token charges -----

  datatype Usage = Usage(input: Option<nat>, output: Option<nat>, total: Option<nat>)
  datatype Charge = Charge(used: nat, estimated: bool)

  function Or0(n: Option<nat>): nat {
    if n.Some? then n.value else 0
  }

  /** The provider's own total, or the sum of its parts when both are there and the sum is a word. */
  function Reported(u: Usage): Option<nat> {
    if u.total.Some? then u.total
    else if u.input.Some? && u.output.Some? && u.input.value + u.output.value <= WORD_MAX then
      Some(u.input.value + u.output.value)
    else None
  }

  function FromUsage(u: Usage, estimate: nat): Charge {
    var floor := SatAdd(Or0(u.input), Or0(u.output));
    var reported := Reported(u);
    Charge(
      if reported.Some? then Max(reported.value, floor) else Max(estimate, floor),
      reported.None? || reported.value < floor)
  }

  /** A charge is never below what the provider reported, nor below the estimate when it reported nothing whole. */
  lemma ChargesAreConservative(u: Usage, estimate: nat)
    requires Or0(u.input) <= WORD_MAX && Or0(u.output) <= WORD_MAX && Or0(u.total) <= WORD_MAX && estimate <= WORD_MAX
    ensures
      var c := FromUsage(u, estimate);
      && Or0(u.input) <= c.used && Or0(u.output) <= c.used && Or0(u.total) <= c.used <= WORD_MAX
      && (Or0(u.input) + Or0(u.output) <= WORD_MAX ==> Or0(u.input) + Or0(u.output) <= c.used)
      && (Reported(u).None? ==> estimate <= c.used)
      && (!c.estimated ==> Reported(u) == Some(c.used))
  {}

  /** The charge and its mark, in plain sums: what each combination of reported figures comes to. */
  lemma ChargeExact(u: Usage, estimate: nat)
    ensures
      var sum, c := Or0(u.input) + Or0(u.output), FromUsage(u, estimate);
      && (u.total.Some? ==> c.used == Max(u.total.value, Min(sum, WORD_MAX)))
      && (u.total.Some? ==> (c.estimated <==> u.total.value < Min(sum, WORD_MAX)))
      && (u.total.None? && u.input.Some? && u.output.Some? && sum <= WORD_MAX ==> c == Charge(sum, false))
      && (u.total.None? && (u.input.None? || u.output.None? || sum > WORD_MAX) ==>
            c == Charge(Max(estimate, Min(sum, WORD_MAX)), true))
  {}

  // ----- text that fits -----

  /** How much of a text fits in `available` bytes without splitting a character. */
  function Fit(text: seq<byte>, available: nat): nat {
    BackToBoundary(text, Min(|text|, available))
  }

  function BackToBoundary(text: seq<byte>, end: nat): (r: nat)
    requires end <= |text|
    ensures r <= end && Utf8.Boundary(text, r)
    ensures forall j :: r < j <= end ==> !Utf8.Boundary(text, j)
  {
    if Utf8.Boundary(text, end) then end else BackToBoundary(text, end - 1)
  }

  /** What fits of a valid text is its longest valid prefix within the room there is, at most three bytes short. */
  lemma {:induction false} FitIsTight(text: seq<byte>, available: nat)
    requires Utf8.Valid(text)
    ensures
      var end := Fit(text, available);
      && end <= available && end <= |text|
      && Utf8.Valid(text[..end])
      && (end < |text| ==> available <= end + 3)
      && forall j :: end < j <= |text| && Utf8.Valid(text[..j]) ==> available < j
  {
    var start := Min(|text|, available);
    var j := Utf8.BoundaryNear(text, start);
    Utf8.CutValid(text, Fit(text, available));
    forall j | Fit(text, available) < j <= |text| && Utf8.Valid(text[..j]) ensures available < j {
      Utf8.ValidCut(text, j);
    }
  }

  /** What was retained is a prefix of what was offered, cut between characters, and all of it until the limit. */
  ghost predicate PrefixKept(retained: seq<byte>, offered: seq<byte>, limited: bool) {
    && retained <= offered
    && Utf8.Valid(retained)
    && (!limited ==> retained == offered)
  }

  lemma KeepNothing(retained: seq<byte>, offered: seq<byte>, text: seq<byte>)
    requires PrefixKept(retained, offered, true)
    ensures PrefixKept(retained + [], offered + text, true)
  {
    assert retained + [] == retained;
  }

  lemma KeepPart(retained: seq<byte>, text: seq<byte>, end: nat)
    requires Utf8.Valid(retained) && end <= |text| && Utf8.Valid(text[..end])
    ensures PrefixKept(retained + text[..end], retained + text, end < |text|)
    ensures end == |text| ==> text[..end] == text
  {
    Utf8.ValidAppend(retained, text[..end]);
  }

  /** The backwards search for a character boundary. */
  method CutToFit(text: seq<byte>, available: nat, ghost retained: seq<byte>) returns (kept: seq<byte>)
    requires Utf8.Valid(text) && Utf8.Valid(retained)
    ensures kept == text[..Fit(text, available)] && |kept| <= available
    ensures PrefixKept(retained + kept, retained + text, |kept| < |text|)
    ensures |kept| < |text| ==> available <= |kept| + 3
    ensures |kept| == |text| ==> kept == text
    ensures kept <= text && Utf8.Valid(kept)
    ensures forall j :: |kept| < j <= |text| && Utf8.Valid(text[..j]) ==> available < j
  {
    var end := Min(|text|, available);
    while !Utf8.Boundary(text, end)
      invariant 0 <= end <= |text|
      invariant BackToBoundary(text, end) == Fit(text, available)
      decreases end
    {
      end := end - 1;
    }
    FitIsTight(text, available);
    kept := text[..end];
    KeepPart(retained, text, end);
  }

  class RunLimiter {
    const budget: Budget
    var outputBytes: nat
    var outputLimited: bool
    var toolCalls: nat
    var tokens: nat
    var estimated: bool
    var stopped: Option<Exceeded>
    var failed: bool
    /** The run's cancellation token. */
    var cancelled: bool
    /** Everything offered to and returned by `RetainText`, in order. */
    ghost var offered: seq<byte>
    ghost var retained: seq<byte>

    predicate Valid()
      reads this
    {
      && outputBytes <= WORD_MAX
      && tokens <= WORD_MAX
      && (stopped.Some? || failed ==> cancelled)
      && (budget.maxOutputBytes.Some? ==> outputBytes <= budget.maxOutputBytes.value <= WORD_MAX)
      && (budget.maxToolCalls.Some? ==> toolCalls <= budget.maxToolCalls.value)
    }

    constructor (b: Budget)
      requires b.maxOutputBytes.Some? ==> b.maxOutputBytes.value <= WORD_MAX
      ensures Valid() && PrefixKept(retained, offered, outputLimited) && budget == b && tokens == 0 && !cancelled
    {
      budget := b;
      outputBytes, outputLimited, toolCalls, tokens, estimated := 0, false, 0, 0, false;
      stopped, failed, cancelled, offered, retained := None, false, false, [], [];
    }

    /** The first violation is recorded, unless the run was cancelled already; either way the run ends. */
    method Stop(violation: Exceeded)
      requires Valid()
      modifies this`stopped, this`cancelled
      ensures Valid() && cancelled
      ensures stopped == if old(cancelled) then old(stopped) else Some(violation)
    {
      if stopped.None? && !cancelled {
        stopped := Some(violation);
        cancelled := true;
      }
    }

    predicate Clear(expired: bool)
      reads this
    {
      && !failed && !cancelled && !expired
      && budget.maxOutputBytes != Some(0)
      && (budget.maxTokens.Some? ==> tokens <= budget.maxTokens.value)
    }

    /** Passes exactly when nothing has ended the run; otherwise it is cancelled from here on. */
    method Check(expired: bool) returns (ok: bool)
      requires Valid()
      modifies this`stopped, this`cancelled
      ensures Valid()
      ensures ok <==> old(Clear(expired))
      ensures ok <==> old(
        && !failed && !cancelled && !expired && budget.maxOutputBytes != Some(0)
        && !(budget.maxTokens.Some? && tokens > budget.maxTokens.value))
      ensures ok ==> stopped == old(stopped) && !cancelled
      ensures !ok ==> cancelled
      ensures stopped == old(
        if failed || cancelled then stopped
        else if budget.maxOutputBytes == Some(0) then Some(Exceeded(OutputBytes, 0, 0, None))
        else if budget.maxTokens.Some? && tokens > budget.maxTokens.value then
          Some(Exceeded(Tokens, budget.maxTokens.value, tokens, None))
        else if expired then Some(Exceeded(Duration, 0, 0, None))
        else None)
    {
      if failed {
        return false;
      }
      if budget.maxOutputBytes == Some(0) {
        Stop(Exceeded(OutputBytes, 0, 0, None));
      }
      if budget.maxTokens.Some? && tokens > budget.maxTokens.value {
        Stop(Exceeded(Tokens, budget.maxTokens.value, tokens, None));
      }
      if expired {
        Stop(Exceeded(Duration, 0, 0, None));
      }
      ok := stopped.None? && !cancelled;
    }

    predicate HasOutputRoom(bytes: nat)
      reads this
    {
      budget.maxOutputBytes.Some? ==> outputBytes + bytes <= budget.maxOutputBytes.value
    }

    method ChargeOutputBytes(bytes: nat, expiredBefore: bool, expiredAfter: bool) returns (ok: bool)
      requires Valid() && bytes <= WORD_MAX
      modifies this`stopped, this`cancelled, this`outputBytes
      ensures Valid()
      ensures ok <==> old(Clear(expiredBefore) && HasOutputRoom(bytes)) && !expiredAfter
      ensures old(HasOutputRoom(bytes)) <==>
        (budget.maxOutputBytes.Some? ==> old(outputBytes) + bytes <= budget.maxOutputBytes.value)
      ensures outputBytes ==
        if old(Clear(expiredBefore) && HasOutputRoom(bytes)) then SatAdd(old(outputBytes), bytes) else old(outputBytes)
      ensures !ok ==> cancelled
      ensures old(Clear(expiredBefore) && !HasOutputRoom(bytes)) ==>
        stopped == Some(Exceeded(OutputBytes, budget.maxOutputBytes.value, old(outputBytes), Some(bytes)))
    {
      ok := Check(expiredBefore);
      if !ok {
        return;
      }
      if budget.maxOutputBytes.Some? && bytes > SatSub(budget.maxOutputBytes.value, outputBytes) {
        Stop(Exceeded(OutputBytes, budget.maxOutputBytes.value, outputBytes, Some(bytes)));
        return false;
      }
      outputBytes := SatAdd(outputBytes, bytes);
      ok := Check(expiredAfter);
    }

    /** Streamed text within the budget; the first text that does not fit is cut and later ones are dropped. */
    method RetainText(text: seq<byte>) returns (kept: seq<byte>)
      requires Valid() && PrefixKept(retained, offered, outputLimited) && Utf8.Valid(text) && |text| <= WORD_MAX
      modifies this
      ensures Valid() && PrefixKept(retained, offered, outputLimited)
      ensures offered == old(offered) + text && retained == old(retained) + kept
      ensures outputBytes == SatAdd(old(outputBytes), |kept|)
      ensures outputLimited <==> old(outputLimited) || kept != text
      ensures old(outputLimited) ==> kept == []
      ensures !old(outputLimited) ==> kept <= text && Utf8.Valid(kept)
      ensures !old(outputLimited) ==> forall j :: |kept| < j <= |text| && Utf8.Valid(text[..j]) ==>
        budget.maxOutputBytes.Some? && budget.maxOutputBytes.value < old(outputBytes) + j
      ensures !old(outputLimited) && kept != text ==>
        outputLimited && cancelled && budget.maxOutputBytes.Some? && budget.maxOutputBytes.value - outputBytes <= 3
      ensures cancelled <==> old(cancelled) || (!old(outputLimited) && kept != text)
      ensures stopped ==
        if old(cancelled || outputLimited) || kept == text then old(stopped)
        else Some(Exceeded(OutputBytes, budget.maxOutputBytes.value, outputBytes, Some(|text|)))
      ensures toolCalls == old(toolCalls) && tokens == old(tokens)
    {
      kept := [];
      if outputLimited {
        KeepNothing(retained, offered, text);
        offered, retained := offered + text, retained + kept;
        return;
      }
      var available :=
        if budget.maxOutputBytes.Some? then SatSub(budget.maxOutputBytes.value, outputBytes) else WORD_MAX;
      kept := CutToFit(text, available, retained);
      offered, retained := offered + text, retained + kept;
      outputBytes := SatAdd(outputBytes, |kept|);
      if |kept| < |text| {
        outputLimited := true;
        Stop(Exceeded(OutputBytes, budget.maxOutputBytes.value, outputBytes, Some(|text|)));
      }
    }

    predicate HasRoom(count: nat)
      reads this
    {
      budget.maxToolCalls.Some? ==> toolCalls + count <= budget.maxToolCalls.value
    }

    /** A batch is admitted as a whole: afterwards that many single admissions fit the budget. */
    method ReserveTools(count: nat, perRound: nat, expired: bool) returns (ok: bool)
      requires Valid()
      modifies this`stopped, this`cancelled
      ensures Valid()
      ensures ok <==> old(Clear(expired)) && count <= perRound && HasRoom(count)
      ensures HasRoom(count) <==> (budget.maxToolCalls.Some? ==> toolCalls + count <= budget.maxToolCalls.value)
      ensures !ok ==> cancelled
      ensures ok ==> !cancelled
      ensures old(Clear(expired)) && count > perRound ==>
        stopped == Some(Exceeded(ToolCallsPerRound, perRound, 0, Some(count)))
      ensures old(Clear(expired)) && count <= perRound && !HasRoom(count) ==>
        stopped == Some(Exceeded(ToolCalls, budget.maxToolCalls.value, toolCalls, Some(count)))
    {
      ok := Check(expired);
      if !ok {
        return;
      }
      var violation := None;
      if count > perRound {
        violation := Some(Exceeded(ToolCallsPerRound, perRound, 0, Some(count)));
      } else if budget.maxToolCalls.Some? && count > SatSub(budget.maxToolCalls.value, toolCalls) {
        violation := Some(Exceeded(ToolCalls, budget.maxToolCalls.value, toolCalls, Some(count)));
      }
      if violation.Some? {
        Stop(violation.value);
        ok := false;
      }
    }

    method AdmitTool(expired: bool) returns (ok: bool)
      requires Valid() && toolCalls < WORD_MAX
      modifies this`stopped, this`cancelled, this`toolCalls
      ensures Valid()
      ensures ok <==> old(Clear(expired)) && (budget.maxToolCalls.Some? ==> old(toolCalls) < budget.maxToolCalls.value)
      ensures toolCalls == old(toolCalls) + if ok then 1 else 0
      ensures ok ==> !cancelled
      ensures old(Clear(expired)) && !ok ==>
        stopped == Some(Exceeded(ToolCalls, budget.maxToolCalls.value, toolCalls, Some(1)))
    {
      ok := Check(expired);
      if !ok {
        return;
      }
      if budget.maxToolCalls.Some? && toolCalls >= budget.maxToolCalls.value {
        Stop(Exceeded(ToolCalls, budget.maxToolCalls.value, toolCalls, Some(1)));
        return false;
      }
      toolCalls := SatAdd(toolCalls, 1);
    }

    /** A reserved batch of admissions succeeds as long as nothing else ends the run. */
    method AdmitBatch(count: nat, perRound: nat) returns (ok: bool)
      requires Valid() && toolCalls + count <= WORD_MAX
      modifies this`stopped, this`cancelled, this`toolCalls
      ensures Valid()
      ensures ok <==>
        && old(Clear(false)) && count <= perRound
        && (budget.maxToolCalls.Some? ==> old(toolCalls) + count <= budget.maxToolCalls.value)
      ensures ok ==> toolCalls == old(toolCalls) + count
      ensures !ok ==> toolCalls == old(toolCalls)
    {
      ok := ReserveTools(count, perRound, false);
      if ok {
        for i := 0 to count
          invariant Valid() && Clear(false)
          invariant toolCalls == old(toolCalls) + i
          invariant budget.maxToolCalls.Some? ==> old(toolCalls) + count <= budget.maxToolCalls.value
        {
          var admitted := AdmitTool(false);
          assert admitted;
        }
      }
    }

    function RemainingTokens(): (left: Option<nat>)
      reads this
      ensures left.Some? <==> budget.maxTokens.Some?
      ensures left.Some? && tokens <= budget.maxTokens.value ==> left.value + tokens == budget.maxTokens.value
      ensures left.Some? && tokens > budget.maxTokens.value ==> left.value == 0
    {
      if budget.maxTokens.Some? then Some(SatSub(budget.maxTokens.value, tokens)) else None
    }

    method AccountTokens(usage: Usage, estimate: nat)
      requires Valid()
      modifies this`tokens, this`estimated
      ensures Valid()
      ensures tokens == SatAdd(old(tokens), FromUsage(usage, estimate).used)
      ensures estimated == (old(estimated) || FromUsage(usage, estimate).estimated)
    {
      var charge := FromUsage(usage, estimate);
      tokens := SatAdd(tokens, charge.used);
      estimated := estimated || charge.estimated;
    }
  }
}
