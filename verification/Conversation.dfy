/** Model replies, and how a conversation grows without leaving a tool call unanswered. */
module Conversation {
  import opened Wrappers
  import opened Transcript
  import opened Units
  import opened Pruning
  import opened PruneShape
  import C = Control

  datatype StopReason = Complete | ToolCalls | MaxTokens | Filtered | OtherStop(text: string)
  datatype ResponseFault = NotAssistant | MalformedCall | StopDisagrees | EmptyCompleted

  /** The Unicode White_Space property, which trimming removes. */
  predicate White(c: char) {
    || '\t' <= c <= '\r' || c == ' ' || c == '\U{85}' || c == '\U{A0}' || c == '\U{1680}'
    || '\U{2000}' <= c <= '\U{200A}' || c == '\U{2028}' || c == '\U{2029}' || c == '\U{202F}'
    || c == '\U{205F}' || c == '\U{3000}'
  }

  /** What an answer can consist of: text that is not blank, or an image. */
  predicate Shows(b: Block) {
    b.Image? || (b.Text? && exists c <- b.text :: !White(c))
  }

  /** The 25 code points with that property. */
  const BLANKS: seq<int> := [
    0x09, 0x0A, 0x0B, 0x0C, 0x0D, 0x20, 0x85, 0xA0, 0x1680, 0x2000, 0x2001, 0x2002, 0x2003, 0x2004, 0x2005,
    0x2006, 0x2007, 0x2008, 0x2009, 0x200A, 0x2028, 0x2029, 0x202F, 0x205F, 0x3000]

  lemma ShowsIff(b: Block)
    ensures Shows(b) <==> match b
      case Image(_) => true
      case Text(text) => exists k :: 0 <= k < |text| && text[k] as int !in BLANKS
      case _ => false
  {
    if b.Text? {
      forall k | 0 <= k < |b.text| ensures White(b.text[k]) <==> b.text[k] as int in BLANKS {
        WhiteIff(b.text[k]);
      }
    }
  }

  lemma WhiteIff(c: char)
    ensures White(c) <==> c as int in BLANKS
  {
    var n := c as int;
    if 0x09 <= n <= 0x0D {
      assert BLANKS[n - 0x09] == n;
    } else if 0x2000 <= n <= 0x200A {
      assert BLANKS[n - 0x2000 + 9] == n;
    } else {
      assert BLANKS[5] == 0x20 && BLANKS[6] == 0x85 && BLANKS[7] == 0xA0 && BLANKS[8] == 0x1680;
      assert BLANKS[20] == 0x2028 && BLANKS[21] == 0x2029 && BLANKS[22] == 0x202F;
      assert BLANKS[23] == 0x205F && BLANKS[24] == 0x3000;
    }
  }

  predicate GoodCall(b: Block) {
    b.ToolCall? ==> b.id != "" && b.name != "" && b.arguments.JsonObject?
  }

  function CheckCalls(seen: set<string>, bs: seq<Block>): Option<set<string>>
    decreases bs
  {
    if bs == [] then Some(seen)
    else if !bs[0].ToolCall? then CheckCalls(seen, bs[1..])
    else if !GoodCall(bs[0]) || bs[0].id in seen then None
    else CheckCalls(seen + {bs[0].id}, bs[1..])
  }

  function ResponseVerdict(m: Message, stop: StopReason): Option<ResponseFault> {
    if m.role != Assistant then Some(NotAssistant)
    else
      var ids := CheckCalls({}, m.content);
      if ids.None? then Some(MalformedCall)
      else if stop.ToolCalls? == (ids.value == {}) then Some(StopDisagrees)
      else if stop.Complete? && !exists b <- m.content :: Shows(b) then Some(EmptyCompleted)
      else None
  }

  /** The loop over a reply's calls, with a mutable set of the ids seen. */
  method ValidateResponse(m: Message, stop: StopReason) returns (fault: Option<ResponseFault>)
    ensures fault == ResponseVerdict(m, stop)
  {
    if m.role != Assistant {
      return Some(NotAssistant);
    }
    var ids: set<string> := {};
    for i := 0 to |m.content|
      invariant CheckCalls({}, m.content) == CheckCalls(ids, m.content[i..])
    {
      var b := m.content[i];
      assert m.content[i..][0] == b && m.content[i..][1..] == m.content[i + 1..];
      if b.ToolCall? {
        if b.id == "" || b.name == "" || !b.arguments.JsonObject? || b.id in ids {
          return Some(MalformedCall);
        }
        ids := ids + {b.id};
      }
    }
    if stop.ToolCalls? == (ids == {}) {
      return Some(StopDisagrees);
    }
    fault := if stop.Complete? && !exists b <- m.content :: Shows(b) then Some(EmptyCompleted) else None;
  }

  /** The ids a message calls, in order. */
  function Called(m: Message): seq<string> {
    CallIds(Marks(m.content))
  }

  lemma {:induction false} CallsCons(b: Block, rest: seq<Block>)
    ensures CallIds(Marks([b] + rest)) == if b.ToolCall? then [b.id] + CallIds(Marks(rest)) else CallIds(Marks(rest))
    ensures b.ToolCall? ==> (Distinct([b.id] + CallIds(Marks(rest))) <==>
      Distinct(CallIds(Marks(rest))) && b.id !in CallIds(Marks(rest)))
  {
    var later := CallIds(Marks(rest));
    assert ([b] + rest)[1..] == rest;
    if b.ToolCall? {
      assert Marks([b] + rest)[0] == Asked(b.id) && Marks([b] + rest)[1..] == Marks(rest);
      DistinctConcat([b.id], later);
    } else if b.ToolResult? {
      assert Marks([b] + rest)[0] == Answered(b.callId) && Marks([b] + rest)[1..] == Marks(rest);
    } else {
      assert Marks([b] + rest) == Marks(rest);
    }
  }

  lemma {:induction false} CheckCallsIff(seen: set<string>, bs: seq<Block>)
    ensures CheckCalls(seen, bs).Some? <==>
      && (forall b <- bs :: GoodCall(b)) && Distinct(CallIds(Marks(bs)))
      && forall id <- CallIds(Marks(bs)) :: id !in seen
    ensures CheckCalls(seen, bs).Some? ==> CheckCalls(seen, bs).value == seen + IdSet(CallIds(Marks(bs)))
    decreases bs
  {
    if bs != [] {
      var b, rest := bs[0], bs[1..];
      assert forall x :: x in bs <==> x == b || x in rest;
      assert bs == [b] + rest;
      CallsCons(b, rest);
      CheckCallsIff(if b.ToolCall? then seen + {b.id} else seen, rest);
    }
  }

  /** A reply is accepted exactly when its calls are well formed and distinct and its stop reason fits what it holds. */
  lemma ResponseValidIff(m: Message, stop: StopReason)
    ensures ResponseVerdict(m, stop).None? <==>
      && m.role == Assistant
      && (forall b <- m.content :: GoodCall(b))
      && Distinct(Called(m))
      && (stop.ToolCalls? <==> Called(m) != [])
      && (stop.Complete? ==> exists b <- m.content :: Shows(b))
  {
    CheckCallsIff({}, m.content);
    assert Called(m) != [] ==> Called(m)[0] in IdSet(Called(m));
  }

  // ----- growing a conversation -----

  /** A reply carries no tool results of its own. */
  predicate NoResults(m: Message) {
    forall b <- m.content :: !b.ToolResult?
  }

  lemma {:induction false} NoMarks(bs: seq<Block>)
    requires forall b <- bs :: !b.ToolCall? && !b.ToolResult?
    ensures Marks(bs) == []
    decreases bs
  {
    if bs != [] {
      NoMarks(bs[1..]);
    }
  }

  lemma {:induction false} OnlyCalls(bs: seq<Block>)
    requires forall b <- bs :: !b.ToolResult?
    ensures OnlyAsks(Marks(bs))
    ensures CallIds(Marks(bs)) == [] ==> Marks(bs) == []
    decreases bs
  {
    if bs != [] {
      var b, rest := bs[0], bs[1..];
      OnlyCalls(rest);
      if b.ToolCall? {
        assert Marks(bs) == [Asked(b.id)] + Marks(rest);
        assert Marks(bs)[0] == Asked(b.id);
      } else {
        assert Marks(bs) == Marks(rest);
      }
    }
  }

  lemma AppendDeliverable(ms: seq<Message>, m: Message)
    requires Paired(ms) && C.Deliverable(m)
    ensures Paired(ms + [m])
  {
    NoMarks(m.content);
    SilentPaired(m);
    PairedConcat(ms, [m]);
  }

  /** A reply without calls leaves nothing open. */
  lemma AppendAnswer(ms: seq<Message>, m: Message)
    requires Paired(ms) && m.role == Assistant && NoResults(m) && Called(m) == []
    ensures Paired(ms + [m])
  {
    OnlyCalls(m.content);
    SilentPaired(m);
    PairedConcat(ms, [m]);
  }

  /** What a dispatcher returns: tool messages that answer the calls, one each, in the order of the calls. */
  predicate AllAnswered(tools: seq<Message>, calls: seq<string>) {
    && (forall m <- tools :: m.role == Tool && OnlyAnswers(Marks(m.content)))
    && AnswerIds(tools) == calls
  }

  /** A reply with calls, followed by one result per call, leaves nothing open. */
  lemma AppendExchange(ms: seq<Message>, m: Message, stop: StopReason, tools: seq<Message>)
    requires Paired(ms) && ResponseVerdict(m, stop).None? && NoResults(m) && AllAnswered(tools, Called(m))
    ensures Paired(ms + [m] + tools)
  {
    ResponseValidIff(m, stop);
    OnlyCalls(m.content);
    AnsweredCallsIff(m, tools);
    PairedConcat(ms, [m] + tools);
    Assoc(ms, [m], tools);
  }

  /** Pruning never separates a call from its result. */
  lemma PrunedStaysPaired(m: Measure, preserve: nat, ms: seq<Message>)
    requires Paired(ms) && Prune(m, preserve, ms).Ok?
    ensures Paired(Prune(m, preserve, ms).value.messages)
  {
    var removed, _ := PruneKeepsSuffix(m, preserve, ms);
    assert ms[0..] == ms;
    RebuildPaired(ms, 0, removed, false, RemovedCount(UnitsFrom(ms, 0), removed));
  }

  /** A conversation begins with these messages, all of them system messages. */
  predicate HeadedBy(prefix: seq<Message>, ms: seq<Message>) {
    prefix <= ms && forall m <- prefix :: m.role == System
  }

  /** The same, under a quantifier, so that it is unfolded only on request. */
  ghost predicate Headed(prefix: seq<Message>, ms: seq<Message>) {
    forall p: seq<Message> :: p == prefix ==> HeadedBy(p, ms)
  }

  lemma HeadedIff(prefix: seq<Message>, ms: seq<Message>)
    ensures Headed(prefix, ms) <==> prefix <= ms && forall m <- prefix :: m.role == System
  {
    if Headed(prefix, ms) {
      assert HeadedBy(prefix, ms);
    }
  }

  lemma HeadedOn(prefix: seq<Message>, ms: seq<Message>, rest: seq<Message>)
    requires Headed(prefix, ms)
    ensures Headed(prefix, ms + rest)
  {
    HeadedIff(prefix, ms);
    HeadedIff(prefix, ms + rest);
  }

  /** The first `n` messages, when there are as many. */
  function Leading(ms: seq<Message>, n: nat): Option<seq<Message>> {
    if n <= |ms| then Some(ms[..n]) else None
  }

  /** What the executor demands of a compaction: on target, smaller than before, and with the same head. */
  predicate Admitted(c: Compaction, target: nat, head: nat, ms: seq<Message>) {
    c.after <= target && c.after < c.before && Leading(c.messages, head) == Leading(ms, head)
  }

  /** Pruning passes those checks exactly when there was something to prune. */
  lemma CompactionAdmittedIff(m: Measure, preserve: nat, prefix: seq<Message>, ms: seq<Message>)
    requires Headed(prefix, ms) && Prune(m, preserve, ms).Ok?
    ensures Admitted(Prune(m, preserve, ms).value, m.target, |prefix|, ms) <==> m.target < Count(m, ms)
    ensures Headed(prefix, Prune(m, preserve, ms).value.messages)
  {
    PruneMeetsTarget(m, preserve, ms);
    var removed, cut := PruneKeepsSuffix(m, preserve, ms);
    var pruned := Prune(m, preserve, ms).value.messages;
    assert ms[0..] == ms;
    HeadedIff(prefix, ms);
    forall k | 0 <= k < |prefix| ensures ms[k].role == System {
      assert ms[k] == prefix[k] && prefix[k] in prefix;
    }
    RebuildHead(ms, 0, removed, false, RemovedCount(UnitsFrom(ms, 0), removed), |prefix|);
    assert ms[..|prefix|] == prefix && prefix <= pruned && pruned[..|prefix|] == prefix;
    HeadedIff(prefix, pruned);
  }
}
