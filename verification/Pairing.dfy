/** The call/result discipline of a whole transcript, read off its blocks. */
module Pairing {
  import opened Wrappers
  import opened Transcript
  import opened Units

  predicate CallAt(bs: seq<Block>, k: nat, id: string) {
    k < |bs| && bs[k].ToolCall? && bs[k].id == id
  }

  predicate ResultAt(bs: seq<Block>, k: nat, id: string) {
    k < |bs| && bs[k].ToolResult? && bs[k].callId == id
  }

  ghost predicate Called(bs: seq<Block>, id: string) {
    exists k: nat :: CallAt(bs, k, id)
  }

  ghost predicate Answered(bs: seq<Block>, id: string) {
    exists k: nat :: ResultAt(bs, k, id)
  }

  /** No two calls of one message share an id. */
  ghost predicate CallsOnce(bs: seq<Block>) {
    forall id, j: nat, k: nat :: CallAt(bs, j, id) && CallAt(bs, k, id) ==> j == k
  }

  /** No two results of one message answer the same call. */
  ghost predicate ResultsOnce(bs: seq<Block>) {
    forall id, j: nat, k: nat :: ResultAt(bs, j, id) && ResultAt(bs, k, id) ==> j == k
  }

  predicate NoCalls(bs: seq<Block>) {
    forall b <- bs :: !b.ToolCall?
  }

  predicate NoResults(bs: seq<Block>) {
    forall b <- bs :: !b.ToolResult?
  }

  /** Messages that answer: no call among them, and every id is answered by one message, once. */
  ghost predicate AnswersOnce(tools: seq<Message>) {
    && (forall m <- tools :: NoCalls(m.content) && ResultsOnce(m.content))
    && forall id, i: nat, j: nat ::
         i < j < |tools| && Answered(tools[i].content, id) ==> !Answered(tools[j].content, id)
  }

  /**
   * What pairing asks of one unit: the calls of its first message are distinct, the tool messages after it answer
   * each of them exactly once and nothing else, and a message that is not such a caller neither calls nor answers.
   */
  ghost predicate UnitAnswered(ms: seq<Message>, u: Unit)
    requires u.start < u.end <= |ms|
  {
    var first, tools := ms[u.start], ms[u.start + 1..u.end];
    if first.role == Assistant && HasCalls(first) then
      && NoResults(first.content) && CallsOnce(first.content) && AnswersOnce(tools)
      && forall id :: Called(first.content, id) <==> exists j: nat :: j < |tools| && Answered(tools[j].content, id)
    else NoCalls(first.content) && NoResults(first.content)
  }

  // ----- marks, block by block -----

  lemma {:induction false} MarksRead(bs: seq<Block>)
    ensures OnlyAsks(Marks(bs)) <==> NoResults(bs)
    ensures OnlyAnswers(Marks(bs)) <==> NoCalls(bs)
    ensures Marks(bs) == [] <==> NoCalls(bs) && NoResults(bs)
    decreases bs
  {
    if bs != [] {
      var b, rest := bs[0], bs[1..];
      MarksRead(rest);
      assert forall x :: x in bs <==> x == b || x in rest;
      assert forall k :: k in Marks(bs) <==> k in MarkOf(b) || k in Marks(rest);
      if b.ToolCall? {
        assert Asked(b.id) in MarkOf(b);
      } else if b.ToolResult? {
        assert Transcript.Answered(b.callId) in MarkOf(b);
      }
    }
  }

  /** Calls in reading order: which ids, and whether any is repeated. */
  lemma {:induction false} CallsRead(bs: seq<Block>)
    ensures forall id :: id in CallIds(Marks(bs)) <==> Called(bs, id)
    ensures Distinct(CallIds(Marks(bs))) <==> CallsOnce(bs)
    decreases bs
  {
    if bs != [] {
      var b, rest := bs[0], bs[1..];
      CallsRead(rest);
      CallShift(bs);
      if b.ToolCall? {
        assert Marks(bs)[0] == Asked(b.id) && Marks(bs)[1..] == Marks(rest);
        DistinctConcat([b.id], CallIds(Marks(rest)));
        assert CallAt(bs, 0, b.id);
      } else if b.ToolResult? {
        assert Marks(bs)[0] == Transcript.Answered(b.callId) && Marks(bs)[1..] == Marks(rest);
        assert CallIds(Marks(bs)) == CallIds(Marks(rest));
      } else {
        assert Marks(bs) == Marks(rest);
      }
    }
  }

  lemma CallShift(bs: seq<Block>)
    requires bs != []
    ensures forall id :: Called(bs, id) <==> (bs[0].ToolCall? && bs[0].id == id) || Called(bs[1..], id)
    ensures CallsOnce(bs) <==> CallsOnce(bs[1..]) && (bs[0].ToolCall? ==> !Called(bs[1..], bs[0].id))
  {
    var rest := bs[1..];
    assert forall id, k: nat :: CallAt(rest, k, id) <==> CallAt(bs, k + 1, id);
    forall id ensures Called(bs, id) <==> (bs[0].ToolCall? && bs[0].id == id) || Called(rest, id) {
      if Called(bs, id) {
        var k: nat :| CallAt(bs, k, id);
        assert k > 0 ==> CallAt(rest, k - 1, id);
      }
      if bs[0].ToolCall? && bs[0].id == id {
        assert CallAt(bs, 0, id);
      }
    }
    if CallsOnce(bs) && bs[0].ToolCall? {
      assert CallAt(bs, 0, bs[0].id);
      assert !Called(rest, bs[0].id);
    }
    if CallsOnce(rest) && (bs[0].ToolCall? ==> !Called(rest, bs[0].id)) {
      forall id, j: nat, k: nat | CallAt(bs, j, id) && CallAt(bs, k, id) ensures j == k {
        assert j > 0 ==> CallAt(rest, j - 1, id);
        assert k > 0 ==> CallAt(rest, k - 1, id);
      }
    }
  }

  lemma {:induction false} ResultsRead(bs: seq<Block>)
    ensures forall id :: id in MarkedAnswers(Marks(bs)) <==> Answered(bs, id)
    ensures Distinct(MarkedAnswers(Marks(bs))) <==> ResultsOnce(bs)
    decreases bs
  {
    if bs != [] {
      var b, rest := bs[0], bs[1..];
      ResultsRead(rest);
      ResultShift(bs);
      if b.ToolResult? {
        assert Marks(bs)[0] == Transcript.Answered(b.callId) && Marks(bs)[1..] == Marks(rest);
        DistinctConcat([b.callId], MarkedAnswers(Marks(rest)));
        assert ResultAt(bs, 0, b.callId);
      } else if b.ToolCall? {
        assert Marks(bs)[0] == Asked(b.id) && Marks(bs)[1..] == Marks(rest);
        assert MarkedAnswers(Marks(bs)) == MarkedAnswers(Marks(rest));
      } else {
        assert Marks(bs) == Marks(rest);
      }
    }
  }

  lemma ResultShift(bs: seq<Block>)
    requires bs != []
    ensures forall id :: Answered(bs, id) <==> (bs[0].ToolResult? && bs[0].callId == id) || Answered(bs[1..], id)
    ensures ResultsOnce(bs) <==> ResultsOnce(bs[1..]) && (bs[0].ToolResult? ==> !Answered(bs[1..], bs[0].callId))
  {
    var rest := bs[1..];
    assert forall id, k: nat :: ResultAt(rest, k, id) <==> ResultAt(bs, k + 1, id);
    forall id ensures Answered(bs, id) <==> (bs[0].ToolResult? && bs[0].callId == id) || Answered(rest, id) {
      if Answered(bs, id) {
        var k: nat :| ResultAt(bs, k, id);
        assert k > 0 ==> ResultAt(rest, k - 1, id);
      }
      if bs[0].ToolResult? && bs[0].callId == id {
        assert ResultAt(bs, 0, id);
      }
    }
    if ResultsOnce(bs) && bs[0].ToolResult? {
      assert ResultAt(bs, 0, bs[0].callId);
      assert !Answered(rest, bs[0].callId);
    }
    if ResultsOnce(rest) && (bs[0].ToolResult? ==> !Answered(rest, bs[0].callId)) {
      forall id, j: nat, k: nat | ResultAt(bs, j, id) && ResultAt(bs, k, id) ensures j == k {
        assert j > 0 ==> ResultAt(rest, j - 1, id);
        assert k > 0 ==> ResultAt(rest, k - 1, id);
      }
    }
  }

  // ----- answers, message by message -----

  predicate AllAnswer(tools: seq<Message>) {
    forall m <- tools :: OnlyAnswers(Marks(m.content))
  }

  ghost predicate AnsweredBy(tools: seq<Message>, id: string) {
    exists j: nat :: j < |tools| && Answered(tools[j].content, id)
  }

  lemma {:induction false} AnswersRead(tools: seq<Message>)
    ensures forall id :: id in AnswerIds(tools) <==> AnsweredBy(tools, id)
    ensures AllAnswer(tools) && Distinct(AnswerIds(tools)) <==> AnswersOnce(tools)
    decreases tools
  {
    if tools != [] {
      var m, rest := tools[0], tools[1..];
      var here, later := MarkedAnswers(Marks(m.content)), AnswerIds(rest);
      AnswersRead(rest);
      MarksRead(m.content);
      ResultsRead(m.content);
      DistinctConcat(here, later);
      AnswersShift(tools);
      assert forall id :: id in here + later <==> id in here || id in later;
      assert AllAnswer(tools) <==> OnlyAnswers(Marks(m.content)) && AllAnswer(rest) by {
        assert forall x :: x in tools <==> x == m || x in rest;
      }
    }
  }

  lemma AnswersShift(tools: seq<Message>)
    requires tools != []
    ensures forall id :: AnsweredBy(tools, id) <==> Answered(tools[0].content, id) || AnsweredBy(tools[1..], id)
    ensures AnswersOnce(tools) <==>
      && NoCalls(tools[0].content) && ResultsOnce(tools[0].content) && AnswersOnce(tools[1..])
      && forall id :: Answered(tools[0].content, id) ==> !AnsweredBy(tools[1..], id)
  {
    var m, rest := tools[0], tools[1..];
    assert forall x :: x in tools <==> x == m || x in rest;
    forall id ensures AnsweredBy(tools, id) <==> Answered(m.content, id) || AnsweredBy(rest, id) {
      if AnsweredBy(tools, id) {
        var j: nat :| j < |tools| && Answered(tools[j].content, id);
        assert j > 0 ==> rest[j - 1] == tools[j];
      }
      if AnsweredBy(rest, id) {
        var j: nat :| j < |rest| && Answered(rest[j].content, id);
        assert tools[j + 1] == rest[j];
      }
    }
    if AnswersOnce(tools) {
      forall id, i: nat, j: nat | i < j < |rest| && Answered(rest[i].content, id)
        ensures !Answered(rest[j].content, id)
      {
        assert rest[i] == tools[i + 1] && rest[j] == tools[j + 1];
      }
      forall id | Answered(m.content, id) ensures !AnsweredBy(rest, id) {
        forall j: nat | j < |rest| ensures !Answered(rest[j].content, id) {
          assert rest[j] == tools[j + 1];
        }
      }
    }
    if AnswersOnce(rest) && forall id :: Answered(m.content, id) ==> !AnsweredBy(rest, id) {
      forall id, i: nat, j: nat | i < j < |tools| && Answered(tools[i].content, id)
        ensures !Answered(tools[j].content, id)
      {
        assert tools[j] == rest[j - 1] && (i > 0 ==> tools[i] == rest[i - 1]);
      }
    }
  }

  // ----- units -----

  lemma CallerIff(ms: seq<Message>, i: nat)
    requires i < |ms| && ms[i].role == Assistant && HasCalls(ms[i])
    ensures Paired(ms[i..UnitEnd(ms, i)]) <==> UnitAnswered(ms, Unit(i, UnitEnd(ms, i), true))
  {
    var first, tools := ms[i], ms[i + 1..UnitEnd(ms, i)];
    assert ms[i..UnitEnd(ms, i)] == [first] + tools;
    forall m <- tools ensures m.role == Tool {
      var k :| 0 <= k < |tools| && tools[k] == m;
      assert m == ms[i + 1 + k];
    }
    AnsweredCallsIff(first, tools);
    MarksRead(first.content);
    CallsRead(first.content);
    AnswersRead(tools);
    SameSet(CallIds(Marks(first.content)), AnswerIds(tools));
    assert forall id :: AnsweredBy(tools, id) <==> exists j: nat :: j < |tools| && Answered(tools[j].content, id);
  }

  lemma SameSet(a: seq<string>, b: seq<string>)
    ensures IdSet(b) == IdSet(a) <==> forall id :: id in a <==> id in b
  {
    if IdSet(b) == IdSet(a) {
      forall id ensures id in a <==> id in b {
        assert id in IdSet(a) <==> id in IdSet(b);
      }
    }
  }

  lemma LoneIff(ms: seq<Message>, i: nat)
    requires i < |ms| && !(ms[i].role == Assistant && HasCalls(ms[i]))
    ensures Paired(ms[i..UnitEnd(ms, i)]) <==> UnitAnswered(ms, Unit(i, UnitEnd(ms, i), true))
  {
    var m := ms[i];
    assert ms[i..UnitEnd(ms, i)] == [m] && [m][1..] == [];
    MarksRead(m.content);
    if m.role == Assistant {
      NoCallsNoAsks(m.content);
    }
    var marks := Marks(m.content);
    assert marks != [] ==> marks[0] in marks;
    assert Track({}, m.role, marks) == if marks == [] then Some({}) else None;
    assert Open({}, [m]) == Track({}, m.role, marks);
  }

  lemma UnitIff(ms: seq<Message>, i: nat)
    requires i < |ms|
    ensures Paired(ms[i..]) <==>
      UnitAnswered(ms, Unit(i, UnitEnd(ms, i), ms[i].role != System)) && Paired(ms[UnitEnd(ms, i)..])
  {
    var e := UnitEnd(ms, i);
    CutAgain(ms, i, e);
    if ms[i].role == Assistant && HasCalls(ms[i]) {
      CallerIff(ms, i);
    } else {
      LoneIff(ms, i);
    }
    if Paired(ms[i..]) {
      UnitPaired(ms, i);
    } else if Paired(ms[i..e]) {
      PairedConcat(ms[i..e], ms[e..]);
    }
  }

  ghost predicate AllUnitsAnswered(ms: seq<Message>, units: seq<Unit>) {
    forall u <- units :: u.start < u.end <= |ms| && UnitAnswered(ms, u)
  }

  /** A transcript is paired exactly when each of its units is, judged by its blocks alone. */
  lemma {:induction false} PairedIff(ms: seq<Message>, i: nat)
    requires i <= |ms|
    ensures Paired(ms[i..]) <==> AllUnitsAnswered(ms, UnitsFrom(ms, i))
    decreases |ms| - i
  {
    if i < |ms| {
      var e := UnitEnd(ms, i);
      UnitsUnfold(ms, i);
      PairedIff(ms, e);
      UnitIff(ms, i);
      var u := Unit(i, e, ms[i].role != System);
      assert forall x :: x in UnitsFrom(ms, i) <==> x == u || x in UnitsFrom(ms, e);
    }
  }
}
